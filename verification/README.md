# Incident tickets: decision rules of the API, the route guard and the pages

A Next.js application for incident tickets. Users open tickets, an
administrator assigns them to employees and watches an SLA countdown, and
employees move tickets through their statuses. This project models the
application's decision rules as pure Dafny functions and proves properties
about them:

- the ticket API (`GET`, `POST`, `PATCH` on `/api/tickets`) over an
  in-memory ticket table;
- the SLA countdown and the assignment flow of the administrator's ticket page;
- the route guard (`withAuth` callback, role-prefix checks, matcher);
- the root page's role redirect and the navigation bar's per-role links;
- the client-side validators of the user administration form and the ticket
  creation form;
- the status handling of the older shared tickets page and of the employee
  page, stated against the API's own status check.

The session is an `Option<Session>` carrying the `id` and `role` claims.
Responses carry a status code and a body. The clock is a `now` parameter in
integer milliseconds. JavaScript's `trim` uses its exact white-space set.
`charAt(0).toUpperCase() + slice(1).toLowerCase()` is modelled for Basic
Latin and Latin-1, including the three Latin-1 letters whose upper case is
not 32 code points below them: ß becomes "SS", µ becomes U+039C and ÿ
becomes U+0178. `Number(...)` on an id claim is modelled
for decimal numerals.

Modules, one per source file, plus shared helpers:

| module | file |
|---|---|
| `Wrappers`, `Text`, `Seqs`, `Domain` | `Option`/`Presence`; `trim`, case mapping, number rendering; `filter`; roles, priorities, statuses, tickets |
| `TicketsRoute` | src/app/api/tickets/route.ts |
| `AdminTickets` | src/app/admin/tickets/page.tsx |
| `Middleware` | src/middleware.ts |
| `HomePage` | src/app/page.tsx |
| `Navigation` | src/components/Navigation.tsx |
| `LegacyTickets` | src/app/tickets/page.tsx |
| `EmployeeTickets` | src/app/empleado/tickets/page.tsx |
| `AdminUsers` | src/app/admin/usuarios/page.tsx |
| `CreateTicketForm` | src/app/tickets/crear/page.tsx |

Two behaviours of the code a reader might not expect:

- The SLA countdown does not always show fewer hours than the budget. At the
  instant of creation it shows exactly the budget (`3h 0m restantes` for
  Alta). `AdminTickets.TiempoRestanteSla` therefore states `hours <= budget`,
  and `hours < budget` only once time has passed.
- A `PATCH` naming an id that is not in the table makes the update throw. The
  handler's catch answers 500 `Error al actualizar ticket`, and the model
  returns exactly that.

## Model

| member | source | states |
|---|---|---|
| Text.Trim | src/app/api/tickets/route.ts:88 | `trim` yields an infix outside which there is only white space and which neither starts nor ends with white space; it is empty exactly when the input is blank |
| Text.TrimIdempotent | src/app/tickets/crear/page.tsx:26 | trimming text that is already trimmed changes nothing |
| Text.CapitaliseIdempotent | src/app/api/tickets/route.ts:100 | in the modelled Latin-1 mapping, for a word that does not start with ß the normalisation keeps the length and is a projection: normalising a normalised word gives it back. A word starting with ß grows by one ("SS…") and is not stable, since its second letter turns from 'S' into 's' when normalised again |
| Text.Capitalise | src/app/api/tickets/route.ts:100 | no ensures of its own; characterised by Text.CapitaliseIdempotent and Text.PriorityWordsNormal |
| Text.PriorityWordsNormal | src/app/api/tickets/route.ts:100-101 | each of the four priority words Baja, Media, Alta, Crítica is its own normal form |
| Text.NatToString | src/app/admin/tickets/page.tsx:52 | a rendered number is a non-empty run of digits with no leading zero |
| Text.DecimalRoundTrip | src/app/admin/usuarios/page.tsx:90 | reading rendered digits back gives the number that was rendered |
| Text.NatToStringInjective | src/app/admin/usuarios/page.tsx:90 | two ids with the same text are the same id |
| Text.NumberOf | src/app/tickets/crear/page.tsx:49 | `Number` of a blank string is 0, and every numeric reading is non-negative |
| Text.NumberOfRendered | src/app/tickets/crear/page.tsx:49 | `Number` reads a rendered id back as that id |
| Seqs.Filter | src/app/admin/tickets/page.tsx:88 | `filter` keeps exactly the elements that satisfy the predicate, each as often as it occurs, and never lengthens the list |
| Domain.ParseRole | src/middleware.ts:10-18 | a role claim names a role only by its exact text, and no role otherwise |
| Domain.ParsePriority | src/app/api/tickets/route.ts:99-102 | a word is accepted exactly when it is one of Baja, Media, Alta, Crítica, and then it is that priority's name |
| Domain.ParseStatus | src/app/api/tickets/route.ts:155-156 | a status word is accepted exactly when it is one of Pendiente, En_Proceso, Resuelto, Rechazado |
| Domain.NamesRoundTrip | src/app/api/tickets/route.ts:99-115 | every stored role, priority and status word parses back to itself |
| TicketsRoute.Insert | src/app/api/tickets/route.ts:33 | inserting into a newest-first list keeps it newest first and adds exactly that ticket |
| TicketsRoute.SortNewestFirst | src/app/api/tickets/route.ts:33 | the `orderBy` result is newest first and is a permutation of its input |
| TicketsRoute.Matching | src/app/api/tickets/route.ts:21-61 | the `where` clause keeps each ticket the parameters select, as often as stored, and no other; `userId` wins over `employeeId` |
| TicketsRoute.List | src/app/api/tickets/route.ts:8-64 | no session gives 401; otherwise 200 with a newest-first permutation of exactly the selected tickets |
| TicketsRoute.ListSelectsExactly | src/app/api/tickets/route.ts:21-61 | a ticket is listed if and only if it is stored and selected by the parameters |
| TicketsRoute.Create | src/app/api/tickets/route.ts:75-126 | no session gives 401 and no change. The 400 checks run in order: description blank after trim, then priority falsy, then user id falsy (0 included). 201 comes exactly when all checks pass and the normalised priority is one of the four words. Only a 201 changes the table, by appending a Pendiente ticket with the trimmed description, the normalised priority, creation date `now`, no closure date and no assignee |
| TicketsRoute.CreateStoresCanonicalPriority | src/app/api/tickets/route.ts:99-113 | a created ticket's priority is one of the four words, is its own normal form, and equals the normalised request word |
| TicketsRoute.CreatePreservesValid | src/app/api/tickets/route.ts:110-116 | creating keeps ids unique and below the counter, and keeps closure dates on closed tickets |
| TicketsRoute.BuildUpdate | src/app/api/tickets/route.ts:164-168 | the update carries `idEmpleado` exactly as sent unless it is undefined (null unassigns); `estado` exactly when it is non-empty; and a closure date of `now` exactly when `estado` is Resuelto or Rechazado |
| TicketsRoute.FindTicket | src/app/api/tickets/route.ts:170-171 | finds the first position holding the id, or reports that no position holds it |
| TicketsRoute.Update | src/app/api/tickets/route.ts:144-191 | no session gives 401 and no change; a non-empty unknown status gives 400 and no change; 200 exactly when the status check passes and the id is stored, in which case only that row is replaced by the updated row; a missing id gives 500 and no change |
| TicketsRoute.UpdateEffect | src/app/api/tickets/route.ts:164-183 | a successful update changes only the target row: assignee as sent when present, status when non-empty, closure date `now` for a closing status, every other field and every other row unchanged |
| TicketsRoute.ApplyUpdate | src/app/api/tickets/route.ts:170-172 | no ensures of its own; characterised by TicketsRoute.UpdateEffect: the written fields replaced, every other field kept |
| TicketsRoute.AnyTransitionAccepted | src/app/api/tickets/route.ts:155-168 | every status may follow every status, Resuelto and Rechazado included |
| TicketsRoute.UpdateNeverClearsClosure | src/app/api/tickets/route.ts:167 | no update removes a closure date |
| TicketsRoute.UpdatePreservesValid | src/app/api/tickets/route.ts:164-181 | updating keeps ids unique and below the counter, and keeps closure dates on closed tickets |
| AdminTickets.SlaBudgetHours | src/app/admin/tickets/page.tsx:33-38 | Crítica has 1 hour, Alta 3, Media 12 and Baja 24; a word outside the four priorities has no budget |
| AdminTickets.TiempoRestanteSla | src/app/admin/tickets/page.tsx:32-53 | no budget gives the NaN reading; breached exactly when the time left is at most zero; otherwise minutes below 60 and whole hours and minutes that bracket the time left to within a minute; hours at most the budget, and below it once time has passed |
| AdminTickets.SplitHoursMinutes | src/app/admin/tickets/page.tsx:50-51 | whole hours, then whole minutes of the rest, bracket a positive time to within a minute |
| AdminTickets.BadgeRedIffBreached | src/app/admin/tickets/page.tsx:167-170 | the badge test on the printed text is true exactly for the breached reading |
| AdminTickets.SlaText | src/app/admin/tickets/page.tsx:47-52 | no ensures of its own; characterised by AdminTickets.BadgeRedIffBreached: the text is "SLA vencido" exactly for a breached reading |
| AdminTickets.SlaMonotone | src/app/admin/tickets/page.tsx:42-47 | as `now` grows the minutes shown never increase, and a breached ticket stays breached |
| AdminTickets.ShownSlaIsDefined | src/app/admin/tickets/page.tsx:166 | whenever the countdown is shown the priority has a budget of at most three hours, so the NaN reading never appears |
| AdminTickets.ShowsSla | src/app/admin/tickets/page.tsx:166 | no ensures of its own; characterised by AdminTickets.ShownSlaIsDefined: a shown countdown always has a budget |
| AdminTickets.Employees | src/app/admin/tickets/page.tsx:88 | the dropdown offers exactly the users whose role is Empleado, each as often as listed |
| AdminTickets.ReplaceTicket | src/app/admin/tickets/page.tsx:109-111 | the list keeps its length; entries with the assigned id become the server's answer and every other entry stays |
| AdminTickets.AssignmentKeepsListInSync | src/app/admin/tickets/page.tsx:108-111 | after a successful assignment, the page's list holds the same tickets as the table and is still newest first |
| Middleware.Decide | src/middleware.ts:4-33 | paths outside the matcher pass; a matched path without a token goes to sign-in; sign-in happens only without a token |
| Middleware.PrefixesDisjoint | src/middleware.ts:10-20 | no path starts with two role prefixes, so at most one check fires |
| Middleware.GuardRedirectsIffRoleDiffers | src/middleware.ts:10-20 | on a path under a role's prefix the guard redirects to the root exactly when the token's role is not that role |
| Middleware.GuardPassesOwner | src/middleware.ts:22 | a token whose role owns the path's prefix is passed through |
| Middleware.Guard | src/middleware.ts:5-23 | no ensures of its own; characterised by Middleware.GuardRedirectsIffRoleDiffers and Middleware.GuardPassesOwner |
| Middleware.MatchedHasOwner | src/middleware.ts:32 | every path the matcher intercepts lies under some role prefix |
| HomePage.HomeTarget | src/app/page.tsx:11-21 | the redirect goes to the login page or to some role's landing page |
| HomePage.HomeTargetByRole | src/app/page.tsx:12-20 | each role goes to its own landing page; no session and unknown roles go to /login; a landing page is reached only by its own role |
| HomePage.NoRedirectLoop | src/app/page.tsx:12-17 | the guard lets every session through to the page the root sends it to |
| Navigation.Links | src/components/Navigation.tsx:9-47 | no session renders no links; otherwise the brand link to the root comes first |
| Navigation.LinksByRole | src/components/Navigation.tsx:21-47 | a known role sees the root link and exactly its own block; any other role sees the root link only |
| Navigation.RoleLinksGuardedForRole | src/components/Navigation.tsx:21-47 | every role link is intercepted by the guard and passes it exactly for that role |
| Navigation.ShownLinksPassGuard | src/components/Navigation.tsx:16-47 | every link the bar shows a session passes the guard for that session |
| Navigation.RoleLinksDisjoint | src/components/Navigation.tsx:21-47 | no link is shown to two roles |
| Navigation.HomeIsShown | src/components/Navigation.tsx:21-47 | each role's landing page from the root redirect is among that role's links |
| LegacyTickets.EstadoDisplayName | src/app/tickets/page.tsx:60-68 | the four upper-case codes get readable names, and any other text is shown unchanged |
| LegacyTickets.StoredStatusesMissTheCodes | src/app/tickets/page.tsx:60-110 | for every stored status: shown verbatim, action buttons shown, "En Proceso" button never disabled |
| LegacyTickets.ShowsActions | src/app/tickets/page.tsx:105 | no ensures of its own; characterised by LegacyTickets.StoredStatusesMissTheCodes: true for every stored status |
| LegacyTickets.InProgressDisabled | src/app/tickets/page.tsx:110 | no ensures of its own; characterised by LegacyTickets.StoredStatusesMissTheCodes: false for every stored status |
| LegacyTickets.ActionsRejectedByServer | src/app/tickets/page.tsx:105-121 | each status a button sends gets 400 from the API and leaves the table unchanged |
| LegacyTickets.IntendedActionsAccepted | src/app/tickets/page.tsx:105-121 | with the stored spellings and a numeric `idEmpleado` each button gets 200 and sets the chosen status. Afterwards "En Proceso" leaves the buttons shown with that button disabled, while "Resolver" and "Rechazar" hide them and record the closure date `now` |
| EmployeeTickets.InProgressOptionRejected | src/app/empleado/tickets/page.tsx:124-128 | the "En Proceso" option gets 400 with no change; the other three are not refused |
| EmployeeTickets.IntendedOptionsAccepted | src/app/empleado/tickets/page.tsx:124-128 | with the API's spellings every option gets 200 and sets the status it names |
| AdminUsers.Submit | src/app/admin/usuarios/page.tsx:73-98 | blank name first, then blank login, then (create only) empty password block the request. Otherwise an edit sends PATCH to the user's path and a create sends POST to the collection. Name, login and role are always carried; the password only when non-empty |
| AdminUsers.PasswordOnlyRequiredOnCreate | src/app/admin/usuarios/page.tsx:84-87 | an empty password blocks a create but not an edit, which then sends no password |
| AdminUsers.EditUser | src/app/admin/usuarios/page.tsx:160-169 | editing copies id, name, login and role, empties the password and opens the form in edit mode |
| AdminUsers.EditThenSaveKeepsPassword | src/app/admin/usuarios/page.tsx:160-169 | editing a user and saving unchanged sends a PATCH to that user's path with the same name, login and role and no password field, which the user update route takes as keeping the stored password |
| AdminUsers.UserPathNamesTheUser | src/app/admin/usuarios/page.tsx:90 | the path's last segment is the decimal text of the user's id |
| AdminUsers.MapApiUser | src/app/admin/usuarios/page.tsx:55-62 | the listed id is `idUsuario` when truthy and `id` otherwise; name, login and role are copied |
| AdminUsers.ListedIdIsRowId | src/app/api/usuarios/route.ts:16-23 | since the users endpoint sends no `idUsuario`, every listed user carries the row's `id` |
| CreateTicketForm.Submit | src/app/tickets/crear/page.tsx:13-50 | models `handleSubmit`, after the browser's own form validation: no session or empty id claim is refused first; the request is sent exactly when the trimmed description and the priority are non-empty; the body has the trimmed description, the priority and `Number` of the id claim |
| CreateTicketForm.DescriptionCheckedBeforePriority | src/app/tickets/crear/page.tsx:37-44 | a blank description is reported even when the priority is also missing |
| CreateTicketForm.SentDescriptionPassesServer | src/app/tickets/crear/page.tsx:26-37 | every description the form sends passes the API's description check and is stored unchanged |
| CreateTicketForm.PriorityOptionsAccepted | src/app/tickets/crear/page.tsx:131-135 | every real option is non-empty, is its own normal form and is accepted by the API |
| CreateTicketForm.FormSubmissionCreatesTicket | src/app/tickets/crear/page.tsx:46-50 | a signed-in user with a positive id who sends a non-blank description and an offered priority gets 201 and a ticket with that text, that priority and that user id |
| CreateTicketForm.ZeroIdPassesFormFailsServer | src/app/tickets/crear/page.tsx:17-20 | an id claim of "0" passes the form's check but the API refuses it as a missing user id |

## Findings

| source | as written | input that shows it | evidently intended | confidence | as-written member | corrected member |
|---|---|---|---|---|---|---|
| src/app/tickets/page.tsx:105-121 | buttons send, and the visibility test compares against, EN_PROCESO, RESUELTO, RECHAZADO | any ticket; clicking "Resolver" sends `estado: 'RESUELTO'` | the stored spellings En_Proceso, Resuelto, Rechazado, and `idEmpleado: Number(session.user.id)`, since the string claim would reach the integer column and the handler would answer 500 | high (not executed) | LegacyTickets.ActionsRejectedByServer | LegacyTickets.IntendedActionsAccepted |
| src/app/empleado/tickets/page.tsx:125 | option value `En Proceso` | choosing "En Proceso" on any ticket | `En_Proceso`, the word the API accepts | high (not executed) | EmployeeTickets.InProgressOptionRejected | EmployeeTickets.IntendedOptionsAccepted |

## Left out

- Storage: the Prisma client and the database are an in-memory `Store` (ticket sequence plus id counter). The `include` of creator and assignee names is not modelled, and neither are database failures other than a missing id on update.
- Authentication: next-auth (`getServerSession`, `useSession`, `signIn`), bcrypt and the login page. The session and the token are inputs.
- The sign-in redirect of `withAuth` is the abstract `RedirectSignIn`; its target URL is next-auth configuration.
- React state, effects, rendering, badge colours, `fetch`, `router.push`, `confirm` and `Promise.all` are UI or I/O. The admin pages' "not an administrator goes to /" effect (src/app/admin/tickets/page.tsx:62-69) is a client redirect and is not modelled.
- `new Date()` is the `now` parameter, and dates are integer milliseconds.
- AdminTickets.TiempoRestanteSla: computes in exact integer milliseconds rather than JavaScript doubles, so the rounding of `(horasRestantes - horas) * 60` may differ by a minute at exact minute boundaries.
- Text.UpperCase and Text.LowerChar: follow JavaScript's case mapping on Basic Latin and Latin-1 only, with ß, µ and ÿ mapped as JavaScript maps them. Characters above U+00FF are left as they are, because the priority words need nothing else.
- Text.NumberOf: reads blank text and decimal numerals. Signs, fractions, exponents and hexadecimal are read as NaN (`None`), because session ids are decimal.
- The `userId` and `employeeId` query parameters are taken as already-parsed integers, with `None` for absent or empty. `parseInt` of other text is not modelled.
- The order of tickets with equal creation dates is left open by the database. `SortNewestFirst` picks one such order; the listing lemmas speak only of order by date and of contents.
- LegacyTickets.IntendedActionsAccepted: sends `idEmpleado` as `Number` of the id claim, not as the string claim the page sends (src/app/tickets/page.tsx:42). With the string, the database would refuse the value for its integer column and the handler would answer 500 (src/app/api/tickets/route.ts:184-189); database typing is not modelled, so that lemma states the page with both corrections: the stored status spellings and `Number(session.user.id)`.
- LegacyTickets.EstadoDisplayName: `estadosMap[estado] || estado` would also find names inherited by every JavaScript object (`constructor`, `toString`, `valueOf`, `__proto__`, …); the model treats them as unmapped. No stored status is such a name.
- AdminUsers.Submit: the browser's constraint validation, which runs before `handleSubmit`, is not modelled. The name and login inputs are `required` (src/app/admin/usuarios/page.tsx:238, 257), the password input is `required={!modoEdicion}` (line 276) and the role select is `required` (line 293). An empty name, login or create-password is therefore stopped by the browser's own prompt rather than by the message the model returns. Whether a request is sent does not change. A name or login made only of white space passes the browser and is refused by `handleSubmit` as modelled.
- CreateTicketForm.Submit: the browser's constraint validation, which runs before `handleSubmit`, is not modelled: the description textarea is `required` with `minLength` 10 and `maxLength` 500 (src/app/tickets/crear/page.tsx:113-115) and the priority select is `required` (line 128). A submission the model sends can be stopped by the browser when its description is shorter than 10 or longer than 500 characters.
- The employee page's client-sent `fechaCierre` is ignored by the API (route.ts reads only `id`, `idEmpleado` and `estado`), so it is not modelled.
- JSON values of the wrong type (a number for `descripcion`, say) are not modelled. Every string field is a string or absent.
- The `titulo` field read by the create handler is unused, and so is not modelled.
- The users endpoint, the user-facing ticket pages, the layout and the configuration hold no decision rules.
