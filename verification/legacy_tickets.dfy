/** The older shared tickets page: how it names statuses, when it offers
    the action buttons, and the status words those buttons send. It was
    written against upper-case status codes, while the API stores and
    accepts capitalised words; the lemmas here state the consequences. */
module LegacyTickets {
  import opened Wrappers
  import opened Domain
  import Text
  import TicketsRoute

  /** `getEstadoDisplayName`: the four upper-case codes get a readable
      name; any other text is shown as it is. */
  function EstadoDisplayName(estado: string): (r: string)
    ensures estado == "PENDIENTE" ==> r == "Pendiente"
    ensures estado == "EN_PROCESO" ==> r == "En Proceso"
    ensures estado == "RESUELTO" ==> r == "Resuelto"
    ensures estado == "RECHAZADO" ==> r == "Rechazado"
    ensures estado !in ["PENDIENTE", "EN_PROCESO", "RESUELTO", "RECHAZADO"] ==> r == estado
  {
    if estado == "PENDIENTE" then "Pendiente"
    else if estado == "EN_PROCESO" then "En Proceso"
    else if estado == "RESUELTO" then "Resuelto"
    else if estado == "RECHAZADO" then "Rechazado"
    else estado
  }

  /** The action buttons are rendered unless the status is RESUELTO or RECHAZADO. */
  predicate ShowsActions(estado: string) {
    estado != "RESUELTO" && estado != "RECHAZADO"
  }

  /** The "En Proceso" button is disabled on an EN_PROCESO ticket. */
  predicate InProgressDisabled(estado: string) {
    estado == "EN_PROCESO"
  }

  /** The status each button sends: "En Proceso", "Resolver", "Rechazar". */
  const ActionStatuses: seq<string> := ["EN_PROCESO", "RESUELTO", "RECHAZADO"]

  /** Statuses the API stores never match the page's codes: each is shown
      verbatim (so En_Proceso keeps its underscore), every ticket gets the
      action buttons, resolved and rejected ones included, and the
      "En Proceso" button is never disabled. */
  lemma StoredStatusesMissTheCodes(s: Status)
    ensures EstadoDisplayName(StatusName(s)) == StatusName(s)
    ensures ShowsActions(StatusName(s))
    ensures !InProgressDisabled(StatusName(s))
  {
  }

  /** Every button is refused: whatever the session, table, ticket and
      assignee, the API answers 400 and changes nothing. */
  lemma ActionsRejectedByServer(session: Session, store: TicketsRoute.Store, id: int,
                                idEmpleado: Presence<Option<int>>, now: int, k: nat)
    requires k < |ActionStatuses|
    ensures TicketsRoute.Update(Some(session), store, id, idEmpleado, Some(ActionStatuses[k]), now)
         == TicketsRoute.Handled(TicketsRoute.BadRequest(TicketsRoute.InvalidStatus), store)
  {
    assert ActionStatuses[k] !in StatusNames;
  }

  // ---------------------------------------------------------------------
  // as evidently intended
  // ---------------------------------------------------------------------

  /** The buttons' statuses spelled as the API stores and accepts them. */
  const IntendedActionStatuses: seq<Status> := [EnProceso, Resuelto, Rechazado]

  /** Visibility keyed on the stored status: no actions on a closed ticket. */
  predicate IntendedShowsActions(s: Status) {
    !IsClosing(s)
  }

  /** With the stored spellings, and with `idEmpleado` sent as
      `Number(session.user.id)` rather than the string claim (which the
      integer column would refuse, giving 500), every button does what its
      label says: the API accepts it and the ticket takes the chosen
      status. After the page reloads, "En Proceso" leaves the buttons shown
      with that button disabled, while "Resolver" and "Rechazar" hide them
      and record the closure date. */
  /** The "En Proceso" button keyed on the stored status. */
  predicate IntendedInProgressDisabled(s: Status) {
    s == EnProceso
  }

  lemma IntendedActionsAccepted(session: Session, store: TicketsRoute.Store, j: nat, k: nat, now: int)
    requires TicketsRoute.Valid(store) && j < |store.tickets| && k < |IntendedActionStatuses|
    ensures var target := IntendedActionStatuses[k];
      var h := TicketsRoute.Update(Some(session), store, store.tickets[j].id,
                                   Present(Text.NumberOf(session.id)), Some(StatusName(target)), now);
      h.response.status == 200 && h.store.tickets[j].estado == target
    ensures var target := IntendedActionStatuses[k];
      var t' := TicketsRoute.Update(Some(session), store, store.tickets[j].id,
                                    Present(Text.NumberOf(session.id)), Some(StatusName(target)), now).store.tickets[j];
      && (IntendedShowsActions(t'.estado) <==> k == 0)
      && (IntendedInProgressDisabled(t'.estado) <==> k == 0)
      && (k > 0 ==> t'.fechaCierre == Some(now))
  {
    var target := IntendedActionStatuses[k];
    NamesRoundTrip(Usuario, Baja, target);
    TicketsRoute.UpdateEffect(session, store, j, Present(Text.NumberOf(session.id)), Some(StatusName(target)), now);
  }
}
