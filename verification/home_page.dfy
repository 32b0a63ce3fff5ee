/** The root page's redirect: each role is sent to its ticket list, and a
    visitor without a session or with an unknown role to the login page. */
module HomePage {
  import opened Wrappers
  import opened Domain
  import Middleware

  const LoginPath := "/login"

  /** The landing page of each role. */
  function RoleHome(r: Role): string {
    Middleware.RolePrefix(r) + "/tickets"
  }

  /** Where `Home` pushes the browser, the role checked in the order written. */
  function HomeTarget(session: Option<Session>): (path: string)
    ensures path == LoginPath || exists r :: path == RoleHome(r)
  {
    var role := if session.Some? then Some(session.value.role) else None;
    if role == Some("Administrador") then assert "/admin/tickets" == RoleHome(Administrador); "/admin/tickets"
    else if role == Some("Empleado") then assert "/empleado/tickets" == RoleHome(Empleado); "/empleado/tickets"
    else if role == Some("Usuario") then assert "/usuario/tickets" == RoleHome(Usuario); "/usuario/tickets"
    else LoginPath
  }

  /** The redirect is a total function of the role claim with one branch
      per outcome: a known role goes to its own landing page, anything else
      (no session included) to the login page. */
  lemma HomeTargetByRole(session: Option<Session>)
    ensures session.Some? && ParseRole(session.value.role).Some? ==>
      HomeTarget(session) == RoleHome(ParseRole(session.value.role).value)
    ensures session.None? || ParseRole(session.value.role).None? ==> HomeTarget(session) == LoginPath
    ensures forall r :: HomeTarget(session) == RoleHome(r) <==> session.Some? && session.value.role == RoleName(r)
  {
    var t := HomeTarget(session);
    forall r ensures t == RoleHome(r) ==> session.Some? && session.value.role == RoleName(r) {
      assert RoleHome(r)[1] != LoginPath[1] || |RoleHome(r)| != |LoginPath|;
      assert forall q :: q != r ==> RoleHome(q)[1] != RoleHome(r)[1];
    }
  }

  /** No redirect loop: whatever the session, the guard lets its owner
      through to the page the root sends it to (the login page is not
      guarded at all). */
  lemma NoRedirectLoop(session: Option<Session>)
    ensures Middleware.Decide(session, HomeTarget(session)) == Middleware.Pass
  {
    var t := HomeTarget(session);
    if t == LoginPath {
      assert !("/admin/" <= t) && !("/empleado/" <= t) && !("/usuario/" <= t);
    } else {
      assert forall r :: Middleware.RolePrefix(r) <= t ==> session.value.role == RoleName(r) by {
        forall r | Middleware.RolePrefix(r) <= t ensures session.value.role == RoleName(r) {
          var owner :| t == RoleHome(owner);
          assert Middleware.RolePrefix(owner) <= t;
          Middleware.PrefixesDisjoint(t, r, owner);
          HomeTargetByRole(session);
        }
      }
      Middleware.GuardPassesOwner(session.value, t);
    }
  }
}
