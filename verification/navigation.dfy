/** The navigation bar: nothing without a session, otherwise the home
    link and the links of the session's role. */
module Navigation {
  import opened Wrappers
  import opened Domain
  import Middleware
  import HomePage

  /** The links each role's block renders, in order. */
  function RoleLinks(r: Role): seq<string> {
    match r
    case Administrador => ["/admin/tickets", "/admin/usuarios"]
    case Usuario => ["/usuario/tickets", "/usuario/tickets/nuevo"]
    case Empleado => ["/empleado/tickets"]
  }

  /** The bar's links: the brand link to the root, then the blocks guarded
      by `role === ...` in the order written. */
  function Links(session: Option<Session>): (links: seq<string>)
    ensures session.None? ==> links == []
    ensures session.Some? ==> |links| >= 1 && links[0] == "/"
  {
    if session.None? then []
    else
      var role := session.value.role;
      ["/"]
      + (if role == "Administrador" then ["/admin/tickets", "/admin/usuarios"] else [])
      + (if role == "Usuario" then ["/usuario/tickets", "/usuario/tickets/nuevo"] else [])
      + (if role == "Empleado" then ["/empleado/tickets"] else [])
  }

  /** A known role sees the home link and exactly its own block; any other
      role claim sees the home link only. */
  lemma LinksByRole(session: Session)
    ensures ParseRole(session.role).Some? ==> Links(Some(session)) == ["/"] + RoleLinks(ParseRole(session.role).value)
    ensures ParseRole(session.role).None? ==> Links(Some(session)) == ["/"]
  {
  }

  /** Every role link lives under that role's prefix, so the guard
      intercepts it, passes the role itself and turns any other role back
      to the root. */
  lemma RoleLinksGuardedForRole(r: Role, token: Session)
    ensures forall l :: l in RoleLinks(r) ==> Middleware.Matched(l) && Middleware.RolePrefix(r) <= l
    ensures forall l :: l in RoleLinks(r) ==>
      (Middleware.Decide(Some(token), l) == Middleware.Pass <==> token.role == RoleName(r))
  {
    forall l | l in RoleLinks(r)
      ensures Middleware.Matched(l) && Middleware.RolePrefix(r) <= l
      ensures Middleware.Decide(Some(token), l) == Middleware.Pass <==> token.role == RoleName(r)
    {
      RoleLinkUnderPrefix(r, l);
      Middleware.GuardRedirectsIffRoleDiffers(token, l, r);
    }
  }

  lemma RoleLinkUnderPrefix(r: Role, l: string)
    requires l in RoleLinks(r)
    ensures Middleware.Matched(l) && Middleware.RolePrefix(r) <= l
  {
    match r
    case Administrador =>
      assert l == "/admin/tickets" || l == "/admin/usuarios";
      assert Middleware.MatchesPattern(l, "/admin");
    case Usuario =>
      assert l == "/usuario/tickets" || l == "/usuario/tickets/nuevo";
      assert Middleware.MatchesPattern(l, "/usuario");
    case Empleado =>
      assert l == "/empleado/tickets";
      assert Middleware.MatchesPattern(l, "/empleado");
  }

  /** Every link the bar shows a session passes the guard for that
      session's own token. */
  lemma ShownLinksPassGuard(session: Session)
    ensures forall l :: l in Links(Some(session)) ==> Middleware.Decide(Some(session), l) == Middleware.Pass
  {
    LinksByRole(session);
    match ParseRole(session.role)
    case None =>
    case Some(r) =>
      RoleLinksGuardedForRole(r, session);
  }

  /** No link belongs to two roles. */
  lemma RoleLinksDisjoint(r1: Role, r2: Role)
    requires r1 != r2
    ensures forall l :: l in RoleLinks(r1) ==> l !in RoleLinks(r2)
  {
    forall l | l in RoleLinks(r1) && l in RoleLinks(r2) ensures false {
      RoleLinksGuardedForRole(r1, Session("", RoleName(r1)));
      RoleLinksGuardedForRole(r2, Session("", RoleName(r2)));
      Middleware.PrefixesDisjoint(l, r1, r2);
    }
  }

  /** The page the root redirects a role to is among the links the bar
      shows that role. */
  lemma HomeIsShown(r: Role)
    ensures HomePage.RoleHome(r) in RoleLinks(r)
  {
    assert HomePage.RoleHome(r) == RoleLinks(r)[0];
  }
}
