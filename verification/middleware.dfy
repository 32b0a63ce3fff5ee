/** The route guard: which paths it intercepts (the matcher), the
    `authorized` callback that turns away requests without a token, and the
    role-prefix checks that send a mismatched role back to the root. */
module Middleware {
  import opened Wrappers
  import opened Domain

  /** What the guard does with a request. */
  datatype Decision = Pass | RedirectRoot | RedirectSignIn

  /** The path prefix each role's pages live under. */
  function RolePrefix(r: Role): string {
    match r
    case Administrador => "/admin"
    case Empleado => "/empleado"
    case Usuario => "/usuario"
  }

  /** One matcher pattern `<base>/:path*`: the base itself or anything below it. */
  predicate MatchesPattern(path: string, base: string) {
    path == base || base + "/" <= path
  }

  /** The matcher `['/admin/:path*', '/empleado/:path*', '/usuario/:path*']`. */
  predicate Matched(path: string) {
    MatchesPattern(path, "/admin") || MatchesPattern(path, "/empleado") || MatchesPattern(path, "/usuario")
  }

  /** The `authorized` callback: a request is let in when it has a token. */
  predicate Authorized(token: Option<Session>) {
    token.Some?
  }

  /** The middleware function on `token?.role` and the path: the three
      prefix checks in the order written, then pass. */
  function Guard(token: Option<Session>, path: string): Decision {
    var role := if token.Some? then Some(token.value.role) else None;
    if "/admin" <= path && role != Some("Administrador") then RedirectRoot
    else if "/empleado" <= path && role != Some("Empleado") then RedirectRoot
    else if "/usuario" <= path && role != Some("Usuario") then RedirectRoot
    else Pass
  }

  /** The whole guard as a request meets it: paths outside the matcher are
      not intercepted, a request without a token goes to sign-in, and the
      rest are judged by the middleware function. */
  function Decide(token: Option<Session>, path: string): (d: Decision)
    ensures !Matched(path) ==> d == Pass
    ensures Matched(path) && !Authorized(token) ==> d == RedirectSignIn
    ensures d == RedirectSignIn ==> token.None?
  {
    if !Matched(path) then Pass
    else if !Authorized(token) then RedirectSignIn
    else Guard(token, path)
  }

  /** At most one prefix check can fire: no path starts with two of the prefixes. */
  lemma PrefixesDisjoint(path: string, r1: Role, r2: Role)
    requires RolePrefix(r1) <= path && RolePrefix(r2) <= path
    ensures r1 == r2
  {
    var p1, p2 := RolePrefix(r1), RolePrefix(r2);
    assert p1[1] == path[1] == p2[1];
  }

  /** On a path under a role's prefix the guard redirects to the root
      exactly when the token's role is not that role. */
  lemma GuardRedirectsIffRoleDiffers(token: Session, path: string, r: Role)
    requires RolePrefix(r) <= path
    ensures Guard(Some(token), path) == RedirectRoot <==> token.role != RoleName(r)
    ensures Guard(Some(token), path) != RedirectSignIn
  {
    forall q | RolePrefix(q) <= path ensures q == r {
      PrefixesDisjoint(path, q, r);
    }
    assert ("/admin" <= path) == (r == Administrador) by {
      assert RolePrefix(Administrador) == "/admin";
    }
    assert ("/empleado" <= path) == (r == Empleado) by {
      assert RolePrefix(Empleado) == "/empleado";
    }
    assert ("/usuario" <= path) == (r == Usuario) by {
      assert RolePrefix(Usuario) == "/usuario";
    }
  }

  /** A token whose role owns the path's prefix goes through unchanged,
      and so does any token on a path under none of the prefixes. */
  lemma GuardPassesOwner(token: Session, path: string)
    requires forall r :: RolePrefix(r) <= path ==> token.role == RoleName(r)
    ensures Guard(Some(token), path) == Pass
  {
    assert RolePrefix(Administrador) <= path ==> token.role == RoleName(Administrador);
    assert RolePrefix(Empleado) <= path ==> token.role == RoleName(Empleado);
    assert RolePrefix(Usuario) <= path ==> token.role == RoleName(Usuario);
  }

  /** Every path the matcher intercepts lies under exactly one role prefix. */
  lemma MatchedHasOwner(path: string)
    requires Matched(path)
    ensures exists r :: RolePrefix(r) <= path
  {
    if MatchesPattern(path, "/admin") {
      assert RolePrefix(Administrador) <= path;
    } else if MatchesPattern(path, "/empleado") {
      assert RolePrefix(Empleado) <= path;
    } else {
      assert RolePrefix(Usuario) <= path;
    }
  }
}
