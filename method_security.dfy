/** Method security: the `@PreAuthorize("hasRole('ADMIN')")` guards on the
    controllers, checked against the authentication the JWT filter left in
    the security context. */
module MethodSecurity {
  import opened Wrappers
  import opened Exceptions
  import JavaLang
  import JwtTokenProvider
  import Filter = JwtAuthenticationFilter

  /** The two roles the application seeds at start-up. */
  datatype Role = ADMIN | USER {
    /** The authority name stored for the role; `hasRole('ADMIN')` looks for
        "ROLE_ADMIN". */
    function Authority(): (a: string)
      ensures |a| > 5 && a[..5] == "ROLE_"
    {
      match this
      case ADMIN => "ROLE_ADMIN"
      case USER => "ROLE_USER"
    }
  }

  /** Holding one role's authority says nothing about the other's. */
  lemma AuthoritiesDistinct(r1: Role, r2: Role)
    ensures r1.Authority() == r2.Authority() <==> r1 == r2
  {
    if r1 != r2 {
      assert r1.Authority()[5] != r2.Authority()[5];
    }
  }

  /** The outcome of the guard in front of a handler. */
  datatype Decision = Allowed | Unauthenticated | Forbidden {
    /** The status a rejected request is answered with: the entry point
        sends 401, the access-denied handler 403. */
    function Status(): (s: Option<HttpStatus>)
      ensures s.None? <==> this == Allowed
      ensures s.Some? ==> s.value.Code() in {401, 403}
      ensures this == Unauthenticated <==> s == Some(UNAUTHORIZED)
      ensures this == Forbidden <==> s == Some(FORBIDDEN)
    {
      match this
      case Allowed => None
      case Unauthenticated => Some(UNAUTHORIZED)
      case Forbidden => Some(FORBIDDEN)
    }
  }

  /** The guard for a handler that requires `required` (None: no
      `@PreAuthorize`), given the authentication in the context. */
  function Authorize(authentication: Option<Filter.Authentication>, required: Option<Role>): (d: Decision)
    ensures d == Allowed <==>
      required.None? || (authentication.Some? && required.value.Authority() in authentication.value.authorities)
    ensures d == Unauthenticated <==> required.Some? && authentication.None?
    ensures d == Forbidden <==>
      required.Some? && authentication.Some? && required.value.Authority() !in authentication.value.authorities
  {
    match required
    case None => Allowed
    case Some(role) =>
      match authentication
      case None => Unauthenticated
      case Some(a) => if role.Authority() in a.authorities then Allowed else Forbidden
  }

  /** A request without a bearer token with text reaches a guarded handler
      with an empty context, so it is answered 401 and the handler never
      runs. */
  lemma {:induction false} NoTokenUnauthenticated(
    provider: JwtTokenProvider.JwtTokenProvider, loader: Filter.UserDetailsService,
    request: Filter.HttpServletRequest, nowMillis: int, role: Role)
    requires request.authorization.None?
    ensures var out := Filter.Decide(provider, loader, request, nowMillis);
      out.thrown.None? && Authorize(out.stored, Some(role)) == Unauthenticated
  {
    Filter.NoTextNoValidation(provider, loader, request, nowMillis);
  }

  /** A live token issued to a user holding "ROLE_ADMIN" passes an ADMIN
      guard. */
  lemma {:induction false} AdminTokenAllowed(
    provider: JwtTokenProvider.JwtTokenProvider, loader: Filter.UserDetailsService,
    request: Filter.HttpServletRequest, username: string, issuedMillis: JavaLang.Long, nowMillis: int)
    requires request.authorization == Some(Filter.BearerPrefix + provider.GenerateToken(username, issuedMillis))
    requires nowMillis <= provider.TokenClaims(username, issuedMillis).exp * 1000
    requires username in loader.users
    requires ADMIN.Authority() in loader.users[username].authorities
    ensures var out := Filter.Decide(provider, loader, request, nowMillis);
      out.thrown.None? && Authorize(out.stored, Some(ADMIN)) == Allowed
  {
    Filter.IssuedTokenAuthenticates(provider, loader, request, username, issuedMillis, nowMillis);
  }

  /** The same token for a user with only "ROLE_USER" is refused with 403. */
  lemma {:induction false} UserTokenForbidden(
    provider: JwtTokenProvider.JwtTokenProvider, loader: Filter.UserDetailsService,
    request: Filter.HttpServletRequest, username: string, issuedMillis: JavaLang.Long, nowMillis: int)
    requires request.authorization == Some(Filter.BearerPrefix + provider.GenerateToken(username, issuedMillis))
    requires nowMillis <= provider.TokenClaims(username, issuedMillis).exp * 1000
    requires username in loader.users
    requires loader.users[username].authorities == {USER.Authority()}
    ensures var out := Filter.Decide(provider, loader, request, nowMillis);
      out.thrown.None? && Authorize(out.stored, Some(ADMIN)) == Forbidden
  {
    Filter.IssuedTokenAuthenticates(provider, loader, request, username, issuedMillis, nowMillis);
    AuthoritiesDistinct(ADMIN, USER);
  }
}
