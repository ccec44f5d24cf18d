/** `JwtAuthenticationFilter`: once per request, reads the bearer token from
    the `Authorization` header, validates it, loads the user it names and puts
    that user's authentication into the security context; then passes the
    request on down the filter chain. */
module JwtAuthenticationFilter {
  import opened Wrappers
  import opened JavaLang
  import opened Exceptions
  import Jws
  import JwtTokenProvider

  const BearerPrefix: string := "Bearer "

  /** The header starts with the case-sensitive prefix "Bearer ". */
  predicate IsBearer(header: Option<string>) {
    header.Some? && StartsWith(header.value, BearerPrefix)
  }

  /** `getTokenFromRequest`: the `Authorization` header with "Bearer " taken
      off the front, or the header as it is (possibly null) when it has no
      text or does not start with "Bearer ". */
  function GetTokenFromRequest(authorization: Option<string>): (token: Option<string>)
    ensures IsBearer(authorization) <==> token.Some? && authorization == Some(BearerPrefix + token.value)
    ensures !IsBearer(authorization) ==> token == authorization
  {
    if HasTextOrNull(authorization) && StartsWith(authorization.value, BearerPrefix) then
      var header := authorization.value;
      assert header == BearerPrefix + header[|BearerPrefix|..];
      Some(header[|BearerPrefix|..])
    else
      BearerHasText(authorization);
      authorization
  }

  /** A header starting with "Bearer " has text, so `hasText` never decides
      for such a header. */
  lemma BearerHasText(header: Option<string>)
    ensures IsBearer(header) ==> HasTextOrNull(header)
  {
    if IsBearer(header) {
      assert header.value[0] == 'B';
      TextInFront(header.value);
    }
  }

  /** For every token text t, the header "Bearer " + t yields exactly t, and
      its length is the header's length less seven. */
  lemma BearerTokenExtracted(t: string)
    ensures GetTokenFromRequest(Some(BearerPrefix + t)) == Some(t)
    ensures |GetTokenFromRequest(Some(BearerPrefix + t)).value| == |BearerPrefix + t| - 7
  {
    assert (BearerPrefix + t)[..|BearerPrefix|] == BearerPrefix;
  }

  /** Headers the filter passes through unchanged. */
  lemma NonBearerHeadersUnchanged()
    ensures GetTokenFromRequest(None) == None
    ensures GetTokenFromRequest(Some("Basic xyz")) == Some("Basic xyz")
    ensures GetTokenFromRequest(Some("bearer x")) == Some("bearer x")
    ensures GetTokenFromRequest(Some("Bearer")) == Some("Bearer")
    ensures GetTokenFromRequest(Some("   ")) == Some("   ")
  {
    assert !StartsWith("Basic xyz", BearerPrefix) by { assert "Basic xyz"[1] != BearerPrefix[1]; }
    assert !StartsWith("bearer x", BearerPrefix) by { assert "bearer x"[0] != BearerPrefix[0]; }
  }

  /** A user as the user loader returns it: name, password hash and granted
      authorities (such as "ROLE_ADMIN"). */
  datatype UserDetails = UserDetails(username: string, password: string, authorities: set<string>)

  /** The loader of users by name (`UserDetailsService`), as a directory. */
  datatype UserDetailsService = UserDetailsService(users: map<string, UserDetails>) {
    function LoadUserByUsername(username: string): (r: Result<UserDetails, Exception>)
      ensures r.Success? <==> username in users
      ensures r.Success? ==> r.value == users[username]
      ensures r.Failure? ==> r.error == UsernameNotFound(username)
    {
      if username in users then Success(users[username]) else Failure(UsernameNotFound(username))
    }
  }

  /** The parts of the HTTP request the filter reads. */
  datatype HttpServletRequest = HttpServletRequest(authorization: Option<string>, remoteAddress: string, sessionId: Option<string>)

  /** `WebAuthenticationDetails`: the client address and session of the request. */
  datatype WebAuthenticationDetails = WebAuthenticationDetails(remoteAddress: string, sessionId: Option<string>)

  /** `UsernamePasswordAuthenticationToken(principal, credentials, authorities)`
      with its details; the three-argument constructor marks it authenticated. */
  datatype Authentication = Authentication(
    principal: UserDetails,
    credentials: Option<string>,
    authorities: set<string>,
    details: WebAuthenticationDetails)

  /** The authentication the filter builds for a loaded user. */
  function Authenticated(user: UserDetails, request: HttpServletRequest): (a: Authentication)
    ensures a.principal == user && a.credentials == None && a.authorities == user.authorities
  {
    Authentication(user, None, user.authorities, WebAuthenticationDetails(request.remoteAddress, request.sessionId))
  }

  /** What one run of the filter does: the authentication it stores in the
      context (None: the context is left alone) and the exception it throws
      (None: it returns normally, after passing the request on). */
  datatype FilterOutcome = FilterOutcome(stored: Option<Authentication>, thrown: Option<Exception>)

  /** The decision `doFilterInternal` takes for a request at time `nowMillis`. */
  function Decide(
    provider: JwtTokenProvider.JwtTokenProvider,
    loader: UserDetailsService,
    request: HttpServletRequest,
    nowMillis: int): (out: FilterOutcome)
    ensures out.stored.Some? ==> out.thrown.None?
  {
    var token := GetTokenFromRequest(request.authorization);
    if !HasTextOrNull(token) then FilterOutcome(None, None)
    else
      match provider.ValidateToken(token.value, nowMillis)
      case Failure(e) => FilterOutcome(None, Some(e))
      case Success(valid) =>
        if !valid then FilterOutcome(None, None)
        else
          match provider.GetUsernameFromToken(token.value, nowMillis)
          case Failure(e) => FilterOutcome(None, Some(e))
          case Success(username) =>
            match loader.LoadUserByUsername(username)
            case Failure(e) => FilterOutcome(None, Some(e))
            case Success(user) => FilterOutcome(Some(Authenticated(user, request)), None)
  }

  /** The request-scoped security context (`SecurityContextHolder.getContext()`). */
  class SecurityContext {
    var authentication: Option<Authentication>

    constructor()
      ensures authentication == None
    {
      authentication := None;
    }
  }

  /** The rest of the filter chain; it records the requests passed to it. */
  class FilterChain {
    var forwarded: seq<HttpServletRequest>

    constructor()
      ensures forwarded == []
    {
      forwarded := [];
    }

    method DoFilter(request: HttpServletRequest)
      modifies this
      ensures forwarded == old(forwarded) + [request]
    {
      forwarded := forwarded + [request];
    }
  }

  class JwtAuthenticationFilter {
    const jwtTokenProvider: JwtTokenProvider.JwtTokenProvider
    const userDetailsService: UserDetailsService

    constructor(provider: JwtTokenProvider.JwtTokenProvider, loader: UserDetailsService)
      ensures jwtTokenProvider == provider && userDetailsService == loader
    {
      jwtTokenProvider := provider;
      userDetailsService := loader;
    }

    /** `doFilterInternal(request, response, filterChain)` with the clock
        reading `nowMillis`; `thrown` is the exception it lets escape. */
    method DoFilterInternal(request: HttpServletRequest, context: SecurityContext, chain: FilterChain, nowMillis: int)
      returns (thrown: Option<Exception>)
      modifies context, chain
      ensures var out := Decide(jwtTokenProvider, userDetailsService, request, nowMillis);
        && thrown == out.thrown
        && context.authentication == (if out.stored.Some? then out.stored else old(context.authentication))
        && chain.forwarded == (if thrown.None? then old(chain.forwarded) + [request] else old(chain.forwarded))
    {
      var token := GetTokenFromRequest(request.authorization);
      if HasTextOrNull(token) {
        var valid := jwtTokenProvider.ValidateToken(token.value, nowMillis);
        if valid.Failure? {
          return Some(valid.error);
        }
        if valid.value {
          var username := jwtTokenProvider.GetUsernameFromToken(token.value, nowMillis);
          // Both parses see the same clock reading, so the second cannot fail.
          assert username.Success?;
          var userDetails := userDetailsService.LoadUserByUsername(username.value);
          if userDetails.Failure? {
            return Some(userDetails.error);
          }
          var authenticationToken := Authenticated(userDetails.value, request);
          context.authentication := Some(authenticationToken);
        }
      }
      chain.DoFilter(request);
      thrown := None;
    }
  }

  /** A request without a token with text (no header, a blank header, or
      exactly "Bearer ") is passed on and the context is left alone. */
  lemma NoTextNoValidation(
    provider: JwtTokenProvider.JwtTokenProvider, loader: UserDetailsService,
    request: HttpServletRequest, nowMillis: int)
    requires !HasTextOrNull(GetTokenFromRequest(request.authorization))
    ensures Decide(provider, loader, request, nowMillis) == FilterOutcome(None, None)
  {
  }

  /** The context is set exactly when the token has text, validates, and
      names a known user; it then holds that user, with the user's
      authorities and no credentials. */
  lemma {:induction false} StoredIff(
    provider: JwtTokenProvider.JwtTokenProvider, loader: UserDetailsService,
    request: HttpServletRequest, nowMillis: int)
    ensures var token := GetTokenFromRequest(request.authorization);
      var out := Decide(provider, loader, request, nowMillis);
      out.stored.Some? <==>
        && HasTextOrNull(token)
        && provider.ValidateToken(token.value, nowMillis) == Success(true)
        && provider.GetUsernameFromToken(token.value, nowMillis).Success?
        && provider.GetUsernameFromToken(token.value, nowMillis).value in loader.users
    ensures var token := GetTokenFromRequest(request.authorization);
      var out := Decide(provider, loader, request, nowMillis);
      out.stored.Some? ==>
        var user := loader.users[provider.GetUsernameFromToken(token.value, nowMillis).value];
        && out.stored.value.principal == user
        && out.stored.value.authorities == user.authorities
        && out.stored.value.credentials == None
  {
  }

  /** When `validateToken` throws, its exception escapes the filter: the chain
      is not invoked and the context is not set. */
  lemma ValidationFailureEscapes(
    provider: JwtTokenProvider.JwtTokenProvider, loader: UserDetailsService,
    request: HttpServletRequest, nowMillis: int)
    requires HasTextOrNull(GetTokenFromRequest(request.authorization))
    requires provider.ValidateToken(GetTokenFromRequest(request.authorization).value, nowMillis).Failure?
    ensures Decide(provider, loader, request, nowMillis) ==
      FilterOutcome(None, Some(provider.ValidateToken(GetTokenFromRequest(request.authorization).value, nowMillis).error))
  {
  }

  /** "Authorization: Basic xyz" is handed to `validateToken` as it is, which
      throws "Invalid JWT token": the request does not go on with an empty
      context. */
  lemma {:induction false} BasicHeaderThrows(
    provider: JwtTokenProvider.JwtTokenProvider, loader: UserDetailsService,
    request: HttpServletRequest, nowMillis: int)
    requires request.authorization == Some("Basic xyz")
    ensures Decide(provider, loader, request, nowMillis) ==
      FilterOutcome(None, Some(BlogApi(BAD_REQUEST, JwtTokenProvider.InvalidMessage)))
  {
    NonBearerHeadersUnchanged();
    TextInFront("Basic xyz");
    JwtTokenProvider.PlainTextRefused(provider, "Basic xyz", nowMillis);
  }

  /** A bearer token issued by the same provider for a known user, presented
      before it expires, authenticates that user. */
  lemma {:induction false} IssuedTokenAuthenticates(
    provider: JwtTokenProvider.JwtTokenProvider, loader: UserDetailsService,
    request: HttpServletRequest, username: string, issuedMillis: JavaLang.Long, nowMillis: int)
    requires request.authorization == Some(BearerPrefix + provider.GenerateToken(username, issuedMillis))
    requires nowMillis <= provider.TokenClaims(username, issuedMillis).exp * 1000
    requires username in loader.users
    ensures Decide(provider, loader, request, nowMillis) ==
      FilterOutcome(Some(Authenticated(loader.users[username], request)), None)
  {
    var token := provider.GenerateToken(username, issuedMillis);
    BearerTokenExtracted(token);
    JwtTokenProvider.UsernameRoundTrip(provider, username, issuedMillis, nowMillis);
  }

  /** A bearer token signed under another secret makes the filter throw the
      jjwt signature exception, unmapped. */
  lemma {:induction false} ForeignTokenThrows(
    provider: JwtTokenProvider.JwtTokenProvider, issuer: JwtTokenProvider.JwtTokenProvider,
    loader: UserDetailsService, request: HttpServletRequest,
    username: string, issuedMillis: JavaLang.Long, nowMillis: int)
    requires issuer.jwtSecret != provider.jwtSecret
    requires request.authorization == Some(BearerPrefix + issuer.GenerateToken(username, issuedMillis))
    ensures Decide(provider, loader, request, nowMillis) == FilterOutcome(None, Some(Jwt(Jws.SignatureMismatch)))
  {
    var token := issuer.GenerateToken(username, issuedMillis);
    BearerTokenExtracted(token);
    JwtTokenProvider.OtherSecretRefused(issuer, provider, username, issuedMillis, nowMillis);
  }
}
