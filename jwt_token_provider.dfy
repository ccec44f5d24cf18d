/** `JwtTokenProvider`: issues a signed token for a user, validates tokens and
    reads the user name back. Its two settings are read-only. */
module JwtTokenProvider {
  import opened Wrappers
  import opened JavaLang
  import opened Jws
  import opened Exceptions

  /** The messages `validateToken` throws, with status 400, per jjwt exception. */
  const InvalidMessage := "Invalid JWT token"
  const ExpiredMessage := "Expired JWT token"
  const UnsupportedMessage := "Unsupported JWT token"
  const EmptyClaimsMessage := "JWT claims string is null empty"

  /** `iat`/`exp` are NumericDate values: jjwt stores `date.getTime() / 1000`. */
  function NumericDate(millis: Long): int {
    JavaDiv(millis, 1000)
  }

  /** The provider with its configuration: `app.jwtSecret` and
      `app-jwtExpirationMs` (milliseconds). */
  datatype JwtTokenProvider = JwtTokenProvider(jwtSecret: string, jwtExpirationDate: Long) {

    /** `key()`: both signing and verifying use this key, from the one secret. */
    function Key(): HmacKey {
      HmacKey(jwtSecret)
    }

    /** The expiration date `generateToken` computes: `currentDate.getTime() +
        jwtExpirationDate` in `long` arithmetic. */
    function ExpirationDate(nowMillis: Long): (exp: Long)
      ensures MinLong <= nowMillis + jwtExpirationDate <= MaxLong ==> exp - nowMillis == jwtExpirationDate
    {
      AddLong(nowMillis, jwtExpirationDate)
    }

    /** The claims `generateToken` signs at time `nowMillis`. */
    function TokenClaims(username: string, nowMillis: Long): Claims {
      Claims(username, NumericDate(nowMillis), NumericDate(ExpirationDate(nowMillis)))
    }

    /** `generateToken(authentication)` for `authentication.getName() == username`,
        with the clock reading `nowMillis`. */
    function GenerateToken(username: string, nowMillis: Long): (token: string)
      ensures HasText(token)
      ensures var c := TokenClaims(username, nowMillis);
        Parse(token, Key(), c.exp * 1000) == Success(c)
    {
      var c := TokenClaims(username, nowMillis);
      ParseCompact(c, Key(), c.exp * 1000);
      Compact(c, Key())
    }

    /** `validateToken(token)` at time `nowMillis`: true, or the exception it throws. */
    function ValidateToken(token: string, nowMillis: int): (r: Result<bool, Exception>)
      ensures r.Success? ==> r.value
      ensures r.Success? <==> Parse(token, Key(), nowMillis).Success?
      ensures r.Failure? ==> (r.error.BlogApi? && r.error.status == BAD_REQUEST) || r.error == Jwt(SignatureMismatch)
      ensures var p := Parse(token, Key(), nowMillis);
        && (p == Failure(IllegalArgument) ==> r == Failure(BlogApi(BAD_REQUEST, EmptyClaimsMessage)))
        && (p == Failure(Malformed) ==> r == Failure(BlogApi(BAD_REQUEST, InvalidMessage)))
        && (p == Failure(Unsupported) ==> r == Failure(BlogApi(BAD_REQUEST, UnsupportedMessage)))
        && (p == Failure(SignatureMismatch) ==> r == Failure(Jwt(SignatureMismatch)))
        && (p == Failure(Expired) ==> r == Failure(BlogApi(BAD_REQUEST, ExpiredMessage)))
    {
      match Parse(token, Key(), nowMillis)
      case Success(_) => Success(true)
      case Failure(Malformed) => Failure(BlogApi(BAD_REQUEST, InvalidMessage))
      case Failure(Expired) => Failure(BlogApi(BAD_REQUEST, ExpiredMessage))
      case Failure(Unsupported) => Failure(BlogApi(BAD_REQUEST, UnsupportedMessage))
      case Failure(IllegalArgument) => Failure(BlogApi(BAD_REQUEST, EmptyClaimsMessage))
      case Failure(f) => Failure(Jwt(f))
    }

    /** `getUsernameFromToken(token)` at time `nowMillis`: the subject, or the
        jjwt exception, which nothing catches. */
    function GetUsernameFromToken(token: string, nowMillis: int): (r: Result<string, Exception>)
      ensures r.Success? <==> ValidateToken(token, nowMillis).Success?
      ensures var p := Parse(token, Key(), nowMillis);
        && (r.Success? <==> p.Success?)
        && (r.Success? ==> r.value == p.value.sub && r.value == Split(token).value[2])
        && (r.Failure? ==> r.error == Jwt(p.error))
    {
      match Parse(token, Key(), nowMillis)
      case Success(claims) => Success(claims.sub)
      case Failure(f) => Failure(Jwt(f))
    }
  }

  /** A NumericDate is the millisecond time truncated to whole seconds. */
  lemma NumericDateBounds(millis: Long)
    requires millis >= 0
    ensures NumericDate(millis) * 1000 <= millis < NumericDate(millis) * 1000 + 1000
  {
  }

  /** The issued token carries the user name as subject, the issue time as
      `iat` and the issue time plus the lifetime as `exp`. */
  lemma {:induction false} GeneratedTokenClaims(p: JwtTokenProvider, username: string, nowMillis: Long, atMillis: int)
    requires MinLong <= nowMillis + p.jwtExpirationDate <= MaxLong
    ensures var c := p.TokenClaims(username, nowMillis);
      && c.sub == username
      && c.iat == NumericDate(nowMillis)
      && c.exp == NumericDate(nowMillis + p.jwtExpirationDate)
      && Parse(p.GenerateToken(username, nowMillis), p.Key(), atMillis) ==
           if atMillis > c.exp * 1000 then Failure(Expired) else Success(c)
  {
    ParseCompact(p.TokenClaims(username, nowMillis), p.Key(), atMillis);
  }

  /** Round trip: until its expiration instant, the token issued for a user
      reads back as that user's name. */
  lemma {:induction false} UsernameRoundTrip(p: JwtTokenProvider, username: string, nowMillis: Long, atMillis: int)
    requires atMillis <= p.TokenClaims(username, nowMillis).exp * 1000
    ensures p.ValidateToken(p.GenerateToken(username, nowMillis), atMillis) == Success(true)
    ensures p.GetUsernameFromToken(p.GenerateToken(username, nowMillis), atMillis) == Success(username)
  {
    ParseCompact(p.TokenClaims(username, nowMillis), p.Key(), atMillis);
  }

  /** With a lifetime of at least one second and no overflow, a token reads
      back at the instant it was issued. */
  lemma {:induction false} UsernameRoundTripAtIssue(p: JwtTokenProvider, username: string, nowMillis: Long)
    requires 0 <= nowMillis && 1000 <= p.jwtExpirationDate && nowMillis + p.jwtExpirationDate <= MaxLong
    ensures p.GetUsernameFromToken(p.GenerateToken(username, nowMillis), nowMillis) == Success(username)
  {
    var exp := nowMillis + p.jwtExpirationDate;
    assert p.ExpirationDate(nowMillis) == exp;
    NumericDateBounds(exp);
    UsernameRoundTrip(p, username, nowMillis, nowMillis);
  }

  /** After its expiration instant the token is refused with "Expired JWT token". */
  lemma {:induction false} ExpiredTokenRefused(p: JwtTokenProvider, username: string, nowMillis: Long, atMillis: int)
    requires atMillis > p.TokenClaims(username, nowMillis).exp * 1000
    ensures p.ValidateToken(p.GenerateToken(username, nowMillis), atMillis) == Failure(BlogApi(BAD_REQUEST, ExpiredMessage))
    ensures p.GetUsernameFromToken(p.GenerateToken(username, nowMillis), atMillis) == Failure(Jwt(Expired))
  {
    ParseCompact(p.TokenClaims(username, nowMillis), p.Key(), atMillis);
  }

  /** Because `exp` is truncated to whole seconds, a lifetime under a second
      can give a token that is already expired when issued. */
  lemma SubSecondLifetimeExpiredAtIssue()
    ensures var p := JwtTokenProvider("secret", 100);
      p.ValidateToken(p.GenerateToken("alice", 1500), 1500) == Failure(BlogApi(BAD_REQUEST, ExpiredMessage))
  {
    var p := JwtTokenProvider("secret", 100);
    assert p.TokenClaims("alice", 1500).exp == 1;
    ExpiredTokenRefused(p, "alice", 1500, 1500);
  }

  /** A token issued under one secret is refused under another, and the
      jjwt `SignatureException` escapes `validateToken` unmapped. */
  lemma {:induction false} OtherSecretRefused(p: JwtTokenProvider, q: JwtTokenProvider, username: string, nowMillis: Long, atMillis: int)
    requires p.jwtSecret != q.jwtSecret
    ensures q.ValidateToken(p.GenerateToken(username, nowMillis), atMillis) == Failure(Jwt(SignatureMismatch))
    ensures q.GetUsernameFromToken(p.GenerateToken(username, nowMillis), atMillis) == Failure(Jwt(SignatureMismatch))
  {
    ParseWithOtherKey(p.TokenClaims(username, nowMillis), p.Key(), q.Key(), atMillis);
  }

  /** A null-free but blank token: "JWT claims string is null empty". */
  lemma BlankTokenRefused(p: JwtTokenProvider, token: string, nowMillis: int)
    requires !HasText(token)
    ensures p.ValidateToken(token, nowMillis) == Failure(BlogApi(BAD_REQUEST, EmptyClaimsMessage))
  {
  }

  /** Text with no '.' (such as "Basic xyz") is not a token: "Invalid JWT token". */
  lemma {:induction false} PlainTextRefused(p: JwtTokenProvider, token: string, nowMillis: int)
    requires HasText(token)
    requires forall i | 0 <= i < |token| :: !Special(token[i])
    ensures p.ValidateToken(token, nowMillis) == Failure(BlogApi(BAD_REQUEST, InvalidMessage))
  {
    SplitPlain(token);
  }

  /** A token whose signature field is empty is unsecured: "Unsupported JWT token". */
  lemma {:induction false} UnsignedTokenRefused(p: JwtTokenProvider, claims: Claims, nowMillis: int)
    ensures p.ValidateToken(Join(ClaimFields(claims) + [""]), nowMillis) == Failure(BlogApi(BAD_REQUEST, UnsupportedMessage))
  {
    var fields := ClaimFields(claims) + [""];
    var token := Join(fields);
    SplitJoin(fields);
    assert token == Escape(fields[0]) + "." + Join(fields[1..]);
    assert token[|Escape(fields[0])|] == '.';
  }

  /** Text that splits into some number of fields other than four is not a
      token: "Invalid JWT token". */
  lemma {:induction false} WrongFieldCountRefused(p: JwtTokenProvider, fields: seq<string>, nowMillis: int)
    requires |fields| > 1 && |fields| != 4
    ensures p.ValidateToken(Join(fields), nowMillis) == Failure(BlogApi(BAD_REQUEST, InvalidMessage))
  {
    JoinHasText(fields);
    SplitJoin(fields);
  }

  /** A token signed with the key whose date fields are not numbers is
      refused as "Invalid JWT token", after its signature has verified. */
  lemma {:induction false} NonNumericDatesRefused(p: JwtTokenProvider, fields: seq<string>, nowMillis: int)
    requires |fields| == 4 && fields[3] == Sign(p.Key(), fields[..3])
    requires ParseLong(fields[0]).None? || ParseLong(fields[1]).None?
    ensures p.ValidateToken(Join(fields), nowMillis) == Failure(BlogApi(BAD_REQUEST, InvalidMessage))
  {
    JoinHasText(fields);
    SplitJoin(fields);
    assert |Sign(p.Key(), fields[..3])| > 0;
  }
}
