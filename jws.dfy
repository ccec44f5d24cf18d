/** A stand-in for the jjwt library's compact JWS builder and parser.

    The real library writes `base64url(header).base64url(claims).base64url(HMAC)`.
    Here a token is a list of fields, each escaped, joined by '.':
    issued-at, expiration, subject, and a signature field. The signature is
    `Sign(key, payload)`, an injective stand-in for HMAC-SHA: the model can
    tell keys and claims apart exactly, and says nothing about secrecy.
    The parser raises the same kinds of failure as jjwt, in the same order:
    blank input, structure, unsecured token, signature, claims, expiry. */
module Jws {
  import opened Wrappers
  import opened JavaLang

  /** The registered claims the blog uses (RFC 7519, sections 4.1.2, 4.1.6
      and 4.1.4). `iat` and `exp` are NumericDate values, in seconds. */
  datatype Claims = Claims(sub: string, iat: int, exp: int)

  /** The exceptions jjwt's parser throws. */
  datatype JwtFailure =
    | IllegalArgument    // IllegalArgumentException: null, empty or blank token
    | Malformed          // MalformedJwtException: the text is not a compact token
    | Unsupported        // UnsupportedJwtException: an unsecured token
    | SignatureMismatch  // SignatureException: the signature does not verify with the key
    | Expired            // ExpiredJwtException: the current time is after `exp`

  /** An HMAC key (`Keys.hmacShaKeyFor`). */
  datatype HmacKey = HmacKey(material: string)

  predicate Special(c: char) {
    c == '.' || c == '\\'
  }

  /** One field of a token: '.' and '\\' are preceded by '\\'. */
  function Escape(s: string): (e: string)
    ensures |e| >= |s|
  {
    if s == [] then []
    else (if Special(s[0]) then ['\\', s[0]] else [s[0]]) + Escape(s[1..])
  }

  /** The escaped fields, separated by '.'. */
  function Join(fields: seq<string>): string
    requires |fields| > 0
  {
    if |fields| == 1 then Escape(fields[0])
    else Escape(fields[0]) + "." + Join(fields[1..])
  }

  /** Puts `f` in front of the first field of a split. */
  function PrependToFirst(f: string, r: Option<seq<string>>): (r': Option<seq<string>>)
    requires r.Some? ==> |r.value| > 0
    ensures r'.Some? <==> r.Some?
    ensures r'.Some? ==> |r'.value| == |r.value|
  {
    match r
    case None => None
    case Some(fs) => Some([f + fs[0]] + fs[1..])
  }

  lemma PrependTwice(a: string, b: string, r: Option<seq<string>>)
    requires r.Some? ==> |r.value| > 0
    ensures PrependToFirst(a, PrependToFirst(b, r)) == PrependToFirst(a + b, r)
  {
    if r.Some? {
      var fs := r.value;
      assert a + (b + fs[0]) == (a + b) + fs[0];
    }
  }

  /** Splits a token at every '.' that is not escaped, undoing the escapes;
      `None` when the text ends in a lone '\\'. */
  function Split(s: string): (r: Option<seq<string>>)
    ensures r.Some? ==> |r.value| > 0
    decreases |s|
  {
    if s == [] then Some([[]])
    else if s[0] == '.' then
      match Split(s[1..])
      case None => None
      case Some(fs) => Some([[]] + fs)
    else if s[0] == '\\' then
      if |s| == 1 then None else PrependToFirst([s[1]], Split(s[2..]))
    else PrependToFirst([s[0]], Split(s[1..]))
  }

  /** An escaped field in front of some text ends up in front of the first
      field that text splits into. */
  lemma {:induction false} SplitAfterEscape(f: string, t: string)
    ensures Split(Escape(f) + t) == PrependToFirst(f, Split(t))
    decreases |f|
  {
    if f == [] {
      assert Escape(f) + t == t;
      if Split(t).Some? {
        var fs := Split(t).value;
        assert f + fs[0] == fs[0];
        assert [fs[0]] + fs[1..] == fs;
      }
    } else {
      var c := f[0];
      var rest := Escape(f[1..]) + t;
      SplitAfterEscape(f[1..], t);
      if Special(c) {
        var s := ['\\', c] + rest;
        assert Escape(f) + t == s;
        assert s[2..] == rest;
        assert Split(s) == PrependToFirst([c], Split(rest));
      } else {
        var s := [c] + rest;
        assert Escape(f) + t == s;
        assert s[1..] == rest;
        assert Split(s) == PrependToFirst([c], Split(rest));
      }
      PrependTwice([c], f[1..], Split(t));
      assert [c] + f[1..] == f;
    }
  }

  /** Splitting undoes joining. */
  lemma {:induction false} SplitJoin(fields: seq<string>)
    requires |fields| > 0
    ensures Split(Join(fields)) == Some(fields)
  {
    if |fields| == 1 {
      SplitAfterEscape(fields[0], []);
      assert Escape(fields[0]) + [] == Escape(fields[0]);
      assert fields[0] + [] == fields[0];
      assert [fields[0]] + [[]][1..] == fields;
    } else {
      var tail := Join(fields[1..]);
      SplitJoin(fields[1..]);
      assert ("." + tail)[1..] == tail;
      assert Split("." + tail) == Some([[]] + fields[1..]);
      SplitAfterEscape(fields[0], "." + tail);
      assert Join(fields) == Escape(fields[0]) + ("." + tail);
      assert ([[]] + fields[1..])[1..] == fields[1..];
      assert fields[0] + [] == fields[0];
      assert [fields[0]] + fields[1..] == fields;
    }
  }

  /** Text without '.' and '\\' is a single field. */
  lemma {:induction false} SplitPlain(s: string)
    requires forall i | 0 <= i < |s| :: !Special(s[i])
    ensures Split(s) == Some([s])
  {
    if s != [] {
      SplitPlain(s[1..]);
      assert !Special(s[0]);
      var fs := [s[1..]];
      assert PrependToFirst([s[0]], Some(fs)) == Some([[s[0]] + fs[0]] + fs[1..]);
      assert Split(s) == PrependToFirst([s[0]], Some([s[1..]]));
      assert fs[1..] == [];
      assert [s[0]] + fs[0] == s;
      assert [[s[0]] + fs[0]] + fs[1..] == [s];
    }
  }

  /** The claim fields of a token, in the order they are written. */
  function ClaimFields(c: Claims): seq<string> {
    [LongToString(c.iat), LongToString(c.exp), c.sub]
  }

  /** A text of two or more joined fields holds a '.', so it has text. */
  lemma JoinHasText(fields: seq<string>)
    requires |fields| > 1
    ensures HasText(Join(fields))
  {
    var head := Escape(fields[0]);
    assert Join(fields) == head + "." + Join(fields[1..]);
    assert Join(fields)[|head|] == '.';
  }

  /** The signature of the payload fields under `key`: the stand-in for
      HMAC-SHA. Like jjwt, it is taken over the payload as written, so it can
      be checked before any claim is read. */
  function Sign(key: HmacKey, payload: seq<string>): string {
    Join([key.material] + payload)
  }

  /** The signature determines both the key and the payload. */
  lemma {:induction false} SignInjective(k1: HmacKey, p1: seq<string>, k2: HmacKey, p2: seq<string>)
    requires Sign(k1, p1) == Sign(k2, p2)
    ensures k1 == k2 && p1 == p2
  {
    var f1, f2 := [k1.material] + p1, [k2.material] + p2;
    SplitJoin(f1);
    SplitJoin(f2);
    assert f1 == f2;
    assert f1[1..] == p1 && f2[1..] == p2;
  }

  /** The signature of a token carrying `claims`. */
  function Mac(key: HmacKey, claims: Claims): string {
    Sign(key, ClaimFields(claims))
  }

  /** The signature of a token determines both the key and the claims. */
  lemma {:induction false} MacInjective(k1: HmacKey, c1: Claims, k2: HmacKey, c2: Claims)
    requires Mac(k1, c1) == Mac(k2, c2)
    ensures k1 == k2 && c1 == c2
  {
    SignInjective(k1, ClaimFields(c1), k2, ClaimFields(c2));
    assert ClaimFields(c1)[0] == ClaimFields(c2)[0] && ClaimFields(c1)[1] == ClaimFields(c2)[1];
    LongToStringRoundTrip(c1.iat);
    LongToStringRoundTrip(c2.iat);
    LongToStringRoundTrip(c1.exp);
    LongToStringRoundTrip(c2.exp);
  }

  /** `Jwts.builder()...signWith(key).compact()`: the claim fields followed by
      their signature, which a split recovers exactly. */
  function Compact(claims: Claims, key: HmacKey): (token: string)
    ensures HasText(token)
    ensures Split(token) == Some(ClaimFields(claims) + [Mac(key, claims)])
  {
    var fields := ClaimFields(claims) + [Mac(key, claims)];
    JoinHasText(fields);
    SplitJoin(fields);
    Join(fields)
  }

  /** `Jwts.parser().verifyWith(key).build().parse(token)` at time `nowMillis`
      (milliseconds): the claims, or the exception jjwt throws. The checks
      come in jjwt's order: blank text, structure, unsecured token, signature
      over the payload as written, then the claims themselves and expiry
      (the current time after `exp`, with no clock skew). */
  function Parse(token: string, key: HmacKey, nowMillis: int): (r: Result<Claims, JwtFailure>)
    ensures r == Failure(IllegalArgument) <==> !HasText(token)
    ensures r.Success? ==>
      && Split(token).Some? && |Split(token).value| == 4
      && Split(token).value[3] == Sign(key, Split(token).value[..3])
      && Split(token).value[2] == r.value.sub
      && nowMillis <= r.value.exp * 1000
  {
    if !HasText(token) then Failure(IllegalArgument)
    else
      match Split(token)
      case None => Failure(Malformed)
      case Some(f) =>
        if |f| != 4 then Failure(Malformed)
        else if f[3] == [] then Failure(Unsupported)
        else if f[3] != Sign(key, f[..3]) then Failure(SignatureMismatch)
        else if ParseLong(f[0]).None? || ParseLong(f[1]).None? then Failure(Malformed)
        else
          var claims := Claims(f[2], ParseLong(f[0]).value, ParseLong(f[1]).value);
          if nowMillis > claims.exp * 1000 then Failure(Expired)
          else Success(claims)
  }

  /** Parsing a token with the key that signed it gives back its claims,
      unless the token has expired. */
  lemma {:induction false} ParseCompact(claims: Claims, key: HmacKey, nowMillis: int)
    ensures Parse(Compact(claims, key), key, nowMillis) ==
      if nowMillis > claims.exp * 1000 then Failure(Expired) else Success(claims)
  {
    var fields := ClaimFields(claims) + [Mac(key, claims)];
    assert fields[..3] == ClaimFields(claims);
    LongToStringRoundTrip(claims.iat);
    LongToStringRoundTrip(claims.exp);
    assert |Mac(key, claims)| > 0;
  }

  /** A token signed with one key fails to verify with any other key. */
  lemma {:induction false} ParseWithOtherKey(claims: Claims, key: HmacKey, other: HmacKey, nowMillis: int)
    requires other != key
    ensures Parse(Compact(claims, key), other, nowMillis) == Failure(SignatureMismatch)
  {
    var fields := ClaimFields(claims) + [Mac(key, claims)];
    assert fields[..3] == ClaimFields(claims);
    assert |Mac(key, claims)| > 0;
    if Mac(key, claims) == Sign(other, ClaimFields(claims)) {
      SignInjective(key, ClaimFields(claims), other, ClaimFields(claims));
    }
  }

  /** Four fields whose last is a signature that does not verify are refused
      for the signature, whatever the claim fields hold: the claims of a
      forged token are never read. */
  lemma {:induction false} SignatureCheckedFirst(fields: seq<string>, key: HmacKey, nowMillis: int)
    requires |fields| == 4 && fields[3] != [] && fields[3] != Sign(key, fields[..3])
    ensures Parse(Join(fields), key, nowMillis) == Failure(SignatureMismatch)
  {
    JoinHasText(fields);
    SplitJoin(fields);
  }
}
