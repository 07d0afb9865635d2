/**
 * The accept-link token of functions/lib/token.js: a JSON Web Token (RFC 7519)
 * in the JWS compact serialisation (RFC 7515, section 7.1) signed with HS256
 * (RFC 7518, section 3.2), built by hand. Three departures from those standards
 * are kept because the code has them: verification only asks for one `.`, not
 * for exactly three segments; the signature is compared as plain text; and
 * neither `alg` nor `iss` is ever inspected.
 *
 * HMAC-SHA256 and the JSON encoding of the claims are foreign primitives and
 * enter as parameters; the clock enters as `now` (whole seconds).
 */
module AcceptToken {
  import opened Common
  import opened Base64

  /**
   * The decoded payload object. A field is None when the object does not have it
   * (or JSON.parse returned a non-object, whose property reads give undefined).
   */
  datatype Claims = Claims(dealId: Option<string>, iat: Option<int>, exp: Option<int>, iss: Option<string>)

  /**
   * `JSON.stringify` followed by UTF-8 encoding, and UTF-8 decoding followed by
   * `JSON.parse`; `parse` gives None where JSON.parse throws or yields null
   * (whose `.exp` read throws).
   */
  datatype JsonCodec = JsonCodec(stringify: Claims -> seq<Byte>, parse: seq<Byte> -> Option<Claims>)

  /** The one property of JSON the model relies on: parsing what was stringified gives it back. */
  ghost predicate ParsesBack(json: JsonCodec) {
    forall c :: json.parse(json.stringify(c)) == Some(c)
  }

  datatype Primitives = Primitives(hmac: Hmac, json: JsonCodec)

  const Issuer: string := "qnc"

  /** The default of `ttlSec`: one hour. */
  const DefaultTtl: int := 60 * 60

  /**
   * The first segment, `b64url(JSON.stringify({ alg: 'HS256', typ: 'JWT' }))`:
   * the base64url text of `{"alg":"HS256","typ":"JWT"}`, written out.
   */
  function HeaderSegment(): string {
    "eyJhbGciOiJIUzI1NiIsInR5cCI6IkpXVCJ9"
  }

  function Ttl(ttlSec: Option<int>): int {
    if ttlSec.Some? then ttlSec.value else DefaultTtl
  }

  /** The payload `signAcceptToken` writes: the deal, issued now, expiring `ttlSec` later, issuer `qnc`. */
  function MintedClaims(dealId: string, ttlSec: Option<int>, now: int): Claims {
    Claims(Some(dealId), Some(now), Some(now + Ttl(ttlSec)), Some(Issuer))
  }

  /** The third segment that goes with the first two: b64url of the HMAC over `h.p`. */
  function SignatureFor(h: string, p: string, secret: string, hmac: Hmac): string {
    B64Url(hmac(secret, h + "." + p))
  }

  /** `signAcceptToken({ dealId, ttlSec }, secret)` at time `now`; `ttlSec` None means it was omitted. */
  function SignAcceptToken(dealId: string, ttlSec: Option<int>, secret: string, now: int, prim: Primitives): string {
    var h := HeaderSegment();
    var p := B64Url(prim.json.stringify(MintedClaims(dealId, ttlSec, now)));
    h + "." + p + "." + B64Url(prim.hmac(secret, h + "." + p))
  }

  /**
   * A minted token splits into exactly three segments: the fixed header, a
   * payload that decodes to the minted claims, and the signature over the
   * first two.
   */
  lemma Minted(dealId: string, ttlSec: Option<int>, secret: string, now: int, prim: Primitives)
    ensures var token := SignAcceptToken(dealId, ttlSec, secret, now, prim);
      && '.' in token && |Split(token, '.')| == 3
      && Split(token, '.')[0] == HeaderSegment()
      && DecodeUrl(Split(token, '.')[1]) == Some(prim.json.stringify(MintedClaims(dealId, ttlSec, now)))
      && Split(token, '.')[2] == SignatureFor(Split(token, '.')[0], Split(token, '.')[1], secret, prim.hmac)
  {
    var h := HeaderSegment();
    var p := B64Url(prim.json.stringify(MintedClaims(dealId, ttlSec, now)));
    var s := B64Url(prim.hmac(secret, h + "." + p));
    Segments(h, p, s);
    var parts := Split(h + "." + p + "." + s, '.');
    assert parts[0] == h && parts[1] == p && parts[2] == s;
    DecodeUrlB64Url(prim.json.stringify(MintedClaims(dealId, ttlSec, now)));
  }

  /** Three `b64url` segments joined by `.` split back into themselves. */
  lemma Segments(h: string, p: string, s: string)
    requires '.' !in h && '.' !in p && '.' !in s
    ensures '.' in h + "." + p + "." + s
    ensures Split(h + "." + p + "." + s, '.') == [h, p, s]
  {
    SplitThree(h, p, s, '.');
    assert (h + "." + p + "." + s)[|h|] == '.';
  }

  datatype TokenError = Malformed | BadSignature | Expired

  function ErrorMessage(e: TokenError): string {
    match e
    case Malformed => "Malformed token"
    case BadSignature => "Bad signature"
    case Expired => "Expired token"
  }

  /** `{ valid: true, payload }`, `{ valid: false, error }`, or an exception out of JSON.parse. */
  datatype Verdict = Valid(payload: Claims) | Invalid(error: TokenError) | Throws

  /** `payload.exp && now > payload.exp`: a present, non-zero expiry strictly in the past. */
  predicate IsExpired(c: Claims, now: int) {
    c.exp.Some? && c.exp.value != 0 && now > c.exp.value
  }

  /** The third segment is present and equals the signature recomputed over the first two. */
  predicate SignatureMatches(token: string, secret: string, hmac: Hmac)
    requires '.' in token
  {
    SplitCount(token, '.');
    var parts := Split(token, '.');
    |parts| >= 3 && parts[2] == SignatureFor(parts[0], parts[1], secret, hmac)
  }

  /** What the second segment decodes and parses to, or None where decoding or JSON.parse fails. */
  function PayloadOf(token: string, json: JsonCodec): Option<Claims>
    requires '.' in token
  {
    SplitCount(token, '.');
    var p64 := Split(token, '.')[1];
    match DecodeUrl(p64)
    case None => None
    case Some(bytes) => json.parse(bytes)
  }

  /**
   * `verifyAcceptToken(token, secret)` at time `now`; `token` None stands for a
   * value that is not a string. The checks run in the source's order: shape,
   * then signature, then payload decoding, then expiry.
   */
  function VerifyAcceptToken(token: Option<string>, secret: string, now: int, prim: Primitives): (v: Verdict)
    ensures v == Invalid(Malformed) <==> token.None? || '.' !in token.value
  {
    if token.None? || token.value == "" || '.' !in token.value then Invalid(Malformed)
    else
      var parts := Split(token.value, '.');
      SplitCount(token.value, '.');
      var h64, p64 := parts[0], parts[1];
      var s64 := if |parts| >= 3 then Some(parts[2]) else None;
      var expected := B64Url(prim.hmac(secret, h64 + "." + p64));
      if s64 != Some(expected) then Invalid(BadSignature)
      else
        match DecodeUrl(p64)
        case None => Throws
        case Some(bytes) =>
          match prim.json.parse(bytes)
          case None => Throws
          case Some(payload) =>
            if IsExpired(payload, now) then Invalid(Expired) else Valid(payload)
  }

  /**
   * A token without a `.` (or not a string at all) is rejected as malformed
   * whatever the secret, the clock and the primitives: no HMAC is consulted.
   */
  lemma MalformedBeforeHmac(token: Option<string>, s1: string, s2: string, n1: int, n2: int, p1: Primitives, p2: Primitives)
    requires token.None? || '.' !in token.value
    ensures VerifyAcceptToken(token, s1, n1, p1) == VerifyAcceptToken(token, s2, n2, p2) == Invalid(Malformed)
  {
  }

  /**
   * The signature is checked before the payload is looked at: a token whose
   * third segment is missing or wrong is a bad signature, whatever its payload,
   * the JSON codec and the clock.
   */
  lemma {:induction false} SignatureCheckedFirst(t: string, secret: string, now: int, prim: Primitives)
    requires '.' in t
    ensures VerifyAcceptToken(Some(t), secret, now, prim) == Invalid(BadSignature)
        <==> !SignatureMatches(t, secret, prim.hmac)
  {
    SplitCount(t, '.');
  }

  /** A token with a single `.` has no third segment, so it is a bad signature whatever the key. */
  lemma {:induction false} OneDotIsBadSignature(h: string, p: string, secret: string, now: int, prim: Primitives)
    requires '.' !in h && '.' !in p
    ensures VerifyAcceptToken(Some(h + "." + p), secret, now, prim) == Invalid(BadSignature)
  {
    SplitJoin([h, p], '.');
    assert Join([h, p], '.') == h + "." + p;
    SplitCount(h + "." + p, '.');
  }

  /**
   * Once the signature matches, the verdict is decided by the payload alone:
   * an undecodable one throws, an expired one is rejected, any other is valid.
   * Nothing about the header or `iss` is consulted.
   */
  lemma {:induction false} VerdictOfSigned(t: string, secret: string, now: int, prim: Primitives)
    requires '.' in t && SignatureMatches(t, secret, prim.hmac)
    ensures VerifyAcceptToken(Some(t), secret, now, prim) ==
      match PayloadOf(t, prim.json)
      case None => Throws
      case Some(c) => if IsExpired(c, now) then Invalid(Expired) else Valid(c)
  {
    SplitCount(t, '.');
  }

  /**
   * The clock only ever turns a valid token into an expired one. Between two
   * instants `n1 <= n2` the verdict on a token stays the same, unless it was
   * valid at `n1` and is expired at `n2`, with its `exp` in `[n1, n2)`. A token
   * valid at some instant was valid, with the same claims, at every earlier one.
   */
  lemma {:induction false} ClockOnlyExpires(t: Option<string>, secret: string, n1: int, n2: int, prim: Primitives)
    requires n1 <= n2
    ensures var v1, v2 := VerifyAcceptToken(t, secret, n1, prim), VerifyAcceptToken(t, secret, n2, prim);
      v1 != v2 ==> v1.Valid? && v2 == Invalid(Expired) && v1.payload.exp.Some? && n1 <= v1.payload.exp.value < n2
  {
    if t.Some? && '.' in t.value && SignatureMatches(t.value, secret, prim.hmac) {
      VerdictOfSigned(t.value, secret, n1, prim);
      VerdictOfSigned(t.value, secret, n2, prim);
    } else if t.Some? && '.' in t.value {
      SignatureCheckedFirst(t.value, secret, n1, prim);
      SignatureCheckedFirst(t.value, secret, n2, prim);
    }
  }

  /**
   * Any text after a third segment is ignored: appending `.x` to a token
   * that has three segments does not change the verdict.
   */
  lemma {:induction false} ExtraSegmentsIgnored(t: string, x: string, secret: string, now: int, prim: Primitives)
    requires |Split(t, '.')| >= 3
    ensures VerifyAcceptToken(Some(t + "." + x), secret, now, prim) == VerifyAcceptToken(Some(t), secret, now, prim)
  {
    SplitCount(t, '.');
    SplitAppend(t, '.', x);
    var longer := t + "." + x;
    assert '.' in longer by { assert longer[|t|] == '.'; }
    assert Split(longer, '.')[..3] == Split(t, '.')[..3];
  }

  /**
   * Verification of a freshly minted token: it is valid, carrying exactly the
   * claims that were minted (the deal id, `iat = now0`, `exp = now0 + ttl`,
   * `iss = 'qnc'`), until the clock passes `exp`, and expired from then on
   * (never, when `exp` happens to be 0).
   */
  lemma {:induction false} SignThenVerify(dealId: string, ttlSec: Option<int>, secret: string, now0: int, now: int, prim: Primitives)
    requires ParsesBack(prim.json)
    ensures VerifyAcceptToken(Some(SignAcceptToken(dealId, ttlSec, secret, now0, prim)), secret, now, prim) ==
      if IsExpired(MintedClaims(dealId, ttlSec, now0), now) then Invalid(Expired)
      else Valid(MintedClaims(dealId, ttlSec, now0))
  {
    var t := SignAcceptToken(dealId, ttlSec, secret, now0, prim);
    Minted(dealId, ttlSec, secret, now0, prim);
    SplitCount(t, '.');
    VerdictOfSigned(t, secret, now, prim);
    var bytes := prim.json.stringify(MintedClaims(dealId, ttlSec, now0));
    assert prim.json.parse(bytes) == Some(MintedClaims(dealId, ttlSec, now0));
  }

  /** The round trip as the lead and accept handlers use it: within the window the deal id comes back. */
  lemma RoundTrip(dealId: string, ttlSec: Option<int>, secret: string, now0: int, now: int, prim: Primitives)
    requires ParsesBack(prim.json)
    requires now <= now0 + Ttl(ttlSec)
    ensures VerifyAcceptToken(Some(SignAcceptToken(dealId, ttlSec, secret, now0, prim)), secret, now, prim).Valid?
    ensures VerifyAcceptToken(Some(SignAcceptToken(dealId, ttlSec, secret, now0, prim)), secret, now, prim).payload.dealId == Some(dealId)
  {
    SignThenVerify(dealId, ttlSec, secret, now0, now, prim);
  }
}
