/**
 * The older accept-link scheme of services/signer.js: a token is the deal id,
 * a `.`, and the lowercase hex HMAC-SHA256 of `deal=<dealId>` under a
 * module-wide secret. It is a second format, incompatible with AcceptToken.
 */
module Signer {
  import opened Common

  predicate IsHexDigit(c: char) {
    '0' <= c <= '9' || 'a' <= c <= 'f'
  }

  function HexDigit(v: nat): (c: char)
    requires v < 16
    ensures IsHexDigit(c)
  {
    if v < 10 then ('0' as int + v) as char else ('a' as int + v - 10) as char
  }

  /** `digest('hex')`: two lowercase hex digits per byte, high nibble first. */
  function Hex(b: seq<Byte>): (s: string)
    ensures |s| == 2 * |b|
    ensures forall i :: 0 <= i < |s| ==> IsHexDigit(s[i])
    decreases |b|
  {
    if |b| == 0 then "" else [HexDigit(b[0] / 16), HexDigit(b[0] % 16)] + Hex(b[1..])
  }

  /** Hex text is ASCII, so `Buffer.from` of it has one byte per digit. */
  lemma HexIsAscii(b: seq<Byte>)
    ensures IsAscii(Hex(b))
    ensures |Utf8(Hex(b))| == 2 * |b|
  {
    Utf8Ascii(Hex(b));
  }

  /** Different digests have different hex text, so comparing the text compares the digests. */
  lemma {:induction false} HexInjective(a: seq<Byte>, b: seq<Byte>)
    requires Hex(a) == Hex(b)
    ensures a == b
    decreases |a|
  {
    if |a| > 0 {
      var ha, hb := Hex(a), Hex(b);
      assert ha[0] == hb[0] && ha[1] == hb[1];
      assert a[0] / 16 == b[0] / 16 && a[0] % 16 == b[0] % 16;
      assert ha[2..] == Hex(a[1..]) && hb[2..] == Hex(b[1..]);
      HexInjective(a[1..], b[1..]);
      assert a == [a[0]] + a[1..] && b == [b[0]] + b[1..];
    }
  }

  /** The signature `signToken` and `verifyToken` compute for a deal. */
  function Expected(dealId: string, secret: string, hmac: Hmac): string {
    Hex(hmac(secret, "deal=" + dealId))
  }

  /** `signToken({ dealId })`. */
  function SignToken(dealId: string, secret: string, hmac: Hmac): (token: string)
    ensures '.' !in dealId ==> Split(token, '.') == [dealId, Expected(dealId, secret, hmac)]
  {
    SignedSplits(dealId, Expected(dealId, secret, hmac));
    dealId + "." + Expected(dealId, secret, hmac)
  }

  lemma SignedSplits(dealId: string, sig: string)
    requires forall i :: 0 <= i < |sig| ==> IsHexDigit(sig[i])
    ensures '.' !in dealId ==> Split(dealId + "." + sig, '.') == [dealId, sig]
  {
    if '.' !in dealId {
      assert forall i :: 0 <= i < |sig| ==> sig[i] != '.';
      SplitJoin([dealId, sig], '.');
      assert Join([dealId, sig], '.') == dealId + "." + sig;
    }
  }

  /** What `verifyToken` can do: return a boolean, or throw (from `timingSafeEqual`). */
  datatype Outcome = Returns(ok: bool) | Throws

  /**
   * `verifyToken({ dealId, token })`. None stands for a missing argument. The
   * first segment must equal the deal id and the second must be non-empty; then
   * `timingSafeEqual` throws when the two byte strings differ in length and
   * otherwise compares them.
   */
  function VerifyToken(dealId: Option<string>, token: Option<string>, secret: string, hmac: Hmac): (r: Outcome)
    ensures (token.None? || token.value == "" || dealId.None? || dealId.value == "") ==> r == Returns(false)
  {
    if token.None? || token.value == "" || dealId.None? || dealId.value == "" then Returns(false)
    else
      var parts := Split(token.value, '.');
      var dealPart := parts[0];
      var sig := if |parts| >= 2 then parts[1] else "";
      if dealPart != dealId.value || sig == "" then Returns(false)
      else
        var expected := Expected(dealId.value, secret, hmac);
        if |Utf8(sig)| != |Utf8(expected)| then Throws
        else Returns(Utf8(sig) == Utf8(expected))
  }

  /**
   * Acceptance exactly: the token's first segment is the (non-empty) deal id and
   * its second segment is that deal's signature; any later segment is ignored.
   */
  lemma VerifyTokenAccepts(dealId: string, token: string, secret: string, hmac: Hmac)
    ensures VerifyToken(Some(dealId), Some(token), secret, hmac) == Returns(true) <==>
      && dealId != ""
      && Split(token, '.')[0] == dealId
      && |Split(token, '.')| >= 2
      && Split(token, '.')[1] == Expected(dealId, secret, hmac)
  {
    var parts := Split(token, '.');
    var expected := Expected(dealId, secret, hmac);
    HexIsAscii(hmac(secret, "deal=" + dealId));
    if VerifyToken(Some(dealId), Some(token), secret, hmac) == Returns(true) {
      Utf8MatchesAscii(parts[1], expected);
    }
    if dealId != "" && |parts| >= 2 && parts[0] == dealId && parts[1] == expected {
      assert parts[1] != "" by {
        assert |expected| == 2 * |hmac(secret, "deal=" + dealId)|;
      }
    }
  }

  /**
   * The refusals of the first-segment check: for a present deal id and token,
   * a first segment other than the deal id, or a missing or empty second
   * segment, gives false and never reaches `timingSafeEqual`.
   */
  lemma VerifyTokenRefuses(dealId: string, token: string, secret: string, hmac: Hmac)
    requires dealId != "" && token != ""
    requires Split(token, '.')[0] != dealId || |Split(token, '.')| < 2 || Split(token, '.')[1] == ""
    ensures VerifyToken(Some(dealId), Some(token), secret, hmac) == Returns(false)
  {
  }

  /** Round trip: a token signed for a non-empty deal id without a `.` verifies for that deal. */
  lemma SignThenVerify(dealId: string, secret: string, hmac: Hmac)
    requires dealId != "" && '.' !in dealId
    ensures VerifyToken(Some(dealId), Some(SignToken(dealId, secret, hmac)), secret, hmac) == Returns(true)
  {
    VerifyTokenAccepts(dealId, SignToken(dealId, secret, hmac), secret, hmac);
  }

  /** A deal id containing `.` never verifies, not even with its own signed token. */
  lemma DottedIdNeverVerifies(dealId: string, token: string, secret: string, hmac: Hmac)
    requires '.' in dealId
    ensures VerifyToken(Some(dealId), Some(token), secret, hmac) == Returns(false)
  {
    var parts := Split(token, '.');
    assert parts[0] != dealId by {
      assert '.' !in parts[0];
    }
  }

  /** A token signed for deal `a` (without a `.`) is refused for every other deal `b`. */
  lemma CrossDealRefused(a: string, b: string, secret: string, hmac: Hmac)
    requires '.' !in a && a != b
    ensures VerifyToken(Some(b), Some(SignToken(a, secret, hmac)), secret, hmac) == Returns(false)
  {
  }

  /**
   * The refusal above needs `a` without a `.`. The token signed for `b.x`,
   * presented for the deal `b`, passes the first-segment check, and
   * `timingSafeEqual` throws on the segment `x` unless it is 64 bytes long.
   */
  lemma DottedIdTokenThrows(b: string, x: string, secret: string, hmac: Hmac)
    requires b != "" && x != "" && '.' !in b && '.' !in x && |Utf8(x)| != 64
    ensures VerifyToken(Some(b), Some(SignToken(b + "." + x, secret, hmac)), secret, hmac) == Throws
  {
    var sig := Expected(b + "." + x, secret, hmac);
    assert '.' !in sig by {
      forall i | 0 <= i < |sig| ensures sig[i] != '.' {
        assert IsHexDigit(sig[i]);
      }
    }
    SplitThree(b, x, sig, '.');
    assert SignToken(b + "." + x, secret, hmac) == b + ['.'] + x + ['.'] + sig;
    DigestText(hmac(secret, "deal=" + b));
  }

  /**
   * A second segment whose UTF-8 length is not the 64 bytes of a hex digest
   * makes `timingSafeEqual` throw instead of returning false.
   */
  lemma LengthMismatchThrows(dealId: string, sig: string, secret: string, hmac: Hmac)
    requires dealId != "" && '.' !in dealId && '.' !in sig && sig != ""
    requires |Utf8(sig)| != 64
    ensures VerifyToken(Some(dealId), Some(dealId + "." + sig), secret, hmac) == Throws
  {
    var token := dealId + "." + sig;
    SplitJoin([dealId, sig], '.');
    assert Join([dealId, sig], '.') == token;
    assert Split(token, '.') == [dealId, sig];
    DigestText(hmac(secret, "deal=" + dealId));
  }

  /** The hex text of a SHA-256 digest is 64 ASCII digits, 64 bytes once encoded. */
  lemma DigestText(d: Digest)
    ensures |Utf8(Hex(d))| == 64
  {
    HexIsAscii(d);
  }
}
