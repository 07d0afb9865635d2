/**
 * Base64 over bytes (RFC 4648, section 4) as Node's `Buffer.toString('base64')`
 * produces it, the `b64url` rewrite of functions/lib/token.js (drop `=`, `+` to
 * `-`, `/` to `_`: the unpadded alphabet of RFC 4648, section 5), and the
 * decoding `verifyAcceptToken` applies to the payload segment.
 */
module Base64 {
  import opened Common

  /** Letter `v` of the standard alphabet. */
  function StdChar(v: int): char
    requires 0 <= v < 64
  {
    if v < 26 then ('A' as int + v) as char
    else if v < 52 then ('a' as int + v - 26) as char
    else if v < 62 then ('0' as int + v - 52) as char
    else if v == 62 then '+'
    else '/'
  }

  /** Position of `c` in the standard alphabet, or -1 when it is not a letter of it. */
  function StdValue(c: char): (v: int)
    ensures -1 <= v < 64
    ensures v >= 0 ==> StdChar(v) == c
  {
    if 'A' <= c <= 'Z' then c as int - 'A' as int
    else if 'a' <= c <= 'z' then c as int - 'a' as int + 26
    else if '0' <= c <= '9' then c as int - '0' as int + 52
    else if c == '+' then 62
    else if c == '/' then 63
    else -1
  }

  predicate IsStdChar(c: char) {
    StdValue(c) >= 0
  }

  /** The URL- and filename-safe alphabet of RFC 4648, section 5. */
  predicate IsUrlChar(c: char) {
    'A' <= c <= 'Z' || 'a' <= c <= 'z' || '0' <= c <= '9' || c == '-' || c == '_'
  }

  lemma StdCharValue(v: int)
    requires 0 <= v < 64
    ensures StdValue(StdChar(v)) == v
  {
  }

  /** The four letters for three bytes. */
  function Quad(b0: Byte, b1: Byte, b2: Byte): (q: string)
    ensures |q| == 4 && forall i :: 0 <= i < 4 ==> IsStdChar(q[i]) && q[i] != '='
  {
    [StdChar(b0 / 4), StdChar((b0 % 4) * 16 + b1 / 16), StdChar((b1 % 16) * 4 + b2 / 64), StdChar(b2 % 64)]
  }

  /** The two letters and two `=` for a final single byte. */
  function PadOne(b0: Byte): (q: string)
    ensures |q| == 4 && IsStdChar(q[0]) && IsStdChar(q[1]) && q[2..] == "=="
  {
    [StdChar(b0 / 4), StdChar((b0 % 4) * 16), '=', '=']
  }

  /** The three letters and one `=` for a final pair of bytes. */
  function PadTwo(b0: Byte, b1: Byte): (q: string)
    ensures |q| == 4 && IsStdChar(q[0]) && IsStdChar(q[1]) && IsStdChar(q[2]) && q[3] == '='
  {
    [StdChar(b0 / 4), StdChar((b0 % 4) * 16 + b1 / 16), StdChar((b1 % 16) * 4), '=']
  }

  /** `Buffer.from(b).toString('base64')`: groups of three bytes, `=` padding at the end. */
  function Encode(b: seq<Byte>): (s: string)
    ensures |s| == 4 * ((|b| + 2) / 3)
    ensures forall i :: 0 <= i < |s| ==> IsStdChar(s[i]) || s[i] == '='
    decreases |b|
  {
    if |b| == 0 then ""
    else if |b| == 1 then PadOne(b[0])
    else if |b| == 2 then PadTwo(b[0], b[1])
    else Quad(b[0], b[1], b[2]) + Encode(b[3..])
  }

  /** `b64url` of functions/lib/token.js: base64, then `=` removed, `+` to `-`, `/` to `_`. */
  function B64Url(b: seq<Byte>): (s: string)
    ensures forall i :: 0 <= i < |s| ==> IsUrlChar(s[i])
    ensures '=' !in s && '+' !in s && '/' !in s && '.' !in s
  {
    var stripped := RemoveChar(Encode(b), '=');
    assert forall i :: 0 <= i < |stripped| ==> IsStdChar(stripped[i]) by {
      forall i | 0 <= i < |stripped| ensures IsStdChar(stripped[i]) {
        assert stripped[i] in stripped;
      }
    }
    ReplaceChar(ReplaceChar(stripped, '+', '-'), '/', '_')
  }

  /** The rewrite `verifyAcceptToken` applies before decoding: `-` back to `+`, `_` back to `/`. */
  function FromUrl(s: string): string {
    ReplaceChar(ReplaceChar(s, '-', '+'), '_', '/')
  }

  /** Three bytes from four letter values. */
  function Triple(v0: int, v1: int, v2: int, v3: int): seq<Byte>
    requires 0 <= v0 < 64 && 0 <= v1 < 64 && 0 <= v2 < 64 && 0 <= v3 < 64
  {
    [v0 * 4 + v1 / 16, (v1 % 16) * 16 + v2 / 4, (v2 % 4) * 64 + v3]
  }

  /**
   * Decoding of unpadded standard base64: four letters give three bytes, a final
   * two give one byte and a final three give two. Anything else (a letter outside
   * the alphabet, a `=`, a single trailing letter) gives None.
   */
  function DecodeUnpadded(s: string): Option<seq<Byte>>
    decreases |s|
  {
    if |s| == 0 then Some([])
    else if |s| == 1 then None
    else if !IsStdChar(s[0]) || !IsStdChar(s[1]) then None
    else
      var v0, v1 := StdValue(s[0]), StdValue(s[1]);
      if |s| == 2 then Some([v0 * 4 + v1 / 16])
      else if !IsStdChar(s[2]) then None
      else
        var v2 := StdValue(s[2]);
        if |s| == 3 then Some([v0 * 4 + v1 / 16, (v1 % 16) * 16 + v2 / 4])
        else if !IsStdChar(s[3]) then None
        else match DecodeUnpadded(s[4..])
          case None => None
          case Some(rest) => Some(Triple(v0, v1, v2, StdValue(s[3])) + rest)
  }

  /** `Buffer.from(s.replace(/-/g, '+').replace(/_/g, '/'), 'base64')` on canonical input. */
  function DecodeUrl(s: string): Option<seq<Byte>> {
    DecodeUnpadded(FromUrl(s))
  }

  lemma GroupRoundTrip(b0: Byte, b1: Byte, b2: Byte)
    ensures Triple(b0 / 4, (b0 % 4) * 16 + b1 / 16, (b1 % 16) * 4 + b2 / 64, b2 % 64) == [b0, b1, b2]
  {
    var v1 := (b0 % 4) * 16 + b1 / 16;
    var v2 := (b1 % 16) * 4 + b2 / 64;
    assert v1 / 16 == b0 % 4 && v1 % 16 == b1 / 16;
    assert v2 / 4 == b1 % 16 && v2 % 4 == b2 / 64;
  }

  lemma DecodeLastOne(b0: Byte)
    ensures DecodeUnpadded(RemoveChar(Encode([b0]), '=')) == Some([b0])
  {
    var head := [StdChar(b0 / 4), StdChar((b0 % 4) * 16)];
    assert Encode([b0]) == head + "==";
    RemoveCharAbsent(head, '=');
    RemoveCharAppend(head, "==", '=');
    StdCharValue(b0 / 4);
    StdCharValue((b0 % 4) * 16);
  }

  lemma DecodeLastTwo(b0: Byte, b1: Byte)
    ensures DecodeUnpadded(RemoveChar(Encode([b0, b1]), '=')) == Some([b0, b1])
  {
    var v1 := (b0 % 4) * 16 + b1 / 16;
    var head := [StdChar(b0 / 4), StdChar(v1), StdChar((b1 % 16) * 4)];
    assert Encode([b0, b1]) == head + "=";
    RemoveCharAbsent(head, '=');
    RemoveCharAppend(head, "=", '=');
    StdCharValue(b0 / 4);
    StdCharValue(v1);
    StdCharValue((b1 % 16) * 4);
    assert v1 / 16 == b0 % 4 && v1 % 16 == b1 / 16;
  }

  lemma DecodeQuad(b0: Byte, b1: Byte, b2: Byte, rest: string, tail: seq<Byte>)
    requires DecodeUnpadded(rest) == Some(tail)
    ensures DecodeUnpadded(Quad(b0, b1, b2) + rest) == Some([b0, b1, b2] + tail)
  {
    var s := Quad(b0, b1, b2) + rest;
    assert s[4..] == rest;
    StdCharValue(b0 / 4);
    StdCharValue((b0 % 4) * 16 + b1 / 16);
    StdCharValue((b1 % 16) * 4 + b2 / 64);
    StdCharValue(b2 % 64);
    GroupRoundTrip(b0, b1, b2);
  }

  /** Past the first three bytes, stripping the padding leaves their four letters in front. */
  lemma EncodeStep(b: seq<Byte>)
    requires |b| >= 3
    ensures RemoveChar(Encode(b), '=') == Quad(b[0], b[1], b[2]) + RemoveChar(Encode(b[3..]), '=')
  {
    var q := Quad(b[0], b[1], b[2]);
    assert Encode(b) == q + Encode(b[3..]);
    KeepsLetters(q, Encode(b[3..]));
  }

  /** Stripping `=` leaves a padding-free front as it is. */
  lemma KeepsLetters(q: string, rest: string)
    requires forall i :: 0 <= i < |q| ==> q[i] != '='
    ensures RemoveChar(q + rest, '=') == q + RemoveChar(rest, '=')
  {
    RemoveCharAbsent(q, '=');
    RemoveCharAppend(q, rest, '=');
  }

  /** The round trip for a final single byte. */
  lemma DecodeEncodeOne(b: seq<Byte>)
    requires |b| == 1
    ensures DecodeUnpadded(RemoveChar(Encode(b), '=')) == Some(b)
  {
    assert b == [b[0]];
    DecodeLastOne(b[0]);
  }

  /** The round trip for a final pair of bytes. */
  lemma DecodeEncodeTwo(b: seq<Byte>)
    requires |b| == 2
    ensures DecodeUnpadded(RemoveChar(Encode(b), '=')) == Some(b)
  {
    assert b == [b[0], b[1]];
    DecodeLastTwo(b[0], b[1]);
  }

  lemma {:induction false} DecodeEncode(b: seq<Byte>)
    ensures DecodeUnpadded(RemoveChar(Encode(b), '=')) == Some(b)
    decreases |b|
  {
    if |b| == 1 {
      DecodeEncodeOne(b);
    } else if |b| == 2 {
      DecodeEncodeTwo(b);
    } else if |b| >= 3 {
      EncodeStep(b);
      DecodeEncode(b[3..]);
      DecodeQuad(b[0], b[1], b[2], RemoveChar(Encode(b[3..]), '='), b[3..]);
      assert [b[0], b[1], b[2]] + b[3..] == b;
    }
  }

  /** Turning the URL letters back undoes `b64url`'s rewrite of `+` and `/`. */
  lemma FromUrlB64Url(b: seq<Byte>)
    ensures FromUrl(B64Url(b)) == RemoveChar(Encode(b), '=')
  {
    var stripped := RemoveChar(Encode(b), '=');
    forall i | 0 <= i < |stripped| ensures IsStdChar(stripped[i]) {
      assert stripped[i] in stripped;
    }
  }

  /** The payload round trip: decoding a `b64url` segment gives back exactly the bytes encoded. */
  lemma DecodeUrlB64Url(b: seq<Byte>)
    ensures DecodeUrl(B64Url(b)) == Some(b)
  {
    FromUrlB64Url(b);
    DecodeEncode(b);
  }
}
