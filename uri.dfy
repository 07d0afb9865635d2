/**
 * `encodeURIComponent` (ECMA-262, section 19.2.6.5): a character of the
 * unreserved set `A-Z a-z 0-9 - _ . ! ~ * ' ( )` stays, every other one is
 * replaced by its UTF-8 bytes, each written `%XX` with upper-case hex digits.
 * Its partner is percent-decoding to bytes (RFC 3986, section 2.1), the first
 * half of `decodeURIComponent`. Dafny characters are Unicode scalar values, so
 * the lone-surrogate URIError cannot arise.
 */
module Uri {
  import opened Common

  predicate IsUnreserved(c: char) {
    || 'A' <= c <= 'Z' || 'a' <= c <= 'z' || '0' <= c <= '9'
    || c == '-' || c == '_' || c == '.' || c == '!' || c == '~' || c == '*' || c == '\'' || c == '(' || c == ')'
  }

  function HexUpper(v: nat): (c: char)
    requires v < 16
    ensures IsUnreserved(c)
  {
    if v < 10 then ('0' as int + v) as char else ('A' as int + v - 10) as char
  }

  /** The value of a hex digit of either case, or -1. */
  function HexValue(c: char): (v: int)
    ensures -1 <= v < 16
  {
    if '0' <= c <= '9' then c as int - '0' as int
    else if 'A' <= c <= 'F' then c as int - 'A' as int + 10
    else if 'a' <= c <= 'f' then c as int - 'a' as int + 10
    else -1
  }

  /** `%XX` for one byte. */
  function Escape(b0: Byte): (s: string)
    ensures |s| == 3 && s[0] == '%' && IsUnreserved(s[1]) && IsUnreserved(s[2])
  {
    ['%', HexUpper(b0 / 16), HexUpper(b0 % 16)]
  }

  /** `%XX` for each byte. */
  function PercentBytes(b: seq<Byte>): (s: string)
    ensures forall i :: 0 <= i < |s| ==> IsUnreserved(s[i]) || s[i] == '%'
    decreases |b|
  {
    if |b| == 0 then "" else Escape(b[0]) + PercentBytes(b[1..])
  }

  function EncodeChar(c: char): (s: string)
    ensures forall i :: 0 <= i < |s| ==> IsUnreserved(s[i]) || s[i] == '%'
  {
    if IsUnreserved(c) then [c] else PercentBytes(Utf8Char(c))
  }

  /** `encodeURIComponent(s)`. */
  function EncodeURIComponent(s: string): (r: string)
    ensures forall i :: 0 <= i < |r| ==> IsUnreserved(r[i]) || r[i] == '%'
    ensures '&' !in r && '=' !in r && '?' !in r && '#' !in r && '+' !in r && ' ' !in r
    decreases |s|
  {
    if |s| == 0 then ""
    else
      var head, tail := EncodeChar(s[0]), EncodeURIComponent(s[1..]);
      var r := head + tail;
      assert forall i :: 0 <= i < |r| ==> IsUnreserved(r[i]) || r[i] == '%' by {
        forall i | 0 <= i < |r| ensures IsUnreserved(r[i]) || r[i] == '%' {
          if i < |head| { assert r[i] == head[i]; } else { assert r[i] == tail[i - |head|]; }
        }
      }
      OnlyUnreservedOrPercent(r);
      r
  }

  /** Text of unreserved characters and `%` holds none of the characters that delimit a query. */
  lemma OnlyUnreservedOrPercent(r: string)
    requires forall i :: 0 <= i < |r| ==> IsUnreserved(r[i]) || r[i] == '%'
    ensures '&' !in r && '=' !in r && '?' !in r && '#' !in r && '+' !in r && ' ' !in r
  {
  }

  /** The bytes a percent-encoded string stands for, or None at a malformed `%` escape. */
  function PercentDecode(s: string): Option<seq<Byte>>
    decreases |s|
  {
    if |s| == 0 then Some([])
    else if s[0] == '%' then
      if |s| < 3 || HexValue(s[1]) < 0 || HexValue(s[2]) < 0 then None
      else match PercentDecode(s[3..])
        case None => None
        case Some(rest) => Some([HexValue(s[1]) * 16 + HexValue(s[2])] + rest)
    else match PercentDecode(s[1..])
      case None => None
      case Some(rest) => Some(Utf8Char(s[0]) + rest)
  }

  lemma HexUpperValue(v: nat)
    requires v < 16
    ensures HexValue(HexUpper(v)) == v
  {
  }

  /** One escape decodes to its byte, in front of what follows it. */
  lemma DecodeEscape(b0: Byte, rest: string, tail: seq<Byte>, s: string)
    requires s == Escape(b0) + rest && PercentDecode(rest) == Some(tail)
    ensures PercentDecode(s) == Some([b0] + tail)
  {
    assert s[3..] == rest;
    HexUpperValue(b0 / 16);
    HexUpperValue(b0 % 16);
  }

  lemma ConsAppend(b: seq<Byte>, tail: seq<Byte>)
    requires |b| > 0
    ensures [b[0]] + (b[1..] + tail) == b + tail
  {
    assert [b[0]] + b[1..] == b;
  }

  /** The first escape of a run decodes to the first byte, in front of what the rest decodes to. */
  lemma DecodeFirstEscape(b: seq<Byte>, rest: string, tail: seq<Byte>)
    requires |b| > 0 && PercentDecode(PercentBytes(b[1..]) + rest) == Some(b[1..] + tail)
    ensures PercentDecode(PercentBytes(b) + rest) == Some(b + tail)
  {
    var more := PercentBytes(b[1..]) + rest;
    assert PercentBytes(b) + rest == Escape(b[0]) + more;
    ConsAppend(b, tail);
    DecodeEscape(b[0], more, b[1..] + tail, PercentBytes(b) + rest);
  }

  lemma {:induction false} DecodePercentBytes(b: seq<Byte>, rest: string, tail: seq<Byte>)
    requires PercentDecode(rest) == Some(tail)
    ensures PercentDecode(PercentBytes(b) + rest) == Some(b + tail)
    decreases |b|
  {
    if |b| > 0 {
      DecodePercentBytes(b[1..], rest, tail);
      DecodeFirstEscape(b, rest, tail);
    } else {
      assert PercentBytes(b) + rest == rest;
      assert b + tail == tail;
    }
  }

  /** Round trip: decoding the encoding of a string gives its UTF-8 bytes, so nothing is lost. */
  lemma {:induction false} DecodeEncode(s: string)
    ensures PercentDecode(EncodeURIComponent(s)) == Some(Utf8(s))
    decreases |s|
  {
    if |s| > 0 {
      DecodeEncode(s[1..]);
      var rest := EncodeURIComponent(s[1..]);
      if IsUnreserved(s[0]) {
        assert ([s[0]] + rest)[1..] == rest;
      } else {
        DecodePercentBytes(Utf8Char(s[0]), rest, Utf8(s[1..]));
      }
    }
  }

  /** Text made of unreserved characters, such as a numeric id or a base64url token, is left as it is. */
  lemma {:induction false} EncodeUnreserved(s: string)
    requires forall i :: 0 <= i < |s| ==> IsUnreserved(s[i])
    ensures EncodeURIComponent(s) == s
    decreases |s|
  {
    if |s| > 0 {
      EncodeUnreserved(s[1..]);
      assert s == [s[0]] + s[1..];
    }
  }
}
