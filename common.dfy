/**
 * Values and JavaScript string built-ins shared by the rest of the model:
 * Option/Result, bytes, `String.prototype.split` on one character,
 * `Array.prototype.join`, the global character replacements used by the
 * base64url helpers, and the UTF-8 encoding Node's `Buffer.from(string)` uses.
 */
module Common {

  datatype Option<+T> = None | Some(value: T)

  datatype Result<+T, +E> = Success(value: T) | Failure(error: E)

  type Byte = x: int | 0 <= x < 256

  /** A SHA-256 digest: 32 bytes. */
  type Digest = s: seq<Byte> | |s| == 32 witness seq(32, i => 0)

  /** HMAC-SHA256 (RFC 2104) of the UTF-8 text `message` under `key`: a foreign primitive, left uninterpreted. */
  type Hmac = (string, string) -> Digest

  predicate IsAsciiDigit(c: char) {
    '0' <= c <= '9'
  }

  /**
   * `process.env.ACCEPT_TOKEN_SECRET || 'dev_secret'`, read alike by the two
   * token schemes and both handlers; the empty string stands for an unset variable.
   */
  function SecretFrom(env: string): (secret: string)
    ensures secret != ""
    ensures env != "" ==> secret == env
  {
    if env != "" then env else "dev_secret"
  }

  /** The position of the first key that fails `ok`, as a `for ... of` loop with an early exit finds it. */
  function FirstFailing(keys: seq<string>, ok: string -> bool): (r: Option<nat>)
    ensures r.Some? ==> r.value < |keys| && !ok(keys[r.value]) && forall j :: 0 <= j < r.value ==> ok(keys[j])
    ensures r.None? <==> forall j :: 0 <= j < |keys| ==> ok(keys[j])
    ensures forall i :: 0 <= i < |keys| && !ok(keys[i]) && (forall j :: 0 <= j < i ==> ok(keys[j])) ==> r == Some(i)
    decreases |keys|
  {
    if |keys| == 0 then None
    else if !ok(keys[0]) then Some(0)
    else match FirstFailing(keys[1..], ok)
      case None => None
      case Some(i) => Some(i + 1)
  }

  /** `s.split(sep)` for a one-character separator: the pieces between separators, in order. */
  function Split(s: string, sep: char): (parts: seq<string>)
    ensures |parts| >= 1
    ensures forall i :: 0 <= i < |parts| ==> sep !in parts[i]
    decreases |s|
  {
    if |s| == 0 then [""]
    else
      var rest := Split(s[1..], sep);
      if s[0] == sep then [""] + rest
      else [[s[0]] + rest[0]] + rest[1..]
  }

  /** `parts.join(sep)` for a one-character separator. */
  function Join(parts: seq<string>, sep: char): string
  {
    if |parts| == 0 then ""
    else if |parts| == 1 then parts[0]
    else parts[0] + [sep] + Join(parts[1..], sep)
  }

  /** A string without the separator splits into itself alone. */
  lemma {:induction false} SplitWithoutSep(s: string, sep: char)
    requires sep !in s
    ensures Split(s, sep) == [s]
    decreases |s|
  {
    if |s| > 0 {
      SplitWithoutSep(s[1..], sep);
      assert [s[0]] + s[1..] == s;
    }
  }

  /** There is more than one piece exactly when the separator occurs. */
  lemma {:induction false} SplitCount(s: string, sep: char)
    ensures |Split(s, sep)| == 1 <==> sep !in s
    decreases |s|
  {
    if |s| > 0 {
      SplitCount(s[1..], sep);
      assert sep in s <==> s[0] == sep || sep in s[1..];
    }
  }

  /** Splitting distributes over a separator: the pieces of `a`, then the pieces of `b`. */
  lemma {:induction false} SplitAppend(a: string, sep: char, b: string)
    ensures Split(a + [sep] + b, sep) == Split(a, sep) + Split(b, sep)
    decreases |a|
  {
    if |a| == 0 {
      assert a + [sep] + b == [sep] + b;
      SplitSep(b, sep);
    } else {
      var t := a[1..] + [sep] + b;
      assert a + [sep] + b == [a[0]] + t;
      assert a == [a[0]] + a[1..];
      SplitAppend(a[1..], sep, b);
      if a[0] == sep {
        SplitSep(t, sep);
        SplitSep(a[1..], sep);
      } else {
        SplitOther(a[0], t, sep);
        SplitOther(a[0], a[1..], sep);
        JoinsFirst([a[0]], Split(a[1..], sep), Split(b, sep));
      }
    }
  }

  /** A separator in front opens a new, empty, first piece. */
  lemma SplitSep(t: string, sep: char)
    ensures Split([sep] + t, sep) == [""] + Split(t, sep)
  {
    assert ([sep] + t)[1..] == t;
  }

  /** Any other character in front joins the first piece. */
  lemma SplitOther(c: char, t: string, sep: char)
    requires c != sep
    ensures Split([c] + t, sep) == [[c] + Split(t, sep)[0]] + Split(t, sep)[1..]
  {
    assert ([c] + t)[0] == c && ([c] + t)[1..] == t;
  }

  lemma JoinsFirst<T>(c: seq<T>, x: seq<seq<T>>, y: seq<seq<T>>)
    requires |x| >= 1
    ensures [c + (x + y)[0]] + (x + y)[1..] == ([c + x[0]] + x[1..]) + y
  {
    assert (x + y)[1..] == x[1..] + y;
  }

  /** Joining pieces that hold no separator and splitting again gives the pieces back. */
  lemma {:induction false} SplitJoin(parts: seq<string>, sep: char)
    requires |parts| >= 1
    requires forall i :: 0 <= i < |parts| ==> sep !in parts[i]
    ensures Split(Join(parts, sep), sep) == parts
    decreases |parts|
  {
    if |parts| == 1 {
      SplitWithoutSep(parts[0], sep);
    } else {
      SplitJoin(parts[1..], sep);
      SplitAppend(parts[0], sep, Join(parts[1..], sep));
      SplitWithoutSep(parts[0], sep);
      assert [parts[0]] + parts[1..] == parts;
    }
  }

  /** Three pieces without the separator, joined by it, split back into those three. */
  lemma SplitThree(a: string, b: string, c: string, sep: char)
    requires sep !in a && sep !in b && sep !in c
    ensures Split(a + [sep] + b + [sep] + c, sep) == [a, b, c]
  {
    SplitAppend(a + [sep] + b, sep, c);
    SplitAppend(a, sep, b);
    SplitWithoutSep(a, sep);
    SplitWithoutSep(b, sep);
    SplitWithoutSep(c, sep);
  }

  /** `s.replace(/from/g, to)` for single characters. */
  function ReplaceChar(s: string, from: char, to: char): (r: string)
  {
    seq(|s|, i requires 0 <= i < |s| => if s[i] == from then to else s[i])
  }

  /** `s.replace(/c/g, '')`: every occurrence of `c` deleted. */
  function RemoveChar(s: string, c: char): (r: string)
    ensures c !in r
    ensures forall x :: x != c && x in r ==> x in s
    decreases |s|
  {
    if |s| == 0 then ""
    else if s[0] == c then RemoveChar(s[1..], c)
    else [s[0]] + RemoveChar(s[1..], c)
  }

  lemma {:induction false} RemoveCharAppend(a: string, b: string, c: char)
    ensures RemoveChar(a + b, c) == RemoveChar(a, c) + RemoveChar(b, c)
    decreases |a|
  {
    if |a| > 0 {
      assert (a + b)[1..] == a[1..] + b;
      RemoveCharAppend(a[1..], b, c);
    } else {
      assert a + b == b;
    }
  }

  lemma {:induction false} RemoveCharAbsent(s: string, c: char)
    requires c !in s
    ensures RemoveChar(s, c) == s
    decreases |s|
  {
    if |s| > 0 {
      RemoveCharAbsent(s[1..], c);
      assert [s[0]] + s[1..] == s;
    }
  }

  /** The UTF-8 encoding of one Unicode scalar value (RFC 3629, section 3). */
  function Utf8Char(c: char): (b: seq<Byte>)
    ensures 1 <= |b| <= 4
    ensures |b| == 1 <==> c as int < 0x80
    ensures |b| == 1 ==> b[0] == c as int
    ensures |b| > 1 ==> b[0] >= 0xC0
  {
    var cp := c as int;
    if cp < 0x80 then [cp] else Utf8Multi(cp)
  }

  /** The two, three or four bytes of a code point past ASCII: a lead byte, then six bits per continuation byte. */
  function Utf8Multi(cp: int): (b: seq<Byte>)
    requires 0x80 <= cp < 0x110000
    ensures 2 <= |b| <= 4 && b[0] >= 0xC0
  {
    if cp < 0x800 then [0xC0 + cp / 64, 0x80 + cp % 64]
    else if cp < 0x10000 then [0xE0 + cp / 4096, 0x80 + (cp / 64) % 64, 0x80 + cp % 64]
    else [0xF0 + cp / 0x40000, 0x80 + (cp / 4096) % 64, 0x80 + (cp / 64) % 64, 0x80 + cp % 64]
  }

  /** `Buffer.from(s)`: the UTF-8 bytes of a string. */
  function Utf8(s: string): (b: seq<Byte>)
    ensures |b| >= |s|
    decreases |s|
  {
    if |s| == 0 then [] else Utf8Char(s[0]) + Utf8(s[1..])
  }

  predicate IsAscii(s: string) {
    forall i :: 0 <= i < |s| ==> s[i] as int < 0x80
  }

  /** On ASCII text UTF-8 is one byte per character, so the lengths agree. */
  lemma {:induction false} Utf8Ascii(s: string)
    requires IsAscii(s)
    ensures |Utf8(s)| == |s|
    ensures forall i :: 0 <= i < |s| ==> Utf8(s)[i] == s[i] as int
    decreases |s|
  {
    if |s| > 0 {
      Utf8Ascii(s[1..]);
    }
  }

  /**
   * UTF-8 does not confuse any text with ASCII text: if some string encodes to
   * the same bytes as an ASCII string, it is that string.
   */
  lemma {:induction false} Utf8MatchesAscii(s: string, t: string)
    requires IsAscii(t)
    requires Utf8(s) == Utf8(t)
    ensures s == t
    decreases |s|
  {
    Utf8Ascii(t);
    if |s| > 0 {
      assert |t| > 0;
      var head := Utf8Char(s[0]);
      assert Utf8(s)[0] == head[0];
      assert head[0] == t[0] as int < 0x80;
      assert |head| == 1;
      assert Utf8(s) == [s[0] as int] + Utf8(s[1..]);
      assert Utf8(t) == [t[0] as int] + Utf8(t[1..]);
      assert Utf8(s)[1..] == Utf8(s[1..]) && Utf8(t)[1..] == Utf8(t[1..]);
      Utf8MatchesAscii(s[1..], t[1..]);
      assert s[0] == t[0];
      assert s == [s[0]] + s[1..] && t == [t[0]] + t[1..];
    }
  }

  /** `s.toUpperCase()` on ASCII letters. */
  function AsciiUpper(s: string): (r: string)
  {
    seq(|s|, i requires 0 <= i < |s| => if 'a' <= s[i] <= 'z' then (s[i] as int - 32) as char else s[i])
  }

  /** `s.replace(pat, rep)` with a string pattern: only the first occurrence is replaced. */
  function ReplaceFirst(s: string, pat: string, rep: string): (r: string)
    requires |pat| > 0
    decreases |s|
  {
    if |s| < |pat| then s
    else if s[..|pat|] == pat then rep + s[|pat|..]
    else [s[0]] + ReplaceFirst(s[1..], pat, rep)
  }
}
