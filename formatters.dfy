/**
 * shared/formatters.js: splitting a full name into first and last name, and
 * reducing a phone number to its digits and `+` signs. Whitespace is the
 * ECMAScript set shared by `String.prototype.trim` and the regular-expression
 * class `\s` (ECMA-262, WhiteSpace and LineTerminator).
 */
module Formatters {
  import opened Common

  predicate IsSpace(c: char) {
    || '\t' <= c <= '\r'                 // tab, line feed, vertical tab, form feed, carriage return
    || c == ' ' || c == '\U{00A0}' || c == '\U{1680}'
    || '\U{2000}' <= c <= '\U{200A}'
    || c == '\U{2028}' || c == '\U{2029}' || c == '\U{202F}' || c == '\U{205F}'
    || c == '\U{3000}' || c == '\U{FEFF}'
  }

  predicate NoSpace(s: string) {
    forall i :: 0 <= i < |s| ==> !IsSpace(s[i])
  }

  /** `s` without its leading whitespace. */
  function DropSpaces(s: string): (r: string)
    ensures |r| <= |s| && r == s[|s| - |r|..]
    ensures r == "" || !IsSpace(r[0])
    ensures |s| > 0 && IsSpace(s[0]) ==> |r| < |s|
    ensures (forall i :: 0 <= i < |s| ==> IsSpace(s[i])) <==> r == ""
    decreases |s|
  {
    if |s| > 0 && IsSpace(s[0]) then DropSpaces(s[1..]) else s
  }

  /** `s` without its trailing whitespace. */
  function DropTrailingSpaces(s: string): (r: string)
    ensures |r| <= |s| && r == s[..|r|]
    ensures r == "" || !IsSpace(r[|r| - 1])
    ensures (forall i :: 0 <= i < |s| ==> IsSpace(s[i])) <==> r == ""
    decreases |s|
  {
    if |s| > 0 && IsSpace(s[|s| - 1]) then DropTrailingSpaces(s[..|s| - 1]) else s
  }

  /** `s.trim()`. */
  function Trim(s: string): (r: string)
    ensures r == "" || (!IsSpace(r[0]) && !IsSpace(r[|r| - 1]))
    ensures (forall i :: 0 <= i < |s| ==> IsSpace(s[i])) <==> r == ""
  {
    var t := DropSpaces(s);
    var r := DropTrailingSpaces(t);
    assert r != "" ==> r[0] == t[0];
    r
  }

  /** `s.split(/\s+/)`: the pieces between maximal runs of whitespace, in order. */
  function SplitWs(s: string): (parts: seq<string>)
    ensures |parts| >= 1
    ensures forall i :: 0 <= i < |parts| ==> NoSpace(parts[i])
    decreases |s|
  {
    if |s| == 0 then [""]
    else if IsSpace(s[0]) then [""] + SplitWs(DropSpaces(s))
    else
      var rest := SplitWs(s[1..]);
      [[s[0]] + rest[0]] + rest[1..]
  }

  /** An independent reading of the same text: every maximal run of whitespace replaced by one space. */
  function Squash(s: string): string
    decreases |s|
  {
    if |s| == 0 then ""
    else if IsSpace(s[0]) then " " + Squash(DropSpaces(s))
    else [s[0]] + Squash(s[1..])
  }

  lemma JoinConsHead(c: char, parts: seq<string>)
    requires |parts| >= 1
    ensures Join([[c] + parts[0]] + parts[1..], ' ') == [c] + Join(parts, ' ')
  {
    var q := [[c] + parts[0]] + parts[1..];
    assert q[1..] == parts[1..];
  }

  /** Joining the pieces of `split(/\s+/)` with single spaces squashes the whitespace runs. */
  lemma {:induction false} JoinSplitWs(s: string)
    ensures Join(SplitWs(s), ' ') == Squash(s)
    decreases |s|
  {
    if |s| > 0 {
      if IsSpace(s[0]) {
        var d := DropSpaces(s);
        JoinSplitWs(d);
        var parts := [""] + SplitWs(d);
        assert parts[1..] == SplitWs(d);
      } else {
        JoinSplitWs(s[1..]);
        JoinConsHead(s[0], SplitWs(s[1..]));
      }
    }
  }

  /** On text that does not begin or end with whitespace, no piece is empty (unless the text is). */
  lemma {:induction false} SplitWsPiecesNonEmpty(s: string)
    requires s != "" && !IsSpace(s[0]) && !IsSpace(s[|s| - 1])
    ensures forall i :: 0 <= i < |SplitWs(s)| ==> SplitWs(s)[i] != ""
    decreases |s|
  {
    var rest := SplitWs(s[1..]);
    if |s| > 1 {
      var t := s[1..];
      if IsSpace(t[0]) {
        var d := DropSpaces(t);
        assert d != "" by {
          assert !IsSpace(t[|t| - 1]);
        }
        assert d[|d| - 1] == s[|s| - 1];
        SplitWsPiecesNonEmpty(d);
        assert rest == [""] + SplitWs(d);
        assert rest[1..] == SplitWs(d);
      } else {
        SplitWsPiecesNonEmpty(t);
      }
    }
  }

  datatype Name = Name(firstname: string, lastname: string)

  /** `String(v || '')` for an optional string: absent and empty both read as "". */
  function OrEmpty(v: Option<string>): string {
    if v.Some? then v.value else ""
  }

  /** `splitFullName(fullname)`: the first word, and the remaining words joined by single spaces. */
  function SplitFullName(fullname: Option<string>): (n: Name)
    ensures NoSpace(n.firstname)
  {
    var parts := SplitWs(Trim(OrEmpty(fullname)));
    Name(parts[0], Join(parts[1..], ' '))
  }

  /** Words joined by single spaces: no whitespace but those spaces, none at either end, no two together. */
  predicate SingleSpaced(s: string) {
    && (forall i :: 0 <= i < |s| ==> IsSpace(s[i]) ==> s[i] == ' ')
    && (s != "" ==> s[0] != ' ' && s[|s| - 1] != ' ')
    && (forall i :: 0 <= i < |s| - 1 ==> !(s[i] == ' ' && s[i + 1] == ' '))
  }

  lemma {:induction false} JoinWordsSingleSpaced(words: seq<string>)
    requires forall i :: 0 <= i < |words| ==> words[i] != "" && NoSpace(words[i])
    ensures SingleSpaced(Join(words, ' '))
    ensures |words| > 0 ==> Join(words, ' ') != ""
    decreases |words|
  {
    if |words| > 1 {
      JoinWordsSingleSpaced(words[1..]);
      var w, rest := words[0], Join(words[1..], ' ');
      var j := w + [' '] + rest;
      assert Join(words, ' ') == j;
      forall i | 0 <= i < |j| - 1
        ensures !(j[i] == ' ' && j[i + 1] == ' ')
      {
        if i < |w| {
          assert j[i] == w[i];
        } else if i > |w| {
          assert j[i] == rest[i - |w| - 1] && j[i + 1] == rest[i - |w|];
        }
      }
      forall i | 0 <= i < |j| && IsSpace(j[i])
        ensures j[i] == ' '
      {
        if i > |w| {
          assert j[i] == rest[i - |w| - 1];
        }
      }
      assert !IsSpace(w[0]) && !IsSpace(rest[|rest| - 1]);
    } else if |words| == 1 {
      assert !IsSpace(words[0][0]) && !IsSpace(words[0][|words[0]| - 1]);
    }
  }

  /** The words after the first, on trimmed text: non-empty and free of whitespace. */
  lemma TailWords(t: string)
    requires t == "" || (!IsSpace(t[0]) && !IsSpace(t[|t| - 1]))
    ensures forall i :: 0 <= i < |SplitWs(t)| - 1 ==> SplitWs(t)[1..][i] != "" && NoSpace(SplitWs(t)[1..][i])
  {
    var parts := SplitWs(t);
    if t != "" {
      SplitWsPiecesNonEmpty(t);
    }
    forall i | 0 <= i < |parts| - 1
      ensures parts[1..][i] != "" && NoSpace(parts[1..][i])
    {
      assert parts[1..][i] == parts[i + 1];
    }
  }

  /** The last name has no whitespace at its ends and no runs of whitespace. */
  lemma LastNameSingleSpaced(fullname: Option<string>)
    ensures SingleSpaced(SplitFullName(fullname).lastname)
  {
    var t := Trim(OrEmpty(fullname));
    TailWords(t);
    JoinWordsSingleSpaced(SplitWs(t)[1..]);
  }

  /** Absent, empty and whitespace-only names give two empty parts, and only they give an empty first name. */
  lemma {:induction false} BlankName(fullname: Option<string>)
    ensures SplitFullName(fullname).firstname == "" <==>
      (forall i :: 0 <= i < |OrEmpty(fullname)| ==> IsSpace(OrEmpty(fullname)[i]))
    ensures SplitFullName(fullname).firstname == "" ==> SplitFullName(fullname) == Name("", "")
  {
    var t := Trim(OrEmpty(fullname));
    if t != "" {
      SplitWsPiecesNonEmpty(t);
    }
  }

  /**
   * Nothing is lost but whitespace: the first name, then a space and the last
   * name when there is one, is the trimmed input with each whitespace run
   * squashed to one space.
   */
  lemma {:induction false} NameReassembles(fullname: Option<string>)
    ensures var n := SplitFullName(fullname);
      n.firstname + (if n.lastname != "" then " " + n.lastname else "") == Squash(Trim(OrEmpty(fullname)))
  {
    var t := Trim(OrEmpty(fullname));
    var parts := SplitWs(t);
    JoinSplitWs(t);
    if t != "" {
      SplitWsPiecesNonEmpty(t);
    }
    if |parts| > 1 {
      JoinWordsSingleSpaced(parts[1..]);
      assert Join(parts[1..], ' ') != "" by {
        assert parts[1..][0] == parts[1] != "";
      }
    }
  }

  /** The characters `normalizePhone` keeps: ASCII digits (`\d`) and `+`. */
  predicate IsPhoneChar(c: char) {
    IsAsciiDigit(c) || c == '+'
  }

  function KeepPhoneChars(s: string): (r: string)
    ensures |r| <= |s|
    ensures forall i :: 0 <= i < |r| ==> IsPhoneChar(r[i])
    decreases |s|
  {
    if |s| == 0 then ""
    else if IsPhoneChar(s[0]) then [s[0]] + KeepPhoneChars(s[1..])
    else KeepPhoneChars(s[1..])
  }

  /** `normalizePhone(phone)`: every character other than a digit or `+` removed. */
  function NormalizePhone(phone: Option<string>): (r: string)
    ensures |r| <= |OrEmpty(phone)|
    ensures forall i :: 0 <= i < |r| ==> IsPhoneChar(r[i])
  {
    KeepPhoneChars(OrEmpty(phone))
  }

  /** Order is kept: the result for a concatenation is the concatenation of the results. */
  lemma {:induction false} KeepPhoneCharsAppend(a: string, b: string)
    ensures KeepPhoneChars(a + b) == KeepPhoneChars(a) + KeepPhoneChars(b)
    decreases |a|
  {
    if |a| > 0 {
      assert (a + b)[1..] == a[1..] + b;
      KeepPhoneCharsAppend(a[1..], b);
    } else {
      assert a + b == b;
    }
  }

  /** Text made of digits and `+` is left alone. */
  lemma {:induction false} KeepPhoneCharsKeepsAll(s: string)
    requires forall i :: 0 <= i < |s| ==> IsPhoneChar(s[i])
    ensures KeepPhoneChars(s) == s
    decreases |s|
  {
    if |s| > 0 {
      KeepPhoneCharsKeepsAll(s[1..]);
      assert s == [s[0]] + s[1..];
    }
  }

  /** Each kept character occurs as often as in the input; every other character is gone. */
  lemma {:induction false} KeepPhoneCharsCounts(s: string, c: char)
    ensures multiset(KeepPhoneChars(s))[c] == if IsPhoneChar(c) then multiset(s)[c] else 0
    decreases |s|
  {
    if |s| > 0 {
      KeepPhoneCharsCounts(s[1..], c);
      assert s == [s[0]] + s[1..];
      assert multiset(s) == multiset([s[0]]) + multiset(s[1..]);
    }
  }

  /** Normalising twice is normalising once. */
  lemma NormalizePhoneIdempotent(phone: Option<string>)
    ensures NormalizePhone(Some(NormalizePhone(phone))) == NormalizePhone(phone)
  {
    KeepPhoneCharsKeepsAll(NormalizePhone(phone));
  }
}
