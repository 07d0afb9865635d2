/**
 * Decimal text for natural numbers: `String(n)` for the CRM's numeric record
 * ids and HTTP status codes, and the matching parser that resolves an id
 * string (such as the `d` query parameter) back to a record.
 */
module Decimal {
  import opened Common

  function DigitChar(d: nat): (c: char)
    requires d < 10
    ensures IsAsciiDigit(c)
  {
    ('0' as int + d) as char
  }

  function DigitValue(c: char): (d: nat)
    requires IsAsciiDigit(c)
    ensures d < 10
  {
    c as int - '0' as int
  }

  /** `String(n)`: base-10 digits, most significant first, no leading zero. */
  function Show(n: nat): (s: string)
    ensures |s| >= 1
    ensures forall i :: 0 <= i < |s| ==> IsAsciiDigit(s[i])
    decreases n
  {
    if n < 10 then [DigitChar(n)] else Show(n / 10) + [DigitChar(n % 10)]
  }

  /** The number a string of digits denotes. */
  function Value(s: string): nat
    requires forall i :: 0 <= i < |s| ==> IsAsciiDigit(s[i])
    decreases |s|
  {
    if |s| == 0 then 0 else Value(s[..|s| - 1]) * 10 + DigitValue(s[|s| - 1])
  }

  /** The canonical spelling of a number: digits only, and no leading zero unless it is "0". */
  predicate IsCanonical(s: string) {
    && |s| >= 1
    && (forall i :: 0 <= i < |s| ==> IsAsciiDigit(s[i]))
    && (s[0] == '0' ==> |s| == 1)
  }

  /** Resolves an id string to the number it spells, or None when it is not a canonical spelling. */
  function Parse(s: string): (r: Option<nat>)
    ensures r.Some? <==> IsCanonical(s)
  {
    if IsCanonical(s) then Some(Value(s)) else None
  }

  lemma {:induction false} ShowIsCanonical(n: nat)
    ensures IsCanonical(Show(n))
    ensures Value(Show(n)) == n
    decreases n
  {
    var s := Show(n);
    if n >= 10 {
      ShowIsCanonical(n / 10);
      assert s[..|s| - 1] == Show(n / 10);
      assert s[0] == Show(n / 10)[0];
    }
  }

  lemma {:induction false} LeadingDigitPositive(s: string)
    requires IsCanonical(s) && |s| >= 2
    ensures Value(s) >= 10
    decreases |s|
  {
    var init := s[..|s| - 1];
    if |init| >= 2 {
      assert init[0] == s[0];
      LeadingDigitPositive(init);
    } else {
      assert init == [s[0]];
      assert Value(init) == DigitValue(s[0]) >= 1;
    }
  }

  lemma {:induction false} ValueShow(s: string)
    requires IsCanonical(s)
    ensures Show(Value(s)) == s
    decreases |s|
  {
    if |s| >= 2 {
      var init := s[..|s| - 1];
      assert init[0] == s[0];
      assert IsCanonical(init);
      ValueShow(init);
      if |init| >= 2 {
        LeadingDigitPositive(init);
      } else {
        assert Value(init) == DigitValue(s[0]) >= 1;
      }
      var n := Value(s);
      assert n / 10 == Value(init) && n % 10 == DigitValue(s[|s| - 1]);
      assert s == init + [s[|s| - 1]];
    }
  }

  /** Parsing undoes printing: every number comes back from its own spelling. */
  lemma ParseShow(n: nat)
    ensures Parse(Show(n)) == Some(n)
  {
    ShowIsCanonical(n);
  }

  /** A string parses to `n` exactly when it is `n`'s spelling, so id lookup is exact. */
  lemma ParseIsShow(s: string, n: nat)
    ensures Parse(s) == Some(n) <==> s == Show(n)
  {
    ShowIsCanonical(n);
    if Parse(s) == Some(n) {
      ValueShow(s);
    }
  }

  /** Different numbers are spelled differently. */
  lemma ShowInjective(m: nat, n: nat)
    ensures Show(m) == Show(n) <==> m == n
  {
    ParseShow(m);
    ParseShow(n);
  }
}
