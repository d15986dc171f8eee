/**
 Decimal integers as the range handler uses them: `int(part)` to read a
 bound, `str(i)` to render each index, and `range(a, b + 1)` between.
 */
module Decimal {
  import opened Wrappers
  import opened Text

  function DigitValue(c: char): (d: nat)
    requires IsDigit(c)
    ensures d < 10
  {
    (c as int) - ('0' as int)
  }

  function DigitChar(d: nat): (c: char)
    requires d < 10
    ensures IsDigit(c) && DigitValue(c) == d
  {
    ('0' as int + d) as char
  }

  /** The number a string of digits denotes (0 for the empty string). */
  function Value(s: string): nat
    requires AllDigits(s)
    decreases |s|
  {
    if s == [] then 0 else 10 * Value(s[..|s| - 1]) + DigitValue(s[|s| - 1])
  }

  /** The form `str` gives a non-negative integer: digits, no leading zero except in "0". */
  predicate Canonical(s: string) {
    IsDigits(s) && (s[0] == '0' ==> |s| == 1)
  }

  /** `str(n)` for a non-negative integer. */
  function NatToString(n: nat): (r: string)
    ensures Canonical(r)
    ensures Value(r) == n
    decreases n
  {
    if n < 10 then [DigitChar(n)]
    else
      var p := NatToString(n / 10);
      var r := p + [DigitChar(n % 10)];
      assert r[..|r| - 1] == p;
      r
  }

  /** `int(s)` restricted to unsigned decimal digit strings; anything else is `None`. */
  function ParseNat(s: string): (r: Option<nat>)
    ensures r.Some? <==> IsDigits(s)
  {
    if IsDigits(s) then Some(Value(s)) else None
  }

  /** The renderings of a, a+1, ..., b in ascending order: an inclusive integer range, empty when a > b. */
  function RangeList(a: nat, b: nat): (r: seq<string>)
    ensures |r| == if a <= b then b - a + 1 else 0
    ensures forall i :: 0 <= i < |r| ==> r[i] == NatToString(a + i)
    decreases if a <= b then b - a + 1 else 0
  {
    if a > b then [] else [NatToString(a)] + RangeList(a + 1, b)
  }

  /** Reading back a rendered number gives the number. */
  lemma NatRoundTrip(n: nat)
    ensures ParseNat(NatToString(n)) == Some(n)
  {
  }

  /** A digit string whose first digit is not zero denotes a positive number. */
  lemma {:induction false} LeadingNonZeroPositive(s: string)
    requires IsDigits(s) && s[0] != '0'
    ensures Value(s) > 0
  {
    if |s| > 1 {
      var p := s[..|s| - 1];
      assert p[0] == s[0];
      LeadingNonZeroPositive(p);
    }
  }

  /** Rendering the value of a canonical digit string gives the string back. */
  lemma {:induction false} CanonicalRoundTrip(s: string)
    requires Canonical(s)
    ensures NatToString(Value(s)) == s
  {
    var n := Value(s);
    var p := s[..|s| - 1];
    if |s| == 1 {
      assert p == [] && Value(p) == 0;
      assert n == DigitValue(s[0]);
      assert NatToString(n) == [DigitChar(n)];
    } else {
      assert p[0] == s[0];
      LeadingNonZeroPositive(p);
      CanonicalRoundTrip(p);
      assert n / 10 == Value(p);
      assert n % 10 == DigitValue(s[|s| - 1]);
      assert s == p + [s[|s| - 1]];
    }
  }

  /** The rendered range climbs strictly by numeric value. */
  lemma RangeListAscending(a: nat, b: nat)
    ensures forall i, j :: 0 <= i < j < |RangeList(a, b)| ==> Value(RangeList(a, b)[i]) < Value(RangeList(a, b)[j])
  {
  }
}
