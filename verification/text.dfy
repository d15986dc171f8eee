/**
 Character classes and string operations that the title code borrows from
 Python's `str`: `isdigit`, `strip`, `find`, slicing and `split`.
 */
module Text {

  /** An ASCII decimal digit. */
  predicate IsDigit(c: char) {
    '0' <= c <= '9'
  }

  /** Every character is a digit (true of the empty string). */
  predicate AllDigits(s: string) {
    forall i :: 0 <= i < |s| ==> IsDigit(s[i])
  }

  /** `str.isdigit` over ASCII: non-empty and made of digits only. */
  predicate IsDigits(s: string) {
    |s| > 0 && AllDigits(s)
  }

  /** The characters `str.isspace` accepts, which `str.strip` removes. */
  predicate IsSpace(c: char) {
    || c == ' '
    || '\t' <= c <= '\r'
    || '\U{1C}' <= c <= '\U{1F}'
    || c == '\U{85}'
    || c == '\U{A0}'
    || c == '\U{1680}'
    || '\U{2000}' <= c <= '\U{200A}'
    || c == '\U{2028}'
    || c == '\U{2029}'
    || c == '\U{202F}'
    || c == '\U{205F}'
    || c == '\U{3000}'
  }

  predicate AllSpace(s: string) {
    forall i :: 0 <= i < |s| ==> IsSpace(s[i])
  }

  /** Number of whitespace characters at the start of `s`. */
  function LeadingSpaces(s: string): (n: nat)
    ensures n <= |s|
    ensures AllSpace(s[..n])
    ensures n < |s| ==> !IsSpace(s[n])
  {
    if s == [] || !IsSpace(s[0]) then 0 else 1 + LeadingSpaces(s[1..])
  }

  /** Number of whitespace characters at the end of `s`. */
  function TrailingSpaces(s: string): (n: nat)
    ensures n <= |s|
    ensures AllSpace(s[|s| - n..])
    ensures n < |s| ==> !IsSpace(s[|s| - n - 1])
  {
    if s == [] || !IsSpace(s[|s| - 1]) then 0 else 1 + TrailingSpaces(s[..|s| - 1])
  }

  /** `r` is the slice of `s` starting at `i` with only whitespace cut off on either side. */
  predicate TrimmedAt(s: string, i: int, r: string) {
    && 0 <= i
    && i + |r| <= |s|
    && r == s[i..i + |r|]
    && AllSpace(s[..i])
    && AllSpace(s[i + |r|..])
  }

  /** `str.strip()`: `s` without its leading and trailing whitespace. */
  function Strip(s: string): (r: string)
    ensures |r| <= |s|
    ensures exists i :: TrimmedAt(s, i, r)
    ensures r == [] || (!IsSpace(r[0]) && !IsSpace(r[|r| - 1]))
  {
    var i := LeadingSpaces(s);
    var t := s[i..];
    var r := t[..|t| - TrailingSpaces(t)];
    assert s[i..i + |r|] == r;
    assert s[i + |r|..] == t[|t| - TrailingSpaces(t)..];
    assert TrimmedAt(s, i, r);
    r
  }

  /** A string already free of whitespace at both ends is its own strip. */
  lemma StripUnchanged(s: string)
    requires s == [] || (!IsSpace(s[0]) && !IsSpace(s[|s| - 1]))
    ensures Strip(s) == s
  {
    assert s[0..] == s;
  }

  /** Every character of `s` is either whitespace or a character of `Strip(s)`. */
  lemma StripCovers(s: string, k: int)
    requires 0 <= k < |s| && !IsSpace(s[k])
    ensures s[k] in Strip(s)
  {
    var r := Strip(s);
    var i :| TrimmedAt(s, i, r);
    assert i <= k < i + |r|;
    assert r[k - i] == s[k];
  }

  /** `Strip` applied to every element, order kept. */
  function StripAll(ps: seq<string>): (r: seq<string>)
    ensures |r| == |ps|
    ensures forall i :: 0 <= i < |r| ==> r[i] == Strip(ps[i])
  {
    seq(|ps|, i requires 0 <= i < |ps| => Strip(ps[i]))
  }

  /** Pieces already free of surrounding whitespace are left alone by `StripAll`. */
  lemma StripAllUnchanged(ps: seq<string>)
    requires forall i :: 0 <= i < |ps| ==> ps[i] == [] || (!IsSpace(ps[i][0]) && !IsSpace(ps[i][|ps[i]| - 1]))
    ensures StripAll(ps) == ps
  {
    forall i | 0 <= i < |ps| ensures Strip(ps[i]) == ps[i] {
      StripUnchanged(ps[i]);
    }
  }

  /** `str.find` with one character: the first index of `c`, or -1. */
  function FirstIndex(s: string, c: char): (r: int)
    ensures -1 <= r < |s|
    ensures r == -1 <==> c !in s
    ensures 0 <= r ==> s[r] == c && c !in s[..r]
  {
    if s == [] then -1
    else if s[0] == c then 0
    else
      var k := FirstIndex(s[1..], c);
      assert s == [s[0]] + s[1..];
      if k == -1 then -1
      else
        assert s[..k + 1] == [s[0]] + s[1..][..k];
        k + 1
  }

  /** How Python resolves a slice bound `n` against a string of length `len`. */
  function ClampIndex(n: int, len: nat): (k: nat)
    ensures k <= len
  {
    if n < 0 then (if n + len < 0 then 0 else n + len)
    else if n > len then len
    else n
  }

  /** Python's `s[lo:hi]` with a step of one: negative bounds count from the end, out-of-range bounds are clamped. */
  function PySlice(s: string, lo: int, hi: int): (r: string)
    ensures |r| <= |s|
    ensures 0 <= lo <= hi <= |s| ==> r == s[lo..hi]
    ensures lo < 0 <= hi <= lo + |s| ==> r == []
    ensures |s| <= lo ==> r == []
  {
    var a := ClampIndex(lo, |s|);
    var b := ClampIndex(hi, |s|);
    if a < b then s[a..b] else []
  }

  /** Number of occurrences of `c` in `s`. */
  function Count(s: string, c: char): (n: nat)
    ensures n <= |s|
    ensures n == 0 <==> c !in s
  {
    if s == [] then 0
    else
      assert s == [s[0]] + s[1..];
      (if s[0] == c then 1 else 0) + Count(s[1..], c)
  }

  /** `str.split(c)`: the pieces of `s` between occurrences of `c`, empty pieces kept. */
  function Split(s: string, c: char): (r: seq<string>)
    ensures |r| == Count(s, c) + 1
    ensures forall i :: 0 <= i < |r| ==> c !in r[i]
  {
    if s == [] then [[]]
    else
      var rest := Split(s[1..], c);
      if s[0] == c then [[]] + rest
      else [[s[0]] + rest[0]] + rest[1..]
  }

  /** `c.join(ps)`: the pieces glued back together with `c` between neighbours. */
  function Join(ps: seq<string>, c: char): string
    requires |ps| > 0
  {
    if |ps| == 1 then ps[0] else ps[0] + [c] + Join(ps[1..], c)
  }

  /** Joining the pieces of a split gives back the original string. */
  lemma {:induction false} SplitJoin(s: string, c: char)
    ensures Join(Split(s, c), c) == s
  {
    if s != [] {
      var rest := Split(s[1..], c);
      SplitJoin(s[1..], c);
      if s[0] == c {
        assert Split(s, c) == [[]] + rest;
        assert Split(s, c)[1..] == rest;
      } else {
        var r := Split(s, c);
        assert r == [[s[0]] + rest[0]] + rest[1..];
        if |rest| == 1 {
          assert Join(rest, c) == rest[0];
        } else {
          assert r[1..] == rest[1..];
          assert Join(rest, c) == rest[0] + [c] + Join(rest[1..], c);
        }
      }
    }
  }

  /** A string without `c` splits into itself alone. */
  lemma {:induction false} SplitWithout(a: string, c: char)
    requires c !in a
    ensures Split(a, c) == [a]
  {
    if a != [] {
      assert c !in a[1..] by { assert a == [a[0]] + a[1..]; }
      SplitWithout(a[1..], c);
      assert [a[0]] + a[1..] == a;
    }
  }

  /** Splitting `a + [c] + b`, where `a` has no `c`, yields `a` followed by the pieces of `b`. */
  lemma {:induction false} SplitAfterFirst(a: string, b: string, c: char)
    requires c !in a
    ensures Split(a + [c] + b, c) == [a] + Split(b, c)
  {
    var s := a + [c] + b;
    if a == [] {
      assert s[1..] == b;
    } else {
      assert s[1..] == a[1..] + [c] + b;
      assert c !in a[1..] by { assert a == [a[0]] + a[1..]; }
      SplitAfterFirst(a[1..], b, c);
      assert [a[0]] + a[1..] == a;
    }
  }

  /** Splitting undoes joining, provided no piece contains the separator. */
  lemma {:induction false} JoinSplit(ps: seq<string>, c: char)
    requires |ps| > 0
    requires forall i :: 0 <= i < |ps| ==> c !in ps[i]
    ensures Split(Join(ps, c), c) == ps
  {
    if |ps| == 1 {
      SplitWithout(ps[0], c);
    } else {
      JoinSplit(ps[1..], c);
      SplitAfterFirst(ps[0], Join(ps[1..], c), c);
      assert [ps[0]] + ps[1..] == ps;
    }
  }

  /** Each piece of a split, plus the number of separators removed, fits in the original. */
  lemma {:induction false} SplitPieceBound(s: string, c: char)
    ensures forall i :: 0 <= i < |Split(s, c)| ==> |Split(s, c)[i]| + Count(s, c) <= |s|
  {
    if s != [] {
      SplitPieceBound(s[1..], c);
    }
  }

  /** When `c` occurs in `s`, every piece of `Split(s, c)` is strictly shorter than `s`. */
  lemma SplitShorter(s: string, c: char)
    requires c in s
    ensures forall i :: 0 <= i < |Split(s, c)| ==> |Split(s, c)[i]| < |s|
  {
    SplitPieceBound(s, c);
  }
}
