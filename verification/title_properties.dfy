/**
 What the title classifier and expander promise, stated over the model in
 `Titles`: the multi-table flag, the classification cascade read as a set of
 independent conditions, and the expansion of each shape.
 */
module TitleProperties {
  import opened Wrappers
  import opened Text
  import opened Decimal
  import opened Titles

  // ---------------------------------------------------------------------
  // Multi-table mode
  // ---------------------------------------------------------------------

  /** `FirstIndex` finds exactly the first occurrence. */
  lemma FirstIndexAt(s: string, c: char, i: int)
    requires 0 <= i < |s| && s[i] == c && c !in s[..i]
    ensures FirstIndex(s, c) == i
  {
  }

  /**
   With the first dash at `i`, the mode is false exactly when the characters
   just before and just after it are both digits; a dash at either end of the
   title always gives true, since the slice there is empty.
   */
  lemma ModeAtFirstDash(s: string, i: int)
    requires 0 <= i < |s| && s[i] == Dash && Dash !in s[..i]
    ensures MultiTableMode(s) <==> !(0 < i < |s| - 1 && IsDigit(s[i - 1]) && IsDigit(s[i + 1]))
    ensures i == 0 || i == |s| - 1 ==> MultiTableMode(s)
  {
    FirstIndexAt(s, Dash, i);
  }

  /** Without a dash the mode is false. */
  lemma ModeWithoutDash(s: string)
    requires Dash !in s
    ensures !MultiTableMode(s)
  {
  }

  // ---------------------------------------------------------------------
  // Classification
  // ---------------------------------------------------------------------

  /** A title that strips to digits holds no dash and no separator. */
  lemma DigitsExcludeMarks(s: string)
    requires IsDigits(Strip(s))
    ensures Dash !in s && !HasSeparator(s)
  {
    forall k | 0 <= k < |s|
      ensures s[k] != Dash && s[k] != EnumerationMark && s[k] != Comma && s[k] != FullWidthComma
    {
      if !IsSpace(s[k]) {
        StripCovers(s, k);
      }
    }
  }

  /** A title is rejected exactly when it has no dash, no separator, and does not strip to digits. */
  lemma ClassifyRejectsIff(s: string)
    ensures Classify(s).Failure? <==> Dash !in s && !HasSeparator(s) && !IsDigits(Strip(s))
    ensures Classify(s).Failure? ==> Classify(s).error == UnsupportedTitle(s)
  {
  }

  /** Mixed: some separator, a dash, and mode false. */
  lemma ClassifyMixedIff(s: string)
    ensures Classify(s) == Success(Mixed(s)) <==> HasSeparator(s) && Dash in s && !MultiTableMode(s)
  {
  }

  /** Single: the title strips to digits, or it is a mode-true dash title without separators. */
  lemma ClassifySingleIff(s: string)
    ensures Classify(s) == Success(Single(s))
        <==> IsDigits(Strip(s)) || (Dash in s && MultiTableMode(s) && !HasSeparator(s))
  {
    if IsDigits(Strip(s)) {
      DigitsExcludeMarks(s);
    }
  }

  /** Range: a dash with digits on both sides of the first one, and no separator. */
  lemma ClassifyRangeIff(s: string)
    ensures Classify(s) == Success(Range(s)) <==> Dash in s && !MultiTableMode(s) && !HasSeparator(s)
  {
    if IsDigits(Strip(s)) {
      DigitsExcludeMarks(s);
    }
  }

  /**
   Enumerated: a separator and no range dash; the separator kept is the first
   of "、", ",", "，" that occurs.
   */
  lemma ClassifyEnumeratedIff(s: string)
    ensures Classify(s).Success? && Classify(s).value.Enumerated?
        <==> HasSeparator(s) && (Dash !in s || MultiTableMode(s))
    ensures Classify(s).Success? && Classify(s).value.Enumerated? ==>
      var c := Classify(s).value.separator;
      && c in s
      && (c == EnumerationMark || (EnumerationMark !in s && (c == Comma || (Comma !in s && c == FullWidthComma))))
  {
    if IsDigits(Strip(s)) {
      DigitsExcludeMarks(s);
    }
  }

  /** A non-empty title is parsed by expanding the shape it is classified as. */
  lemma ParseClassified(s: string)
    requires s != [] && Classify(s).Success?
    ensures Parse(s) == Expand(Classify(s).value)
  {
  }

  /** A non-empty title that no rule matches fails with the classification error. */
  lemma ParseClassifiedFailure(s: string)
    requires s != [] && Classify(s).Failure?
    ensures Parse(s) == Failure(UnsupportedTitle(s))
  {
  }

  // ---------------------------------------------------------------------
  // Single
  // ---------------------------------------------------------------------

  /** A title that strips to digits expands to itself, verbatim. */
  lemma ParseDigitsSingle(s: string)
    requires IsDigits(Strip(s))
    ensures Parse(s) == Success([s])
  {
    DigitsExcludeMarks(s);
  }

  /** A mode-true dash title without separators, such as "A-1", expands to itself, verbatim. */
  lemma ParseFallbackSingle(s: string)
    requires Dash in s && MultiTableMode(s) && !HasSeparator(s)
    ensures Parse(s) == Success([s])
  {
    var k :| 0 <= k < |s| && s[k] == Dash;
    StripCovers(s, k);
    ClassifySingleIff(s);
  }

  /** A single title made only of whitespace expands to nothing. */
  lemma ExpandBlankSingle(s: string)
    requires AllSpace(s)
    ensures Expand(Single(s)) == Success([])
  {
    var r := Strip(s);
    var i :| TrimmedAt(s, i, r);
  }

  // ---------------------------------------------------------------------
  // Range
  // ---------------------------------------------------------------------

  /** A range whose stripped text does not hold exactly one dash fails with a shape error. */
  lemma ExpandRangeShape(s: string)
    requires Count(Strip(s), Dash) != 1
    ensures Expand(Range(s)) == Failure(RangeShape(s))
  {
  }

  /**
   A range whose stripped text is `x-y` reads `x` first, then `y`: the first
   that is not a digit string is reported; when both are, the result is the
   ascending run between them.
   */
  lemma ExpandRangeBounds(s: string, x: string, y: string)
    requires Strip(s) == x + [Dash] + y && Dash !in x && Dash !in y
    ensures !IsDigits(x) ==> Expand(Range(s)) == Failure(NotAnInteger(x))
    ensures IsDigits(x) && !IsDigits(y) ==> Expand(Range(s)) == Failure(NotAnInteger(y))
    ensures IsDigits(x) && IsDigits(y) ==> Expand(Range(s)) == Success(RangeList(Value(x), Value(y)))
  {
    SplitAfterFirst(x, y, Dash);
    SplitWithout(y, Dash);
    assert Split(Strip(s), Dash) == [x, y];
    assert Dash in Strip(s) by { assert Strip(s)[|x|] == Dash; }
    assert Expand(Range(s)) == ExpandRange(s);
  }

  /** For digit strings `x` and `y`, the title `x-y` is classified as a range. */
  lemma RangeTitleClassified(x: string, y: string)
    requires IsDigits(x) && IsDigits(y)
    ensures Classify(x + [Dash] + y) == Success(Range(x + [Dash] + y))
  {
    var s := x + [Dash] + y;
    assert s[|x|] == Dash;
    assert s[..|x|] == x;
    ModeAtFirstDash(s, |x|);
    assert s[|x| - 1] == x[|x| - 1];
    assert s[|x| + 1] == y[0];
    assert !HasSeparator(s) by {
      forall k | 0 <= k < |s|
        ensures s[k] != EnumerationMark && s[k] != Comma && s[k] != FullWidthComma
      {
        if k < |x| {
          assert s[k] == x[k];
        } else if k > |x| {
          assert s[k] == y[k - |x| - 1];
        }
      }
    }
    ClassifyRangeIff(s);
  }

  /** The range `x-y` over digit strings expands to the renderings of Value(x) .. Value(y). */
  lemma ExpandRangeDigits(x: string, y: string)
    requires IsDigits(x) && IsDigits(y)
    ensures Expand(Range(x + [Dash] + y)) == Success(RangeList(Value(x), Value(y)))
  {
    var s := x + [Dash] + y;
    assert s[0] == x[0] && s[|s| - 1] == y[|y| - 1];
    StripUnchanged(s);
    assert Dash !in x && Dash !in y;
    ExpandRangeBounds(s, x, y);
  }

  /** For digit strings `x` and `y`, the title `x-y` expands to the renderings of Value(x) .. Value(y). */
  lemma ParseRange(x: string, y: string)
    requires IsDigits(x) && IsDigits(y)
    ensures Parse(x + [Dash] + y) == Success(RangeList(Value(x), Value(y)))
  {
    RangeTitleClassified(x, y);
    ParseClassified(x + [Dash] + y);
    ExpandRangeDigits(x, y);
  }

  /**
   A title classified as a single expands to itself, verbatim, so its one
   output re-parses, on its own, to itself.
   */
  lemma SingleOutputsReparse(s: string)
    requires Classify(s) == Success(Single(s))
    ensures Parse(s) == Success([s])
    ensures Parse(Parse(s).value[0]) == Success([Parse(s).value[0]])
  {
    ClassifySingleIff(s);
    if IsDigits(Strip(s)) {
      ParseDigitsSingle(s);
    } else {
      ParseFallbackSingle(s);
    }
  }

  /** Every index a range produces re-parses, on its own, to itself. */
  lemma RangeOutputsReparse(a: nat, b: nat)
    ensures forall i :: 0 <= i < |RangeList(a, b)| ==> Parse(RangeList(a, b)[i]) == Success([RangeList(a, b)[i]])
  {
    forall i | 0 <= i < |RangeList(a, b)|
      ensures Parse(RangeList(a, b)[i]) == Success([RangeList(a, b)[i]])
    {
      var x := RangeList(a, b)[i];
      StripUnchanged(x);
      ParseDigitsSingle(x);
    }
  }

  // ---------------------------------------------------------------------
  // Enumerated singles
  // ---------------------------------------------------------------------

  /**
   An enumeration expands to one trimmed piece per separator-delimited part,
   count(separator) + 1 of them, in order, empty pieces kept: the pieces are
   those that re-join with the separator into the title.
   */
  lemma ExpandEnumeratedPieces(s: string, c: char)
    ensures Expand(Enumerated(s, c)).Success?
    ensures |Expand(Enumerated(s, c)).value| == Count(s, c) + 1
    ensures exists ps :: |ps| > 0 && Join(ps, c) == s && (forall i :: 0 <= i < |ps| ==> c !in ps[i])
                         && Expand(Enumerated(s, c)).value == StripAll(ps)
  {
    assert Expand(Enumerated(s, c)) == Success(ExpandEnumerated(s, c));
    SplitJoin(s, c);
    var ps := Split(s, c);
    assert Join(ps, c) == s;
    assert ExpandEnumerated(s, c) == StripAll(ps);
  }

  // ---------------------------------------------------------------------
  // Mixed
  // ---------------------------------------------------------------------

  /** The fresh parse of every trimmed piece, in order. */
  ghost function PieceResults(ps: seq<string>): (rs: seq<Result<seq<string>, TitleError>>)
    ensures |rs| == |ps|
  {
    seq(|ps|, i requires 0 <= i < |ps| => Parse(Strip(ps[i])))
  }

  /** Combine results in order: the first failure, or else the concatenation of all values. */
  ghost function Collect(rs: seq<Result<seq<string>, TitleError>>): Result<seq<string>, TitleError> {
    if rs == [] then Success([])
    else
      match rs[0]
      case Failure(e) => Failure(e)
      case Success(head) =>
        match Collect(rs[1..])
        case Failure(e) => Failure(e)
        case Success(tail) => Success(head + tail)
  }

  /** The concatenation, in order, of the values of successful results. */
  ghost function Concat(rs: seq<Result<seq<string>, TitleError>>): seq<string>
    requires forall i :: 0 <= i < |rs| ==> rs[i].Success?
  {
    if rs == [] then [] else rs[0].value + Concat(rs[1..])
  }

  /** `Collect` succeeds with the concatenation when every result succeeds, and otherwise yields the first failure. */
  lemma {:induction false} CollectMeaning(rs: seq<Result<seq<string>, TitleError>>)
    ensures Collect(rs).Success? <==> forall i :: 0 <= i < |rs| ==> rs[i].Success?
    ensures (forall i :: 0 <= i < |rs| ==> rs[i].Success?) ==> Collect(rs).value == Concat(rs)
    ensures forall k :: 0 <= k < |rs| && rs[k].Failure? && (forall j :: 0 <= j < k ==> rs[j].Success?)
              ==> Collect(rs) == rs[k]
  {
    if rs != [] {
      CollectMeaning(rs[1..]);
      forall k | 0 < k < |rs| && rs[k].Failure? && (forall j :: 0 <= j < k ==> rs[j].Success?)
        ensures Collect(rs) == rs[k]
      {
        assert rs[1..][k - 1] == rs[k];
        forall j | 0 <= j < k - 1 ensures rs[1..][j].Success? {
          assert rs[1..][j] == rs[j + 1];
        }
      }
      if !(forall i :: 0 <= i < |rs| ==> rs[i].Success?) && rs[0].Success? {
        var k :| 0 <= k < |rs| && rs[k].Failure?;
        assert rs[1..][k - 1].Failure?;
      }
    }
  }

  /** Expanding the pieces one by one is collecting their independent parses. */
  lemma {:induction false} ExpandPiecesCollects(ps: seq<string>, bound: nat)
    requires forall i :: 0 <= i < |ps| ==> |ps[i]| < bound
    ensures ExpandPieces(ps, bound) == Collect(PieceResults(ps))
  {
    if ps != [] {
      var rs := PieceResults(ps);
      ExpandPiecesCollects(ps[1..], bound);
      assert PieceResults(ps[1..]) == rs[1..];
      assert rs[0] == Parse(Strip(ps[0]));
      if rs[0].Success? {
        assert ExpandPieces(ps[1..], bound) == Collect(rs[1..]);
      }
    }
  }

  /** A mixed title is expanded piece by piece over the split on its separator. */
  lemma MixedUnfold(s: string, c: char)
    requires MixedSeparator(s) == Some(c)
    ensures forall i :: 0 <= i < |Split(s, c)| ==> |Split(s, c)[i]| < |s|
    ensures Expand(Mixed(s)) == ExpandPieces(Split(s, c), |s|)
  {
    SplitShorter(s, c);
    assert Expand(Mixed(s)) == ExpandMixed(s);
  }

  /** A mixed title expands to the collected parses of its pieces. */
  lemma MixedCollects(s: string, c: char)
    requires MixedSeparator(s) == Some(c)
    ensures Expand(Mixed(s)) == Collect(PieceResults(Split(s, c)))
  {
    MixedUnfold(s, c);
    ExpandPiecesCollects(Split(s, c), |s|);
  }

  /**
   A mixed title split on its separator expands to the in-order concatenation
   of a fresh classify-then-expand of each trimmed piece; if any piece fails,
   the first failure is the result.
   */
  lemma ExpandMixedPieces(s: string, c: char)
    requires MixedSeparator(s) == Some(c)
    ensures var rs := PieceResults(Split(s, c));
      && (Expand(Mixed(s)).Success? <==> forall i :: 0 <= i < |rs| ==> rs[i].Success?)
      && ((forall i :: 0 <= i < |rs| ==> rs[i].Success?) ==> Expand(Mixed(s)).value == Concat(rs))
      && (forall k :: 0 <= k < |rs| && rs[k].Failure? && (forall j :: 0 <= j < k ==> rs[j].Success?)
            ==> Expand(Mixed(s)) == rs[k])
  {
    MixedCollects(s, c);
    CollectMeaning(PieceResults(Split(s, c)));
  }

  /**
   A title classified Mixed whose only separator is the full-width comma fails:
   the separator choice for the split does not consider it.
   */
  lemma MixedFullWidthCommaFails(s: string)
    requires Classify(s) == Success(Mixed(s))
    requires EnumerationMark !in s && Comma !in s
    ensures FullWidthComma in s
    ensures Parse(s) == Failure(UnsupportedMixed)
  {
    ClassifyMixedIff(s);
    ParseClassified(s);
    assert Expand(Mixed(s)) == ExpandMixed(s);
  }

  // ---------------------------------------------------------------------
  // Helpers shared by the worked titles
  // ---------------------------------------------------------------------

  /** A title holding a character that is neither whitespace nor a digit does not strip to digits. */
  lemma NotDigitsWithMark(s: string, k: int)
    requires 0 <= k < |s| && !IsSpace(s[k]) && !IsDigit(s[k])
    ensures !IsDigits(Strip(s))
  {
    StripCovers(s, k);
  }

  /** A dash-free title holding "、", or "," but no "、", is an enumeration on that separator. */
  lemma SeparatorEnumerated(s: string, c: char)
    requires Dash !in s && c in s
    requires c == EnumerationMark || (c == Comma && EnumerationMark !in s)
    ensures Classify(s) == Success(Enumerated(s, c))
  {
    ClassifyEnumeratedIff(s);
  }

  /** A title whose first dash sits between two digits and which has no separator is a range. */
  lemma DigitDashClassified(s: string)
    requires 1 < |s| - 1 && s[1] == Dash && IsDigit(s[0]) && IsDigit(s[2])
    requires !HasSeparator(s)
    ensures Classify(s) == Success(Range(s))
  {
    assert s[..1] == [s[0]];
    ModeAtFirstDash(s, 1);
    ClassifyRangeIff(s);
  }

  /** A blank piece fails the non-empty check. */
  lemma EmptyPieceParse()
    ensures Parse(Strip([])) == Failure(EmptyTitle)
  {
    StripUnchanged([]);
  }

  /** A first result that fails is the collected result. */
  lemma CollectFirstFails(rs: seq<Result<seq<string>, TitleError>>)
    requires |rs| > 0 && rs[0].Failure?
    ensures Collect(rs) == rs[0]
  {
  }

  /** Two successful results collect to the concatenation of their values. */
  lemma CollectTwo(rs: seq<Result<seq<string>, TitleError>>, x: seq<string>, y: seq<string>)
    requires |rs| == 2 && rs[0] == Success(x) && rs[1] == Success(y)
    ensures Collect(rs) == Success(x + y)
  {
    var t := rs[1..];
    assert t[0] == Success(y) && t[1..] == [];
    assert Collect(t) == Success(y + []);
    assert y + [] == y;
  }

  /** Three results whose first succeeds and whose second fails collect to that failure. */
  lemma CollectSecondFails(rs: seq<Result<seq<string>, TitleError>>)
    requires |rs| == 3 && rs[0].Success? && rs[1].Failure?
    ensures Collect(rs) == rs[1]
  {
    assert rs[1..][0] == rs[1];
  }

  /** Two pieces that both parse expand, one after the other, to the concatenation of their values. */
  lemma ExpandTwoPieces(a: string, b: string, bound: nat, x: seq<string>, y: seq<string>)
    requires |a| < bound && |b| < bound
    requires Parse(Strip(a)) == Success(x) && Parse(Strip(b)) == Success(y)
    ensures ExpandPieces([a, b], bound) == Success(x + y)
  {
    ExpandOnePiece(b, bound, y);
    assert [a, b][0] == a && [a, b][1..] == [b];
  }

  /** A single piece that parses expands to its value. */
  lemma ExpandOnePiece(b: string, bound: nat, y: seq<string>)
    requires |b| < bound
    requires Parse(Strip(b)) == Success(y)
    ensures ExpandPieces([b], bound) == Success(y)
  {
    assert [b][0] == b && [b][1..] == [];
    assert y + [] == y;
  }

  /** A mixed title that splits into two pieces which both parse expands to their concatenation. */
  lemma MixedTwoPieces(s: string, c: char, a: string, b: string, x: seq<string>, y: seq<string>)
    requires MixedSeparator(s) == Some(c) && Split(s, c) == [a, b]
    requires Parse(Strip(a)) == Success(x) && Parse(Strip(b)) == Success(y)
    ensures Expand(Mixed(s)) == Success(x + y)
  {
    MixedCollects(s, c);
    var rs := PieceResults(Split(s, c));
    assert rs[0] == Parse(Strip(a)) && rs[1] == Parse(Strip(b));
    CollectTwo(rs, x, y);
  }

  /** A mixed title whose second piece is empty fails with the non-empty check once the first piece parses. */
  lemma MixedEmptySecondPiece(s: string, c: char, a: string, b: string, x: seq<string>)
    requires MixedSeparator(s) == Some(c) && Split(s, c) == [a, [], b]
    requires Parse(Strip(a)) == Success(x)
    ensures Expand(Mixed(s)) == Failure(EmptyTitle)
  {
    MixedCollects(s, c);
    var rs := PieceResults(Split(s, c));
    EmptyPieceParse();
    assert rs[1] == Parse(Strip([]));
    CollectSecondFails(rs);
  }
}
