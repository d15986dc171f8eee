/**
 Worked titles: each shape of the cascade on a concrete input, including the
 error paths, derived from the general properties.
 */
module TitleExamples {
  import opened Wrappers
  import opened Text
  import opened Decimal
  import opened Titles
  import opened TitleProperties

  /** "A-1": the dash follows a letter, so the mode is true and the title stays whole. */
  lemma LabelDashIsSingle()
    ensures MultiTableMode("A-1")
    ensures Parse("A-1") == Success(["A-1"])
  {
    var s := "A-1";
    assert s[..1] == "A";
    ModeAtFirstDash(s, 1);
    ParseFallbackSingle(s);
  }

  /** "No support!!" has no dash, no separator and no digits: it is rejected. */
  lemma PlainWordsRejected()
    ensures Parse("No support!!") == Failure(UnsupportedTitle("No support!!"))
  {
    assert Dash !in "No support!!" && !HasSeparator("No support!!");
    NotDigitsWithMark("No support!!", 0);
    ClassifyRejectsIff("No support!!");
    ParseClassifiedFailure("No support!!");
  }

  /** The empty title is refused before classification. */
  lemma EmptyRejected()
    ensures Parse("") == Failure(EmptyTitle)
  {
  }

  /** Three pieces rejoined with `c`. */
  lemma JoinThree(a: string, b: string, d: string, c: char)
    ensures Join([a, b, d], c) == a + [c] + b + [c] + d
  {
    assert [a, b, d][1..] == [b, d];
    assert [b, d][1..] == [d];
    assert Join([d], c) == d;
    assert Join([b, d], c) == b + [c] + d;
    assert Join([a, b, d], c) == a + [c] + (b + [c] + d);
  }

  /** The title "1?2?3" with a non-digit separator splits into "1", "2", "3". */
  lemma SplitOneTwoThree(c: char)
    requires !IsDigit(c)
    ensures Split(['1', c, '2', c, '3'], c) == ["1", "2", "3"]
  {
    JoinThree("1", "2", "3", c);
    assert "1" + [c] + "2" + [c] + "3" == ['1', c, '2', c, '3'];
    JoinSplit(["1", "2", "3"], c);
  }

  /** Three pieces without surrounding whitespace are left alone by `StripAll`. */
  lemma StripThreeUnchanged(a: string, b: string, d: string)
    requires a == [] || (!IsSpace(a[0]) && !IsSpace(a[|a| - 1]))
    requires b == [] || (!IsSpace(b[0]) && !IsSpace(b[|b| - 1]))
    requires d == [] || (!IsSpace(d[0]) && !IsSpace(d[|d| - 1]))
    ensures StripAll([a, b, d]) == [a, b, d]
  {
    StripAllUnchanged([a, b, d]);
  }

  /** "1、2、3": an enumeration on the ideographic mark, pieces in order. */
  lemma EnumerationMarkList()
    ensures Parse("1\U{3001}2\U{3001}3") == Success(["1", "2", "3"])
  {
    EnumerationMarkClassified();
    ParseClassified("1\U{3001}2\U{3001}3");
    EnumerationMarkExpanded();
  }

  /** "1、2、3" split on the mark gives the three digits, none of which needs trimming. */
  lemma EnumerationMarkExpanded()
    ensures ExpandEnumerated("1\U{3001}2\U{3001}3", EnumerationMark) == ["1", "2", "3"]
  {
    SplitOneTwoThree(EnumerationMark);
    StripThreeUnchanged("1", "2", "3");
  }

  /** "1、2、3" has no dash and holds the mark, so it is an enumeration on "、". */
  lemma EnumerationMarkClassified()
    ensures Classify("1\U{3001}2\U{3001}3") == Success(Enumerated("1\U{3001}2\U{3001}3", EnumerationMark))
  {
    var s := "1\U{3001}2\U{3001}3";
    assert Dash !in s;
    assert s[1] == EnumerationMark;
    SeparatorEnumerated(s, EnumerationMark);
  }

  /** "1,,2" splits on the comma into "1", "", "2". */
  lemma SplitWithEmptyPiece()
    ensures Split("1,,2", Comma) == ["1", "", "2"]
  {
    JoinThree("1", "", "2", Comma);
    assert "1" + [Comma] + "" + [Comma] + "2" == "1,,2";
    JoinSplit(["1", "", "2"], Comma);
  }

  /** "1,,2" has no dash and no "、", so it is an enumeration on ",". */
  lemma EmptyPieceClassified()
    ensures Classify("1,,2") == Success(Enumerated("1,,2", Comma))
  {
    var s := "1,,2";
    assert Dash !in s && EnumerationMark !in s && s[1] == Comma;
    SeparatorEnumerated(s, Comma);
  }

  /** "1,,2": the empty piece between two commas is kept. */
  lemma EmptyPieceKept()
    ensures Parse("1,,2") == Success(["1", "", "2"])
  {
    EmptyPieceClassified();
    ParseClassified("1,,2");
    EmptyPieceExpanded();
  }

  /** "1,,2" split on the comma keeps the empty middle piece through trimming. */
  lemma EmptyPieceExpanded()
    ensures ExpandEnumerated("1,,2", Comma) == ["1", "", "2"]
  {
    SplitWithEmptyPiece();
    StripThreeUnchanged("1", "", "2");
  }

  /** The renderings of 1 through 3. */
  lemma OneToThree()
    ensures RangeList(1, 3) == ["1", "2", "3"]
  {
    assert RangeList(1, 3) == [NatToString(1), NatToString(2), NatToString(3)];
  }

  /** "1-3" expands to the three indices 1, 2, 3. */
  lemma SimpleRange()
    ensures Parse("1-3") == Success(["1", "2", "3"])
  {
    ParseDigitRange('1', '3');
    assert "1-3" == ['1', Dash, '3'];
    OneToThree();
  }

  /** "01-03": bounds are read as integers, so the leading zeros are not kept. */
  lemma RangeDropsLeadingZeros()
    ensures Parse("01-03") == Success(["1", "2", "3"])
  {
    assert "01-03" == "01" + [Dash] + "03";
    ParseRange("01", "03");
    ZeroPaddedValues();
    OneToThree();
  }

  /** The zero-padded bounds "01" and "03" denote 1 and 3. */
  lemma ZeroPaddedValues()
    ensures Value("01") == 1 && Value("03") == 3
  {
  }

  /** "3-1": a descending range is empty. */
  lemma DescendingRangeEmpty()
    ensures Parse("3-1") == Success([])
  {
    ParseDigitRange('3', '1');
    assert "3-1" == ['3', Dash, '1'];
  }

  /** "1-2-3" has digits around its first dash, so it is a range. */
  lemma ThreePartClassified()
    ensures Classify("1-2-3") == Success(Range("1-2-3"))
  {
    assert !HasSeparator("1-2-3");
    DigitDashClassified("1-2-3");
  }

  /** "1-2-3" needs no trimming and holds two dashes. */
  lemma ThreePartStripped()
    ensures Strip("1-2-3") == "1-2-3"
    ensures Count("1-2-3", Dash) == 2
  {
    StripUnchanged("1-2-3");
    SplitOneTwoThree(Dash);
  }

  /** "1-2-3" is classified as a range, but it has three parts, so expansion fails. */
  lemma ThreePartRangeFails()
    ensures Classify("1-2-3") == Success(Range("1-2-3"))
    ensures Parse("1-2-3") == Failure(RangeShape("1-2-3"))
  {
    ThreePartClassified();
    ThreePartStripped();
    ParseClassified("1-2-3");
    ExpandRangeShape("1-2-3");
  }

  /** "1-2x" has digits around its first dash, so it is a range. */
  lemma BadBoundClassified()
    ensures Classify("1-2x") == Success(Range("1-2x"))
  {
    assert !HasSeparator("1-2x");
    DigitDashClassified("1-2x");
  }

  /** "1-2x" needs no trimming, and its one dash separates "1" from "2x". */
  lemma BadBoundStripped()
    ensures Strip("1-2x") == "1" + [Dash] + "2x"
  {
    StripUnchanged("1-2x");
  }

  /** "1-2x": the upper bound is not an integer. */
  lemma NonNumericBoundFails()
    ensures Parse("1-2x") == Failure(NotAnInteger("2x"))
  {
    BadBoundClassified();
    ParseClassified("1-2x");
    BadBoundExpanded();
  }

  /** Expanding the range "1-2x" reads "1", then fails on "2x". */
  lemma BadBoundExpanded()
    ensures Expand(Range("1-2x")) == Failure(NotAnInteger("2x"))
  {
    BadBoundStripped();
    assert IsDigits("1") && !IsDigits("2x") by { assert !IsDigit("2x"[1]); }
    ExpandRangeBounds("1-2x", "1", "2x");
  }

  /** Two pieces rejoined with `c`. */
  lemma JoinTwo(a: string, b: string, c: char)
    ensures Join([a, b], c) == a + [c] + b
  {
    assert [a, b][1..] == [b];
  }

  /** A one-digit title expands to itself. */
  lemma ParseDigit(a: char)
    requires IsDigit(a)
    ensures Parse([a]) == Success([[a]])
  {
    StripUnchanged([a]);
    ParseDigitsSingle([a]);
  }

  /** A title "b-d" of two digits expands to the range between them. */
  lemma ParseDigitRange(b: char, d: char)
    requires IsDigit(b) && IsDigit(d)
    ensures Parse([b, Dash, d]) == Success(RangeList(DigitValue(b), DigitValue(d)))
  {
    assert [b, Dash, d] == [b] + [Dash] + [d];
    ParseRange([b], [d]);
    ValueDigit(b);
    ValueDigit(d);
  }

  /** A one-digit string denotes that digit. */
  lemma ValueDigit(c: char)
    requires IsDigit(c)
    ensures Value([c]) == DigitValue(c)
  {
    assert [c][..0] == [];
  }

  /** "a,b-d" over digits is classified as mixed and split on the comma. */
  lemma DigitCommaRangeClassified(a: char, b: char, d: char)
    requires IsDigit(a) && IsDigit(b) && IsDigit(d)
    ensures Classify([a, Comma, b, Dash, d]) == Success(Mixed([a, Comma, b, Dash, d]))
    ensures MixedSeparator([a, Comma, b, Dash, d]) == Some(Comma)
  {
    var s := [a, Comma, b, Dash, d];
    assert s[..3] == [a, Comma, b];
    ModeAtFirstDash(s, 3);
    assert s[1] == Comma && s[3] == Dash && EnumerationMark !in s;
    ClassifyMixedIff(s);
  }

  /** "a,b-d" split on the comma gives "a" and "b-d". */
  lemma DigitCommaRangePieces(a: char, b: char, d: char)
    requires IsDigit(a) && IsDigit(b) && IsDigit(d)
    ensures Split([a, Comma, b, Dash, d], Comma) == [[a], [b, Dash, d]]
  {
    JoinTwo([a], [b, Dash, d], Comma);
    assert [a] + [Comma] + [b, Dash, d] == [a, Comma, b, Dash, d];
    JoinSplit([[a], [b, Dash, d]], Comma);
  }

  /** Expanding the mixed "a,b-d" concatenates the digit a and the range from b to d. */
  lemma DigitCommaRangeExpanded(a: char, b: char, d: char)
    requires IsDigit(a) && IsDigit(b) && IsDigit(d)
    ensures Expand(Mixed([a, Comma, b, Dash, d])) == Success([[a]] + RangeList(DigitValue(b), DigitValue(d)))
  {
    DigitCommaRangeClassified(a, b, d);
    DigitCommaRangePieces(a, b, d);
    DigitAndRangePieces(a, b, d);
    MixedTwoPieces([a, Comma, b, Dash, d], Comma, [a], [b, Dash, d], [[a]], RangeList(DigitValue(b), DigitValue(d)));
  }

  /** The trimmed pieces "a" and "b-d" parse as a single digit and a range. */
  lemma DigitAndRangePieces(a: char, b: char, d: char)
    requires IsDigit(a) && IsDigit(b) && IsDigit(d)
    ensures Parse(Strip([a])) == Success([[a]])
    ensures Parse(Strip([b, Dash, d])) == Success(RangeList(DigitValue(b), DigitValue(d)))
  {
    DigitPiece(a);
    RangePiece(b, d);
  }

  /** The trimmed piece "b-d" parses as the range between the digits. */
  lemma RangePiece(b: char, d: char)
    requires IsDigit(b) && IsDigit(d)
    ensures Parse(Strip([b, Dash, d])) == Success(RangeList(DigitValue(b), DigitValue(d)))
  {
    StripUnchanged([b, Dash, d]);
    ParseDigitRange(b, d);
  }

  /** The trimmed piece "a" parses as the single digit. */
  lemma DigitPiece(a: char)
    requires IsDigit(a)
    ensures Parse(Strip([a])) == Success([[a]])
  {
    StripUnchanged([a]);
    ParseDigit(a);
  }

  /** "a,b-d" over digits: the single `a`, then the range re-classified from the piece "b-d". */
  lemma DigitCommaRange(a: char, b: char, d: char)
    requires IsDigit(a) && IsDigit(b) && IsDigit(d)
    ensures Parse([a, Comma, b, Dash, d]) == Success([[a]] + RangeList(DigitValue(b), DigitValue(d)))
  {
    DigitCommaRangeClassified(a, b, d);
    ParseClassified([a, Comma, b, Dash, d]);
    DigitCommaRangeExpanded(a, b, d);
  }

  /** The renderings of 2 and 3. */
  lemma TwoToThree()
    ensures RangeList(2, 3) == ["2", "3"]
  {
    assert RangeList(2, 3) == [NatToString(2), NatToString(3)];
  }

  /** "1,2-3" expands to "1", "2", "3". */
  lemma MixedCommaRange()
    ensures Parse("1,2-3") == Success(["1", "2", "3"])
  {
    DigitCommaRange('1', '2', '3');
    assert "1,2-3" == ['1', Comma, '2', Dash, '3'];
    TwoToThree();
    assert [['1']] + ["2", "3"] == ["1", "2", "3"];
  }

  /** "a,,b-d" over digits is classified as mixed and split on the comma into three pieces. */
  lemma DigitEmptyRangeClassified(a: char, b: char, d: char)
    requires IsDigit(a) && IsDigit(b) && IsDigit(d)
    ensures Classify([a, Comma, Comma, b, Dash, d]) == Success(Mixed([a, Comma, Comma, b, Dash, d]))
    ensures MixedSeparator([a, Comma, Comma, b, Dash, d]) == Some(Comma)
  {
    var s := [a, Comma, Comma, b, Dash, d];
    assert s[..4] == [a, Comma, Comma, b];
    ModeAtFirstDash(s, 4);
    assert s[1] == Comma && s[4] == Dash && EnumerationMark !in s;
    ClassifyMixedIff(s);
  }

  /** "a,,b-d" split on the comma gives "a", the empty piece, and "b-d". */
  lemma DigitEmptyRangePieces(a: char, b: char, d: char)
    requires IsDigit(a) && IsDigit(b) && IsDigit(d)
    ensures Split([a, Comma, Comma, b, Dash, d], Comma) == [[a], [], [b, Dash, d]]
  {
    JoinThree([a], [], [b, Dash, d], Comma);
    assert [a] + [Comma] + [] + [Comma] + [b, Dash, d] == [a, Comma, Comma, b, Dash, d];
    JoinSplit([[a], [], [b, Dash, d]], Comma);
  }

  /** Expanding the mixed "a,,b-d" stops at the empty middle piece. */
  lemma DigitEmptyRangeExpanded(a: char, b: char, d: char)
    requires IsDigit(a) && IsDigit(b) && IsDigit(d)
    ensures Expand(Mixed([a, Comma, Comma, b, Dash, d])) == Failure(EmptyTitle)
  {
    var s := [a, Comma, Comma, b, Dash, d];
    DigitEmptyRangeClassified(a, b, d);
    DigitEmptyRangePieces(a, b, d);
    DigitPiece(a);
    MixedEmptySecondPiece(s, Comma, [a], [b, Dash, d], [[a]]);
  }

  /** "a,,b-d" over digits: the empty middle piece fails the non-empty check, so the title fails. */
  lemma DigitEmptyRangeFails(a: char, b: char, d: char)
    requires IsDigit(a) && IsDigit(b) && IsDigit(d)
    ensures Parse([a, Comma, Comma, b, Dash, d]) == Failure(EmptyTitle)
  {
    DigitEmptyRangeClassified(a, b, d);
    ParseClassified([a, Comma, Comma, b, Dash, d]);
    DigitEmptyRangeExpanded(a, b, d);
  }

  /** "1,,2-3" fails on its empty piece. */
  lemma MixedEmptyPieceFails()
    ensures Parse("1,,2-3") == Failure(EmptyTitle)
  {
    DigitEmptyRangeFails('1', '2', '3');
    assert "1,,2-3" == ['1', Comma, Comma, '2', Dash, '3'];
  }

  /** "a，b-d" over digits: classified as mixed on the full-width comma, which the mixed split does not accept. */
  lemma DigitFullWidthCommaFails(a: char, b: char, d: char)
    requires IsDigit(a) && IsDigit(b) && IsDigit(d)
    ensures Classify([a, FullWidthComma, b, Dash, d]) == Success(Mixed([a, FullWidthComma, b, Dash, d]))
    ensures Parse([a, FullWidthComma, b, Dash, d]) == Failure(UnsupportedMixed)
  {
    var s := [a, FullWidthComma, b, Dash, d];
    assert s[..3] == [a, FullWidthComma, b];
    ModeAtFirstDash(s, 3);
    assert s[1] == FullWidthComma && s[3] == Dash && EnumerationMark !in s && Comma !in s;
    ClassifyMixedIff(s);
    MixedFullWidthCommaFails(s);
  }

  /** "1，2-3" fails in expansion although it is classified as mixed. */
  lemma MixedFullWidthCommaExample()
    ensures Classify("1\U{FF0C}2-3") == Success(Mixed("1\U{FF0C}2-3"))
    ensures Parse("1\U{FF0C}2-3") == Failure(UnsupportedMixed)
  {
    DigitFullWidthCommaFails('1', '2', '3');
    assert "1\U{FF0C}2-3" == ['1', FullWidthComma, '2', Dash, '3'];
  }

  // Titles holding both "、" and ",": the mixed split takes "、", and the comma
  // is handled when the second piece is parsed again.

  /** "a、b,d-e" is mixed and split on the enumeration mark, whatever the first character. */
  lemma BothMarksClassified(a: char, b: char, d: char, e: char)
    requires a != Dash && IsDigit(b) && IsDigit(d) && IsDigit(e)
    ensures Classify([a, EnumerationMark, b, Comma, d, Dash, e]) == Success(Mixed([a, EnumerationMark, b, Comma, d, Dash, e]))
    ensures MixedSeparator([a, EnumerationMark, b, Comma, d, Dash, e]) == Some(EnumerationMark)
  {
    var s := [a, EnumerationMark, b, Comma, d, Dash, e];
    assert s[..5] == [a, EnumerationMark, b, Comma, d];
    ModeAtFirstDash(s, 5);
    assert s[1] == EnumerationMark && s[5] == Dash;
    ClassifyMixedIff(s);
  }

  /** "a、b,d-e" split on the mark gives "a" and "b,d-e". */
  lemma BothMarksPieces(a: char, b: char, d: char, e: char)
    requires a != EnumerationMark && IsDigit(b) && IsDigit(d) && IsDigit(e)
    ensures Split([a, EnumerationMark, b, Comma, d, Dash, e], EnumerationMark) == [[a], [b, Comma, d, Dash, e]]
  {
    JoinTwo([a], [b, Comma, d, Dash, e], EnumerationMark);
    assert [a] + [EnumerationMark] + [b, Comma, d, Dash, e] == [a, EnumerationMark, b, Comma, d, Dash, e];
    JoinSplit([[a], [b, Comma, d, Dash, e]], EnumerationMark);
  }

  /** The trimmed piece "b,d-e" is itself a mixed title. */
  lemma CommaRangePiece(b: char, d: char, e: char)
    requires IsDigit(b) && IsDigit(d) && IsDigit(e)
    ensures Parse(Strip([b, Comma, d, Dash, e])) == Success([[b]] + RangeList(DigitValue(d), DigitValue(e)))
  {
    StripUnchanged([b, Comma, d, Dash, e]);
    DigitCommaRange(b, d, e);
  }

  /** Expanding the mixed "a、b,d-e" concatenates the digit a and the expansion of "b,d-e". */
  lemma BothMarksExpanded(a: char, b: char, d: char, e: char)
    requires IsDigit(a) && IsDigit(b) && IsDigit(d) && IsDigit(e)
    ensures Expand(Mixed([a, EnumerationMark, b, Comma, d, Dash, e]))
         == Success([[a]] + ([[b]] + RangeList(DigitValue(d), DigitValue(e))))
  {
    BothMarksClassified(a, b, d, e);
    BothMarksPieces(a, b, d, e);
    DigitPiece(a);
    CommaRangePiece(b, d, e);
    MixedTwoPieces([a, EnumerationMark, b, Comma, d, Dash, e], EnumerationMark, [a], [b, Comma, d, Dash, e],
                   [[a]], [[b]] + RangeList(DigitValue(d), DigitValue(e)));
  }

  /** "a、b,d-e" over digits: `a`, then `b`, then the range from d to e, by two levels of mixed splitting. */
  lemma DigitBothMarks(a: char, b: char, d: char, e: char)
    requires IsDigit(a) && IsDigit(b) && IsDigit(d) && IsDigit(e)
    ensures Parse([a, EnumerationMark, b, Comma, d, Dash, e])
         == Success([[a]] + ([[b]] + RangeList(DigitValue(d), DigitValue(e))))
  {
    BothMarksClassified(a, b, d, e);
    ParseClassified([a, EnumerationMark, b, Comma, d, Dash, e]);
    BothMarksExpanded(a, b, d, e);
  }

  /** The renderings of 3 and 4. */
  lemma ThreeToFour()
    ensures RangeList(3, 4) == ["3", "4"]
  {
    assert RangeList(3, 4) == [NatToString(3), NatToString(4)];
  }

  /** "1、2,3-4" expands to "1", "2", "3", "4". */
  lemma MixedBothMarks()
    ensures Parse("1\U{3001}2,3-4") == Success(["1", "2", "3", "4"])
  {
    DigitBothMarks('1', '2', '3', '4');
    assert "1\U{3001}2,3-4" == ['1', EnumerationMark, '2', Comma, '3', Dash, '4'];
    OneToFour();
  }

  /** The digits 1 and 2 followed by the range from 3 to 4 are the renderings of 1 through 4. */
  lemma OneToFour()
    ensures [['1']] + ([['2']] + RangeList(DigitValue('3'), DigitValue('4'))) == ["1", "2", "3", "4"]
  {
    ThreeToFour();
  }

  /** A one-character piece that is no digit, dash or separator is rejected. */
  lemma WordPiece(x: char)
    requires !IsDigit(x) && !IsSpace(x) && x != Dash && !HasSeparator([x])
    ensures Parse(Strip([x])) == Failure(UnsupportedTitle([x]))
  {
    StripUnchanged([x]);
    assert !IsDigits([x]) by { assert !IsDigit([x][0]); }
    ClassifyRejectsIff([x]);
    ParseClassifiedFailure([x]);
  }

  /**
   "x、b,d-e" with a word character x: the split on "、" leaves "x" alone as
   the first piece, which is rejected. `CommaFirstSucceeds` shows that a
   split on "," would have succeeded.
   */
  lemma WordBeforeMark(x: char, b: char, d: char, e: char)
    requires !IsDigit(x) && !IsSpace(x) && x != Dash && !HasSeparator([x])
    requires IsDigit(b) && IsDigit(d) && IsDigit(e)
    ensures Parse([x, EnumerationMark, b, Comma, d, Dash, e]) == Failure(UnsupportedTitle([x]))
  {
    var s := [x, EnumerationMark, b, Comma, d, Dash, e];
    assert x != EnumerationMark by { assert EnumerationMark in [EnumerationMark]; }
    BothMarksClassified(x, b, d, e);
    ParseClassified(s);
    BothMarksPieces(x, b, d, e);
    MixedCollects(s, EnumerationMark);
    WordPiece(x);
    var rs := PieceResults(Split(s, EnumerationMark));
    assert rs[0] == Parse(Strip([x]));
    CollectFirstFails(rs);
  }

  /** Split on "、", the piece "x、b" falls apart into "x" and "b". */
  lemma WordMarkSplit(x: char, b: char)
    requires x != EnumerationMark && b != EnumerationMark
    ensures Split([x, EnumerationMark, b], EnumerationMark) == [[x], [b]]
  {
    JoinTwo([x], [b], EnumerationMark);
    assert [x] + [EnumerationMark] + [b] == [x, EnumerationMark, b];
    JoinSplit([[x], [b]], EnumerationMark);
  }

  /** The trimmed piece "x、b" of a word character and a digit is an enumeration of the two. */
  lemma WordMarkPiece(x: char, b: char)
    requires !IsDigit(x) && !IsSpace(x) && x != Dash && !HasSeparator([x]) && IsDigit(b)
    ensures Parse(Strip([x, EnumerationMark, b])) == Success([[x], [b]])
  {
    var s := [x, EnumerationMark, b];
    StripUnchanged(s);
    WordMarkClassified(x, b);
    ParseClassified(s);
    WordMarkExpanded(x, b);
  }

  /** The enumeration "x、b" expands to "x" and "b", neither of which needs trimming. */
  lemma WordMarkExpanded(x: char, b: char)
    requires !IsSpace(x) && !HasSeparator([x]) && IsDigit(b)
    ensures Expand(Enumerated([x, EnumerationMark, b], EnumerationMark)) == Success([[x], [b]])
  {
    var s := [x, EnumerationMark, b];
    assert x != EnumerationMark by { assert [x][0] == x; }
    WordMarkSplit(x, b);
    StripAllUnchanged([[x], [b]]);
    assert Expand(Enumerated(s, EnumerationMark)) == Success(ExpandEnumerated(s, EnumerationMark));
  }

  /** "x、b" has no dash and holds the mark, so it is an enumeration on "、". */
  lemma WordMarkClassified(x: char, b: char)
    requires !IsDigit(x) && !IsSpace(x) && x != Dash && !HasSeparator([x]) && IsDigit(b)
    ensures Classify([x, EnumerationMark, b]) == Success(Enumerated([x, EnumerationMark, b], EnumerationMark))
  {
    var s := [x, EnumerationMark, b];
    assert Dash !in s && s[1] == EnumerationMark;
    SeparatorEnumerated(s, EnumerationMark);
  }

  /** Split on ",", the title "x、b,d-e" gives the pieces "x、b" and "d-e". */
  lemma CommaFirstPieces(x: char, b: char, d: char, e: char)
    requires x != Comma && IsDigit(b) && IsDigit(d) && IsDigit(e)
    ensures Split([x, EnumerationMark, b, Comma, d, Dash, e], Comma) == [[x, EnumerationMark, b], [d, Dash, e]]
  {
    JoinTwo([x, EnumerationMark, b], [d, Dash, e], Comma);
    assert [x, EnumerationMark, b] + [Comma] + [d, Dash, e] == [x, EnumerationMark, b, Comma, d, Dash, e];
    JoinSplit([[x, EnumerationMark, b], [d, Dash, e]], Comma);
  }

  /**
   "x、b,d-e" with a word character x: had the pieces been cut at "," instead
   of "、", both "x、b" and "d-e" would parse and the title would expand to
   x, b and the range from d to e. The bound 7 is the title's length, the one
   `ExpandMixed` passes to `ExpandPieces`.
   */
  lemma CommaFirstSucceeds(x: char, b: char, d: char, e: char)
    requires !IsDigit(x) && !IsSpace(x) && x != Dash && !HasSeparator([x])
    requires IsDigit(b) && IsDigit(d) && IsDigit(e)
    ensures Split([x, EnumerationMark, b, Comma, d, Dash, e], Comma) == [[x, EnumerationMark, b], [d, Dash, e]]
    ensures ExpandPieces(Split([x, EnumerationMark, b, Comma, d, Dash, e], Comma), 7)
         == Success([[x], [b]] + RangeList(DigitValue(d), DigitValue(e)))
  {
    assert x != Comma by { assert [x][0] == x; }
    CommaFirstPieces(x, b, d, e);
    WordMarkPiece(x, b);
    RangePiece(d, e);
    ExpandTwoPieces([x, EnumerationMark, b], [d, Dash, e], 7, [[x], [b]], RangeList(DigitValue(d), DigitValue(e)));
  }

  /** "A、1,2-3" fails on the piece "A": the enumeration mark is split on before the comma. */
  lemma MarkBeforeComma()
    ensures Parse("A\U{3001}1,2-3") == Failure(UnsupportedTitle("A"))
  {
    assert !HasSeparator("A");
    WordBeforeMark('A', '1', '2', '3');
    assert "A\U{3001}1,2-3" == ['A', EnumerationMark, '1', Comma, '2', Dash, '3'];
  }

}
