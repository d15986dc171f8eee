/**
 The title classifier and expander: a short title fragment such as "1",
 "1-3", "1、2、3", "1,2-3" or "A-1" is sorted into one of the shapes below
 and expanded into the ordered list of index strings it denotes.

 The title is taken as already cleaned: the external normaliser that runs
 first is the identity here, and only its non-empty check is kept.
 */
module Titles {
  import opened Wrappers
  import opened Text
  import opened Decimal

  const Dash: char := '-'
  /** The ideographic enumeration mark "、". */
  const EnumerationMark: char := '\U{3001}'
  const Comma: char := ','
  /** The full-width comma "，". */
  const FullWidthComma: char := '\U{FF0C}'

  /** One of the three enumeration separators occurs in `s`. */
  predicate HasSeparator(s: string) {
    EnumerationMark in s || Comma in s || FullWidthComma in s
  }

  /** The shapes a title can take; each keeps the text it was classified from. */
  datatype Title =
    | Single(text: string)
    | Range(text: string)
    | Enumerated(text: string, separator: char)
    | Mixed(text: string)

  datatype TitleError =
    | EmptyTitle                    // the title is empty
    | UnsupportedTitle(title: string) // no shape matches
    | UnsupportedMixed              // a mixed title holds neither "、" nor ","
    | RangeShape(title: string)     // a range does not split into exactly two bounds
    | NotAnInteger(fragment: string) // a range bound is not a decimal integer

  /**
   An error is accurate when the fragment it names really has the defect it
   reports: a rejected title matches no rule of the cascade, a malformed range
   does not hold exactly one dash once stripped, a bad bound is not a digit string.
   */
  predicate Accurate(e: TitleError) {
    match e
    case EmptyTitle => true
    case UnsupportedTitle(t) => t != [] && Dash !in t && !HasSeparator(t) && !IsDigits(Strip(t))
    case UnsupportedMixed => true
    case RangeShape(t) => Count(Strip(t), Dash) != 1
    case NotAnInteger(f) => !IsDigits(f)
  }

  /**
   Multi-table mode: true when the first dash is not a numeric range marker.
   The neighbours of the first dash are read as the one-character slices
   before and after it, with Python's slice clamping.
   */
  function MultiTableMode(s: string): (r: bool)
    ensures var i := FirstIndex(s, Dash);
      r <==> i != -1 && !(0 < i < |s| - 1 && IsDigit(s[i - 1]) && IsDigit(s[i + 1]))
  {
    var i := FirstIndex(s, Dash);
    if i == -1 then false
    else
      var before := PySlice(s, i - 1, i);
      var after := PySlice(s, i + 1, i + 2);
      assert before == if 0 < i then [s[i - 1]] else [];
      assert after == if i < |s| - 1 then [s[i + 1]] else [];
      assert IsDigits(before) <==> 0 < i && IsDigit(s[i - 1]);
      assert IsDigits(after) <==> i < |s| - 1 && IsDigit(s[i + 1]);
      !(IsDigits(before) && IsDigits(after))
  }

  /** The shape of `s`: the first rule of the cascade that matches wins. */
  function Classify(s: string): (r: Result<Title, TitleError>)
    ensures r.Success? ==> r.value.text == s
    ensures r.Failure? ==> r.error == UnsupportedTitle(s)
    ensures r.Failure? ==> Dash !in s && !HasSeparator(s) && !IsDigits(Strip(s))
  {
    var mode := MultiTableMode(s);
    if HasSeparator(s) && Dash in s && !mode then Success(Mixed(s))
    else if IsDigits(Strip(s)) then Success(Single(s))
    else if Dash in s && !mode then Success(Range(s))
    else if EnumerationMark in s then Success(Enumerated(s, EnumerationMark))
    else if Comma in s then Success(Enumerated(s, Comma))
    else if FullWidthComma in s then Success(Enumerated(s, FullWidthComma))
    else if mode then Success(Single(s))
    else Failure(UnsupportedTitle(s))
  }

  /** The separator a mixed title is split on: "、" before ","; the full-width comma is not considered. */
  function MixedSeparator(s: string): (r: Option<char>)
    ensures r.Some? ==> r.value in s
    ensures r.None? <==> EnumerationMark !in s && Comma !in s
    ensures EnumerationMark in s ==> r == Some(EnumerationMark)
    ensures r.Some? ==> r.value == EnumerationMark || r.value == Comma
  {
    if EnumerationMark in s then Some(EnumerationMark)
    else if Comma in s then Some(Comma)
    else None
  }

  /** A single title: the title itself, unstripped, unless it is blank. */
  function ExpandSingle(s: string): (r: seq<string>)
    ensures |r| <= 1
    ensures r != [] ==> r == [s]
  {
    if Strip(s) != [] then [s] else []
  }

  /** A range: the stripped text split on the dash into two integer bounds. */
  function ExpandRange(s: string): (r: Result<seq<string>, TitleError>)
    ensures r.Success? ==> exists a: nat, b: nat :: r.value == RangeList(a, b)
    ensures r.Failure? ==> Accurate(r.error)
  {
    var t := Strip(s);
    if Dash !in t then Failure(RangeShape(s))
    else
      var parts := Split(t, Dash);
      if |parts| != 2 then Failure(RangeShape(s))
      else match (ParseNat(parts[0]), ParseNat(parts[1]))
        case (None, _) => Failure(NotAnInteger(parts[0]))
        case (Some(_), None) => Failure(NotAnInteger(parts[1]))
        case (Some(a), Some(b)) => Success(RangeList(a, b))
  }

  /** An enumeration: every piece between separators, stripped, empty pieces kept. */
  function ExpandEnumerated(s: string, c: char): (r: seq<string>)
    ensures |r| == Count(s, c) + 1
  {
    StripAll(Split(s, c))
  }

  /** Classify a title and expand its shape; an empty title is refused first. */
  function Parse(s: string): (r: Result<seq<string>, TitleError>)
    ensures r.Success? ==> s != []
    ensures r.Failure? ==> Accurate(r.error)
    decreases |s|, 3, 0
  {
    if s == [] then Failure(EmptyTitle)
    else
      match Classify(s)
      case Failure(e) => Failure(e)
      case Success(t) => Expand(t)
  }

  /** The index strings a classified title denotes. */
  function Expand(t: Title): (r: Result<seq<string>, TitleError>)
    ensures r.Failure? ==> Accurate(r.error)
    decreases |t.text|, 2, 0
  {
    match t
    case Single(s) => Success(ExpandSingle(s))
    case Range(s) => ExpandRange(s)
    case Enumerated(s, c) => Success(ExpandEnumerated(s, c))
    case Mixed(s) => ExpandMixed(s)
  }

  /** A mixed title: split on "、" or else ",", and parse every piece afresh. */
  function ExpandMixed(s: string): (r: Result<seq<string>, TitleError>)
    ensures MixedSeparator(s).None? ==> r == Failure(UnsupportedMixed)
    ensures r.Failure? ==> Accurate(r.error)
    decreases |s|, 1, 0
  {
    match MixedSeparator(s)
    case None => Failure(UnsupportedMixed)
    case Some(c) =>
      SplitShorter(s, c);
      ExpandPieces(Split(s, c), |s|)
  }

  /** Parse every stripped piece afresh and concatenate the results in order; the first failure wins. */
  function ExpandPieces(ps: seq<string>, ghost bound: nat): (r: Result<seq<string>, TitleError>)
    requires forall i :: 0 <= i < |ps| ==> |ps[i]| < bound
    ensures r.Failure? ==> Accurate(r.error)
    decreases bound, 0, |ps|
  {
    if ps == [] then Success([])
    else
      match Parse(Strip(ps[0]))
      case Failure(e) => Failure(e)
      case Success(head) =>
        match ExpandPieces(ps[1..], bound)
        case Failure(e) => Failure(e)
        case Success(tail) => Success(head + tail)
  }
}
