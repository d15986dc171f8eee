# Title classifier and expander

A Dafny model of the title processor of autoTable (`autotable/processor/github_title.py`).
A title fragment scraped from a listing names one or more episode or chapter indices, for
example `"1"`, `"1-3"`, `"1、2、3"`, `"1,2-3"` or `"A-1"`. The processor works in three steps:

- **Multi-table mode.** It computes a flag from the first dash. A title without a dash has
  the flag false. When a dash is present, the flag is false only when the characters just
  before and just after the first dash are both digits, so the dash marks a numeric range
  (`1-3`). Otherwise the dash is part of a label (`A-1`) and the flag is true.
- **Classification.** A first-match cascade sorts the title into one shape: Mixed, Single,
  Range, Enumerated singles (on `、`, `,` or `，`), a mode-true Single fallback, or
  rejection.
- **Expansion.** It turns that shape into an ordered list of index strings. A Mixed title is
  split on `、` (or else `,`). Each trimmed piece is classified and expanded again from
  scratch, and the results are concatenated.

Modules:

- `Wrappers` (`wrappers.dfy`): `Option` and `Result`.
- `Text` (`text.dfy`): the parts of Python's `str` the processor relies on. These are ASCII
  `isdigit`, `strip` with Python's whitespace set, one-character `find`, slicing with
  Python's index clamping, `split` on one character, and `join` as the inverse of `split`.
- `Decimal` (`decimal.dfy`): `int` on unsigned digit strings, `str` on naturals, and the
  inclusive range of renderings.
- `Titles` (`titles.dfy`): the `Title` datatype, the `TitleError` datatype, and
  `MultiTableMode`, `Classify`, `Expand` and `Parse`. `Parse` is the whole pipeline:
  construct, classify, expand.
- `TitleProperties` (`title_properties.dfy`): the properties of the pipeline.
- `TitleExamples` (`title_examples.dfy`): worked titles derived from those properties.

The four handler classes become four constructors of `Title`. `Expand` dispatches on the
constructor to `ExpandSingle`, `ExpandRange`, `ExpandEnumerated` or `ExpandMixed`, one function
for each class's `mate`. A rejected title is the `Failure` of `Classify`; it is not a fifth constructor.
Each Python exception becomes a `TitleError`. Every error the model reports is *accurate*
(`Titles.Accurate`): the fragment it names really has the defect it reports. Each
expansion function states this in its contract. The error kinds are:

- the empty-title assertion → `EmptyTitle`;
- the unsupported-title `RuntimeError` → `UnsupportedTitle(s)`;
- the mixed-title `NotImplementedError` → `UnsupportedMixed`. It carries no text, because
  that message is not an f-string in the source;
- the range assertion and the tuple-unpacking error → `RangeShape(s)`;
- `int()` failing → `NotAnInteger(fragment)`.

`Parse`, `Expand`, `ExpandMixed` and `ExpandPieces` are mutually recursive. The recursion terminates
because each piece of a Mixed title is strictly shorter than the title (`Text.SplitShorter`).

Three behaviours of the source worth noting:

- A Single title expands to its text **unstripped**. The source returns `title_content`
  itself, not the stripped string.
- A Range title is split on **every** dash, not just the first. So `"1-2-3"` is classified
  as a Range and then fails with `RangeShape`.
- A title classified Mixed because of a full-width comma, and containing neither `、` nor
  `,`, fails in expansion with `UnsupportedMixed`. The separator chosen for the Mixed split
  never considers `，`. The model keeps this behaviour (`TitleProperties.MixedFullWidthCommaFails`,
  `TitleExamples.MixedFullWidthCommaExample`).

## Model

| member | source | states |
|---|---|---|
| `Text.Strip` | autotable/processor/github_title.py:97 | the result is a slice of the input with only whitespace removed on each side, and it neither starts nor ends with whitespace |
| `Text.StripUnchanged` | autotable/processor/github_title.py:69 | a string that already has no whitespace at either end strips to itself |
| `Text.StripCovers` | autotable/processor/github_title.py:39 | every non-whitespace character of a title survives stripping |
| `Text.FirstIndex` | autotable/processor/github_title.py:19-21 | `find` returns -1 exactly when the character is absent; otherwise it returns an index holding the character with no earlier occurrence |
| `Text.PySlice` | autotable/processor/github_title.py:23-24 | Python's one-step slice: between in-range bounds it is the ordinary slice, a negative start counts from the end, so a start of -1 with an end of 0 wraps to the end and gives the empty string rather than the last character, and a start at or past the end gives the empty string; what the two slices mean on these lines is stated by `Titles.MultiTableMode` |
| `Text.Split` | autotable/processor/github_title.py:96 | `split` yields one more piece than there are separators, and no piece contains the separator |
| `Text.SplitJoin` | autotable/processor/github_title.py:96 | joining the pieces of a split with the separator restores the string |
| `Text.JoinSplit` | autotable/processor/github_title.py:115 | splitting the join of separator-free pieces gives back exactly those pieces |
| `Text.SplitPieceBound` | autotable/processor/github_title.py:115 | each piece's length plus the number of separators is at most the string's length |
| `Text.SplitShorter` | autotable/processor/github_title.py:115-116 | when the separator occurs, every piece is strictly shorter than the string, which bounds the Mixed recursion |
| `Decimal.NatToString` | autotable/processor/github_title.py:72 | `str(i)` is canonical decimal (no leading zero except in "0") and denotes `i` |
| `Decimal.ParseNat` | autotable/processor/github_title.py:72 | `int(part)` succeeds exactly on non-empty ASCII digit strings |
| `Decimal.NatRoundTrip` | autotable/processor/github_title.py:72 | reading back a rendered index gives the index |
| `Decimal.CanonicalRoundTrip` | autotable/processor/github_title.py:72 | rendering the value of a canonical digit string gives the same string, so zero padding is the only thing lost |
| `Decimal.RangeList` | autotable/processor/github_title.py:72 | the range has b-a+1 elements when a <= b and none otherwise, and element i renders a+i |
| `Decimal.RangeListAscending` | autotable/processor/github_title.py:72 | the rendered range is strictly ascending by value |
| `Titles.Classify` | autotable/processor/github_title.py:28-56 | a successful classification keeps the title's text, and a rejection reports the title itself, which then has no dash, no separator and does not strip to digits |
| `Titles.MultiTableMode` | autotable/processor/github_title.py:15-25 | the flag is true exactly when a dash occurs and the first dash does not have a digit on both sides, a dash at either end counting as not having one; `TitleProperties.ModeAtFirstDash` restates this for a known dash position |
| `Titles.Parse` | autotable/processor/github_title.py:9-13 | a title that parses is non-empty, and every `UnsupportedTitle`, `RangeShape` or `NotAnInteger` failure names a fragment that really has the defect reported (`EmptyTitle` and `UnsupportedMixed` name no fragment); the outcome per shape is given by `TitleProperties.ParseRange`, `ParseDigitsSingle`, `ParseFallbackSingle` and `ParseClassifiedFailure` |
| `Titles.Expand` | autotable/processor/github_title.py:28-56 | every failure of the dispatched `mate` is accurate; which shape is dispatched is fixed by the five `TitleProperties.Classify*Iff` lemmas |
| `Titles.ExpandMixed` | autotable/processor/github_title.py:106-118 | without `、` or `,` the mixed title fails with the unsupported-mixed error, and every failure, including one from a piece, is accurate; the result itself is given by `TitleProperties.ExpandMixedPieces` |
| `Titles.ExpandPieces` | autotable/processor/github_title.py:114-116 | every failure from the pieces is accurate; the result is the collection of the pieces' parses by `TitleProperties.ExpandPiecesCollects` |
| `Titles.MixedSeparator` | autotable/processor/github_title.py:107-113 | `、` is chosen whenever it occurs, otherwise `,` when it occurs, otherwise nothing; the full-width comma is never chosen |
| `Titles.ExpandSingle` | autotable/processor/github_title.py:80-84 | a single title yields at most one index, and that index is the title itself |
| `Titles.ExpandEnumerated` | autotable/processor/github_title.py:93-98 | an enumeration yields one piece more than there are separators |
| `Titles.ExpandRange` | autotable/processor/github_title.py:68-72 | a successful range expansion is a run of consecutive renderings between two naturals, and a failure names a text without exactly one dash or a bound that is not a digit string |
| `TitleProperties.ModeAtFirstDash` | autotable/processor/github_title.py:19-25 | with the first dash at i, the mode is false exactly when both neighbours exist and are digits; a dash at either end gives true |
| `TitleProperties.ModeWithoutDash` | autotable/processor/github_title.py:20-21 | a title without a dash has mode false |
| `TitleProperties.DigitsExcludeMarks` | autotable/processor/github_title.py:39 | a title that strips to digits has no dash and no separator |
| `TitleProperties.ClassifyRejectsIff` | autotable/processor/github_title.py:55-56 | a title is rejected exactly when it has no dash, no separator, and does not strip to digits |
| `TitleProperties.ClassifyMixedIff` | autotable/processor/github_title.py:34-37 | Mixed exactly when some separator and a dash occur and the mode is false |
| `TitleProperties.ClassifySingleIff` | autotable/processor/github_title.py:39-54 | Single exactly when the title strips to digits, or when it has a dash, the mode is true and no separator occurs |
| `TitleProperties.ClassifyRangeIff` | autotable/processor/github_title.py:42-43 | Range exactly when a dash occurs, the mode is false and no separator occurs |
| `TitleProperties.ClassifyEnumeratedIff` | autotable/processor/github_title.py:45-52 | Enumerated exactly when a separator occurs and there is no range dash; the separator kept is the first of `、`, `,`, `，` present |
| `TitleProperties.ParseClassifiedFailure` | autotable/processor/github_title.py:55-56 | a non-empty title no rule matches fails with the unsupported-title error |
| `TitleProperties.ParseDigitsSingle` | autotable/processor/github_title.py:39-40 | a title that strips to digits expands to exactly itself, unstripped |
| `TitleProperties.ParseFallbackSingle` | autotable/processor/github_title.py:53-54 | a mode-true dash title without separators expands to exactly itself |
| `TitleProperties.ExpandBlankSingle` | autotable/processor/github_title.py:82-84 | a whitespace-only Single expands to the empty list |
| `TitleProperties.ExpandRangeShape` | autotable/processor/github_title.py:70-71 | a range whose stripped text does not hold exactly one dash fails with the shape error |
| `TitleProperties.ExpandRangeBounds` | autotable/processor/github_title.py:71-72 | for stripped text x-y, a non-integer x is reported first, then a non-integer y; otherwise the result is the range between them |
| `TitleProperties.RangeTitleClassified` | autotable/processor/github_title.py:42-43 | a title made of two digit strings joined by a dash is classified as a range |
| `TitleProperties.ExpandRangeDigits` | autotable/processor/github_title.py:68-72 | the range x-y over digit strings expands to the renderings from x's value to y's value |
| `TitleProperties.ParseRange` | autotable/processor/github_title.py:68-72 | the whole pipeline on x-y over digit strings yields the ascending renderings from x's value to y's value |
| `TitleProperties.RangeOutputsReparse` | autotable/processor/github_title.py:72 | every index a range yields, parsed again on its own, expands to exactly itself |
| `TitleProperties.SingleOutputsReparse` | autotable/processor/github_title.py:79-84 | a title classified as a single, by the digit rule or the mode-true fallback, expands to exactly itself, unstripped, so its one output parsed again gives the same list |
| `TitleProperties.ExpandEnumeratedPieces` | autotable/processor/github_title.py:93-98 | an enumeration yields count+1 pieces: the stripped pieces, in order, of the split that re-joins into the title, with empty pieces kept |
| `TitleProperties.CollectMeaning` | autotable/processor/github_title.py:114-118 | collecting per-piece results succeeds exactly when every piece succeeds, gives their in-order concatenation, and otherwise gives the first failure |
| `TitleProperties.ExpandPiecesCollects` | autotable/processor/github_title.py:115-116 | expanding pieces in turn equals collecting each piece's independent parse |
| `TitleProperties.MixedCollects` | autotable/processor/github_title.py:114-118 | a Mixed title expands to the collected parses of its trimmed pieces |
| `TitleProperties.ExpandMixedPieces` | autotable/processor/github_title.py:114-118 | a Mixed title succeeds exactly when every trimmed piece parses; it then gives the in-order concatenation, and otherwise the first piece's failure |
| `TitleProperties.MixedFullWidthCommaFails` | autotable/processor/github_title.py:108-113 | a title classified Mixed with neither `、` nor `,` contains `，` and fails with the unsupported-mixed error |
| `TitleExamples.LabelDashIsSingle` | autotable/processor/github_title.py:22-25 | `"A-1"` has mode true and expands to `["A-1"]` |
| `TitleExamples.PlainWordsRejected` | autotable/processor/github_title.py:55-56 | `"No support!!"` is rejected with the unsupported-title error |
| `TitleExamples.EmptyRejected` | autotable/processor/github_title.py:12 | the empty title fails the non-empty check |
| `TitleExamples.EnumerationMarkList` | autotable/processor/github_title.py:45-46 | `"1、2、3"` expands to `["1","2","3"]` |
| `TitleExamples.EmptyPieceKept` | autotable/processor/github_title.py:96-98 | `"1,,2"` expands to `["1","","2"]` |
| `TitleExamples.SimpleRange` | autotable/processor/github_title.py:72 | `"1-3"` expands to `["1","2","3"]` |
| `TitleExamples.RangeDropsLeadingZeros` | autotable/processor/github_title.py:72 | `"01-03"` expands to `["1","2","3"]` |
| `TitleExamples.DescendingRangeEmpty` | autotable/processor/github_title.py:72 | `"3-1"` expands to the empty list |
| `TitleExamples.ThreePartRangeFails` | autotable/processor/github_title.py:71 | `"1-2-3"` is classified as a range and fails with the shape error |
| `TitleExamples.NonNumericBoundFails` | autotable/processor/github_title.py:72 | `"1-2x"` fails with `"2x"` reported as not an integer |
| `TitleExamples.DigitCommaRange` | autotable/processor/github_title.py:115-116 | for digits a, b, d, the title a,b-d expands to `[a]` followed by the range from b to d |
| `TitleExamples.MixedCommaRange` | autotable/processor/github_title.py:115-116 | `"1,2-3"` expands to `["1","2","3"]` |
| `TitleProperties.MixedEmptySecondPiece` | autotable/processor/github_title.py:115-116 | a three-piece mixed title whose first piece parses and whose second piece is empty fails with the empty-title error |
| `TitleExamples.DigitEmptyRangeFails` | autotable/processor/github_title.py:116 | for digits a, b, d, the title a,,b-d fails on its empty piece |
| `TitleExamples.MixedEmptyPieceFails` | autotable/processor/github_title.py:116 | `"1,,2-3"` fails with the empty-title error |
| `TitleExamples.DigitFullWidthCommaFails` | autotable/processor/github_title.py:108-113 | for digits a, b, d, the title a，b-d is classified Mixed and fails with the unsupported-mixed error |
| `TitleExamples.DigitBothMarks` | autotable/processor/github_title.py:108-116 | for digits a, b, d, e, the title a、b,d-e is split on `、`; its second piece b,d-e is mixed again and split on `,`, giving `[a, b]` followed by the range from d to e |
| `TitleExamples.MixedBothMarks` | autotable/processor/github_title.py:108-116 | `"1、2,3-4"` expands to `["1","2","3","4"]` |
| `TitleExamples.WordBeforeMark` | autotable/processor/github_title.py:108-109 | for a word character x, the title x、b,d-e is split on `、` first, so the piece x alone is rejected |
| `TitleExamples.CommaFirstSucceeds` | autotable/processor/github_title.py:108-116 | for the same titles x、b,d-e, a split on `,` instead would give the pieces x、b and d-e, which expand to x, b and the range from d to e, so the order of the two separators decides between failure and success; `"A、1,2-3"` is the instance x = A |
| `TitleExamples.MarkBeforeComma` | autotable/processor/github_title.py:108-109 | `"A、1,2-3"` fails with the unsupported-title error for `"A"` |
| `TitleExamples.MixedFullWidthCommaExample` | autotable/processor/github_title.py:113 | `"1，2-3"` is classified Mixed and fails with the unsupported-mixed error |

## Left out

- The external title cleaner (`strtool.clean_title`, line 9) is not part of this model. It
  is taken as the identity, so only the non-empty check on the cleaned title remains.
- Digits are ASCII `'0'..'9'`. Python's Unicode-aware `str.isdigit` also accepts other
  decimal and superscript digits.
- Decimal.ParseNat: does not model what Python's `int()` also tolerates in a range bound,
  namely a leading `+`, underscores between digits, and non-ASCII digits. Such bounds are
  `NotAnInteger` here. Whitespace around a bound cannot occur: a range title's first dash
  has a digit on each side, and a two-part split means that dash is the only one, so
  whitespace can only sit inside a bound, where `int()` rejects it too. A minus sign would
  be a second dash and give three parts.
- Decimal.ParseNat: does not model CPython's limit on the length of integer strings. From
  CPython 3.10.7, `int()` raises `ValueError` on a string of more than 4300 digits, leading
  zeros included, so a bound of 4300 zeros followed by `1` fails at line 72 where the model
  succeeds. The limit is a setting of the interpreter (`sys.set_int_max_str_digits`), not
  of this file, so bounds of any length are read here.
- The class hierarchy, its constructors, the object re-creation in `distribution_parser`,
  and the abstract `mate` of the base class (lines 59-60) are left out. The closed `Title`
  datatype has no abstract case.
- The Python exception types are left out. Every failure is a value of the one
  `TitleError` datatype.
- Whatever uses the expanded list downstream is outside this file and is not modelled.
- Idempotence of repeated expansion is not stated as a lemma. Every operation is a pure
  function, so two calls on the same title are equal by definition.
- TitleProperties.RangeOutputsReparse: re-parsing an output to itself is proved for Range
  outputs here and for Single outputs by `TitleProperties.SingleOutputsReparse`, not for
  every shape. It fails for Enumerated outputs: `"1,,2"` yields the empty piece `""`, which
  fails the non-empty check, and `"ab,c"` yields `"ab"`, which is rejected when parsed alone.
  Mixed outputs that contain such pieces fail in the same way.
- Titles.Parse: the non-empty check at line 12 is an `assert` statement, which Python
  drops when run with `-O` or `PYTHONOPTIMIZE`. An empty title, or an empty Mixed piece as
  in `"1,,2-3"`, would then fall through the cascade to the unsupported-title error at
  line 56 instead. The model always keeps the check and reports `EmptyTitle`. Like the
  digit limit above, this is an interpreter setting, not part of this file.
