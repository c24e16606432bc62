/**
 * What `validateColors` (lines 7-93) returns, as functions of its inputs:
 * which inputs produce a colour error, which index pairs produce an
 * accessibility issue, and the report built from them.
 */
module Report {
  import opened Wrappers
  import opened Hex
  import opened Distance
  import opened Palette
  import opened Contrast
  import opened Impact

  /**
   * A sampled colour with its optional role label and location.
   * `colorComparison.js` hands the whole item to `getColorDifference` at
   * line 35, which throws for a record at line 103; the model reads `.color`
   * in both passes, and a plain string `s` corresponds to `Item(s, None, None)`.
   */
  datatype Item = Item(color: string, element: Option<string>, location: Option<string>)

  datatype ColorError = ColorError(element: string, expectedColor: string, actualColor: string, location: string)

  datatype Issue = Issue(combination: string, contrastRatio: real, requirement: string, colorblindImpact: seq<string>)

  datatype ValidationReport = ValidationReport(
    colorCompliance: bool,
    colorErrors: seq<ColorError>,
    accessibilityIssues: seq<Issue>)

  /** Line 7: the default tolerance. */
  const DefaultTolerance: real := 25.0

  /** Line 24: the locals `element` and `location` are declared and never assigned. */
  const Unassigned: Option<string> := None

  const UnknownElement: string := "Unknown element"
  const NotSpecified: string := "Not specified"

  /** Lines 54-59: the entry recorded for an unmatched colour. */
  function ErrorFor(item: Item, brands: seq<string>): (e: ColorError)
    ensures e.element == UnknownElement && e.location == NotSpecified
    ensures e.actualColor == item.color
  {
    ColorError(OrDefault(Unassigned, UnknownElement), ExpectedColor(item.color, brands),
               item.color, OrDefault(Unassigned, NotSpecified))
  }

  predicate Matched(items: seq<Item>, brands: seq<string>, tol: real, i: int)
    requires 0 <= i < |items|
  {
    AnyWithin(items[i].color, brands, tol)
  }

  predicate Increasing(s: seq<nat>) {
    forall a, b :: 0 <= a < b < |s| ==> s[a] < s[b]
  }

  /** The indices below `n` that `ok` rejects, in increasing order. */
  function Rejected(ok: nat -> bool, n: nat): (u: seq<nat>)
    ensures forall k :: 0 <= k < |u| ==> u[k] < n
  {
    if n == 0 then []
    else
      var u := Rejected(ok, n - 1);
      if ok(n - 1) then u else u + [n - 1]
  }

  /** Every index listed is rejected. */
  lemma {:induction false} RejectedSound(ok: nat -> bool, n: nat)
    ensures forall k :: 0 <= k < |Rejected(ok, n)| ==> !ok(Rejected(ok, n)[k])
  {
    if n > 0 {
      RejectedSound(ok, n - 1);
      var u := Rejected(ok, n - 1);
      if !ok(n - 1) {
        var u' := u + [n - 1];
        forall k | 0 <= k < |u'| ensures !ok(u'[k]) {
          if k < |u| {
            assert u'[k] == u[k];
          }
        }
      }
    }
  }

  /** Every rejected index below `n` is listed. */
  lemma {:induction false} RejectedComplete(ok: nat -> bool, n: nat)
    ensures forall i :: 0 <= i < n && !ok(i) ==> i in Rejected(ok, n)
  {
    if n > 0 {
      RejectedComplete(ok, n - 1);
    }
  }

  /** The listed indices are increasing, so none is listed twice. */
  lemma {:induction false} RejectedIncreasing(ok: nat -> bool, n: nat)
    ensures Increasing(Rejected(ok, n))
  {
    if n > 0 {
      RejectedIncreasing(ok, n - 1);
    }
  }

  /** The test of line 52 for input `i`. */
  function MatchTest(items: seq<Item>, brands: seq<string>, tol: real): nat -> bool {
    (i: nat) => i < |items| && Matched(items, brands, tol, i)
  }

  /** The indices below `n` of the inputs no brand colour matches, in input order. */
  function Unmatched(items: seq<Item>, brands: seq<string>, tol: real, n: nat): seq<nat> {
    Rejected(MatchTest(items, brands, tol), n)
  }

  /** Every index listed belongs to an input no brand colour matches. */
  lemma UnmatchedSound(items: seq<Item>, brands: seq<string>, tol: real, n: nat)
    requires n <= |items|
    ensures forall k :: 0 <= k < |Unmatched(items, brands, tol, n)| ==>
      !Matched(items, brands, tol, Unmatched(items, brands, tol, n)[k])
  {
    RejectedSound(MatchTest(items, brands, tol), n);
  }

  /** Every input below `n` that no brand colour matches is listed. */
  lemma UnmatchedComplete(items: seq<Item>, brands: seq<string>, tol: real, n: nat)
    requires n <= |items|
    ensures forall i :: 0 <= i < n && !Matched(items, brands, tol, i) ==> i in Unmatched(items, brands, tol, n)
  {
    RejectedComplete(MatchTest(items, brands, tol), n);
  }

  /** The listed indices follow input order, so none is listed twice. */
  lemma UnmatchedIncreasing(items: seq<Item>, brands: seq<string>, tol: real, n: nat)
    ensures Increasing(Unmatched(items, brands, tol, n))
  {
    RejectedIncreasing(MatchTest(items, brands, tol), n);
  }

  /** No input below `n` is unmatched exactly when every input below `n` is matched. */
  lemma UnmatchedEmptyIff(items: seq<Item>, brands: seq<string>, tol: real, n: nat)
    requires n <= |items|
    ensures Unmatched(items, brands, tol, n) == [] <==> forall i :: 0 <= i < n ==> Matched(items, brands, tol, i)
  {
    var u := Unmatched(items, brands, tol, n);
    UnmatchedComplete(items, brands, tol, n);
    UnmatchedSound(items, brands, tol, n);
    if exists i :: 0 <= i < n && !Matched(items, brands, tol, i) {
      var i :| 0 <= i < n && !Matched(items, brands, tol, i);
      assert i in u;
    }
    if u != [] {
      assert !Matched(items, brands, tol, u[0]);
    }
  }

  function ErrorsAt(items: seq<Item>, brands: seq<string>, u: seq<nat>): (es: seq<ColorError>)
    requires forall k :: 0 <= k < |u| ==> u[k] < |items|
    ensures |es| == |u|
  {
    seq(|u|, k requires 0 <= k < |u| => ErrorFor(items[u[k]], brands))
  }

  // ----- accessibility pairs -----

  /** Lines 67-70: one side is labelled `background` and the other `text`. */
  predicate IsRolePair(e1: Option<string>, e2: Option<string>) {
    (e1 == Some("background") && e2 == Some("text")) ||
    (e1 == Some("text") && e2 == Some("background"))
  }

  /** The pair `(i, j)` yields an issue: a background/text pair below the AA ratio. */
  predicate LowContrastPair(items: seq<Item>, lum: Luminance, i: int, j: int)
    requires LuminanceInRange(lum)
    requires 0 <= i < |items| && 0 <= j < |items|
  {
    IsRolePair(items[i].element, items[j].element) &&
    ContrastRatio(items[i].color, items[j].color, lum) < WcagAaRequirement
  }

  predicate PairLess(p: (nat, nat), q: (nat, nat)) {
    p.0 < q.0 || (p.0 == q.0 && p.1 < q.1)
  }

  predicate PairsIncreasing(s: seq<(nat, nat)>) {
    forall a, b :: 0 <= a < b < |s| ==> PairLess(s[a], s[b])
  }

  /**
   * The pairs `(i, j)` with `i < j < m` that `keep` selects, for one `i`
   * (the inner loop, line 65), in loop order.
   */
  function RowBy(keep: (nat, nat) -> bool, i: nat, m: nat): (r: seq<(nat, nat)>)
    ensures forall k :: 0 <= k < |r| ==> r[k].0 == i && i < r[k].1 < m
  {
    if m <= i + 1 then []
    else
      var r := RowBy(keep, i, m - 1);
      if keep(i, m - 1) then r + [(i, m - 1)] else r
  }

  /** The pairs `i < j < size` with `i < n` that `keep` selects (the outer loop, line 64), in loop order. */
  function PairsBy(keep: (nat, nat) -> bool, size: nat, n: nat): (ps: seq<(nat, nat)>)
    ensures forall k :: 0 <= k < |ps| ==> ps[k].0 < n && ps[k].0 < ps[k].1 < size
  {
    if n == 0 then [] else PairsBy(keep, size, n - 1) + RowBy(keep, n - 1, size)
  }

  /** Every pair of a row is selected. */
  lemma {:induction false} RowBySound(keep: (nat, nat) -> bool, i: nat, m: nat)
    ensures forall k :: 0 <= k < |RowBy(keep, i, m)| ==> keep(i, RowBy(keep, i, m)[k].1)
  {
    if m > i + 1 {
      RowBySound(keep, i, m - 1);
      var r := RowBy(keep, i, m - 1);
      if keep(i, m - 1) {
        var r' := r + [(i, m - 1)];
        forall k | 0 <= k < |r'| ensures keep(i, r'[k].1) {
          if k < |r| {
            assert r'[k] == r[k];
          }
        }
      }
    }
  }

  /** A row lists each second index once, in increasing order. */
  lemma {:induction false} RowByIncreasing(keep: (nat, nat) -> bool, i: nat, m: nat)
    ensures forall a, b :: 0 <= a < b < |RowBy(keep, i, m)| ==> RowBy(keep, i, m)[a].1 < RowBy(keep, i, m)[b].1
  {
    if m > i + 1 {
      RowByIncreasing(keep, i, m - 1);
    }
  }

  /** Every selected pair `(i, j)` with `i < j < m` is in the row. */
  lemma {:induction false} RowByComplete(keep: (nat, nat) -> bool, i: nat, m: nat, j: nat)
    requires i < j < m && keep(i, j)
    ensures (i, j) in RowBy(keep, i, m)
  {
    if j < m - 1 {
      RowByComplete(keep, i, m - 1, j);
    }
  }

  /** Every pair produced is selected, in strictly increasing loop order. */
  lemma {:induction false} PairsBySound(keep: (nat, nat) -> bool, size: nat, n: nat)
    ensures forall k :: 0 <= k < |PairsBy(keep, size, n)| ==> keep(PairsBy(keep, size, n)[k].0, PairsBy(keep, size, n)[k].1)
    ensures PairsIncreasing(PairsBy(keep, size, n))
  {
    if n > 0 {
      var front := PairsBy(keep, size, n - 1);
      var row := RowBy(keep, n - 1, size);
      PairsBySound(keep, size, n - 1);
      RowBySound(keep, n - 1, size);
      RowByIncreasing(keep, n - 1, size);
      AppendRowIncreasing(front, row, n - 1);
      var ps := front + row;
      forall k | 0 <= k < |ps| ensures keep(ps[k].0, ps[k].1) {
        if k < |front| {
          assert ps[k] == front[k];
        } else {
          assert ps[k] == row[k - |front|];
        }
      }
    }
  }

  /** Every selected pair `i < j < size` with `i < n` is produced. */
  lemma {:induction false} PairsByComplete(keep: (nat, nat) -> bool, size: nat, n: nat, i: nat, j: nat)
    requires i < n && i < j < size && keep(i, j)
    ensures (i, j) in PairsBy(keep, size, n)
  {
    if i < n - 1 {
      PairsByComplete(keep, size, n - 1, i, j);
    } else {
      RowByComplete(keep, i, size, j);
    }
  }

  /** The selection of lines 67-70 and 80. */
  function LowTest(items: seq<Item>, lum: Luminance): (nat, nat) -> bool
    requires LuminanceInRange(lum)
  {
    (i: nat, j: nat) => i < |items| && j < |items| && LowContrastPair(items, lum, i, j)
  }

  /** The issue pairs `(i, j)` with `i < j < m`, for one `i`. */
  function Row(items: seq<Item>, lum: Luminance, i: nat, m: nat): seq<(nat, nat)>
    requires LuminanceInRange(lum)
  {
    RowBy(LowTest(items, lum), i, m)
  }

  /** The issue pairs whose first index is below `n`, in loop order. */
  function Pairs(items: seq<Item>, lum: Luminance, n: nat): seq<(nat, nat)>
    requires LuminanceInRange(lum)
  {
    PairsBy(LowTest(items, lum), |items|, n)
  }

  /** Every pair produced is a low-contrast background/text pair, in strictly increasing loop order. */
  lemma PairsSound(items: seq<Item>, lum: Luminance, n: nat)
    requires LuminanceInRange(lum)
    ensures forall k :: 0 <= k < |Pairs(items, lum, n)| ==>
      LowContrastPair(items, lum, Pairs(items, lum, n)[k].0, Pairs(items, lum, n)[k].1)
    ensures PairsIncreasing(Pairs(items, lum, n))
  {
    PairsBySound(LowTest(items, lum), |items|, n);
  }

  /** Every low-contrast background/text pair `i < j` with `i < n` is produced. */
  lemma PairsComplete(items: seq<Item>, lum: Luminance, n: nat, i: nat, j: nat)
    requires LuminanceInRange(lum)
    requires n <= |items| && i < n && i < j < |items|
    requires LowContrastPair(items, lum, i, j)
    ensures (i, j) in Pairs(items, lum, n)
  {
    PairsByComplete(LowTest(items, lum), |items|, n, i, j);
  }

  /** Appending the row of `i` to the pairs of smaller first index keeps loop order. */
  lemma AppendRowIncreasing(front: seq<(nat, nat)>, row: seq<(nat, nat)>, i: nat)
    requires PairsIncreasing(front)
    requires forall k :: 0 <= k < |front| ==> front[k].0 < i
    requires forall k :: 0 <= k < |row| ==> row[k].0 == i
    requires forall a, b :: 0 <= a < b < |row| ==> row[a].1 < row[b].1
    ensures PairsIncreasing(front + row)
  {
    var s := front + row;
    forall a, b | 0 <= a < b < |s| ensures PairLess(s[a], s[b]) {
      if b < |front| {
        assert s[a] == front[a] && s[b] == front[b];
      } else if a < |front| {
        assert s[a] == front[a] && s[b] == row[b - |front|];
      } else {
        assert s[a] == row[a - |front|] && s[b] == row[b - |front|];
      }
    }
  }

  /** Line 82: the `combination` text. */
  function Combination(a: Item, b: Item): string {
    a.element.GetOr("undefined") + " (" + a.color + ") and " + b.element.GetOr("undefined") + " (" + b.color + ")"
  }

  /** Lines 81-86: the issue recorded for the pair `(i, j)`. */
  function IssueFor(items: seq<Item>, lum: Luminance, p: (nat, nat)): (issue: Issue)
    requires LuminanceInRange(lum)
    requires p.0 < |items| && p.1 < |items|
    ensures issue.requirement == RequirementText
    ensures LowContrastPair(items, lum, p.0, p.1) ==> 1.0 <= issue.contrastRatio <= WcagAaRequirement
  {
    var a := items[p.0];
    var b := items[p.1];
    assert LowContrastPair(items, lum, p.0, p.1) ==> 1.0 <= Round2(ContrastRatio(a.color, b.color, lum)) <= WcagAaRequirement by {
      if LowContrastPair(items, lum, p.0, p.1) {
        Round2BelowAa(ContrastRatio(a.color, b.color, lum));
      }
    }
    Issue(Combination(a, b), Round2(ContrastRatio(a.color, b.color, lum)), RequirementText, Impacts(a.color, b.color))
  }

  function IssuesAt(items: seq<Item>, lum: Luminance, ps: seq<(nat, nat)>): (issues: seq<Issue>)
    requires LuminanceInRange(lum)
    requires forall k :: 0 <= k < |ps| ==> ps[k].0 < |items| && ps[k].1 < |items|
    ensures |issues| == |ps|
  {
    seq(|ps|, k requires 0 <= k < |ps| => IssueFor(items, lum, ps[k]))
  }

  // ----- the report -----

  /** The report `validateColors` returns for `items` against the brand colours of `palette`. */
  function Validate(items: seq<Item>, palette: seq<Category>, tol: real, lum: Luminance): (rep: ValidationReport)
    requires LuminanceInRange(lum)
    ensures rep.colorCompliance <==> rep.colorErrors == []
    ensures items == [] ==> rep == ValidationReport(true, [], [])
  {
    var brands := Flatten(palette);
    var n := |items|;
    var u := Unmatched(items, brands, tol, n);
    var compliant := forall i :: 0 <= i < n ==> Matched(items, brands, tol, i);
    UnmatchedEmptyIff(items, brands, tol, n);
    ValidationReport(compliant, ErrorsAt(items, brands, u), IssuesAt(items, lum, Pairs(items, lum, n)))
  }

  // ----- properties of the report -----

  /**
   * `colorErrors` holds one entry per unmatched input, in input order; each
   * names that input as `actualColor`, its first nearest brand colour (or the
   * fallback) as `expectedColor`, and always the default element and location.
   */
  lemma ColorErrorsPerUnmatchedInput(items: seq<Item>, palette: seq<Category>, tol: real, lum: Luminance)
    requires LuminanceInRange(lum)
    ensures var errors := Validate(items, palette, tol, lum).colorErrors;
            var u := Unmatched(items, Flatten(palette), tol, |items|);
            |errors| == |u| &&
            forall k :: 0 <= k < |errors| ==>
              errors[k].actualColor == items[u[k]].color &&
              errors[k].expectedColor == ExpectedColor(items[u[k]].color, Flatten(palette)) &&
              errors[k].element == UnknownElement && errors[k].location == NotSpecified
  {
  }

  /** An input list made only of exact brand colours is compliant whenever `tol > 0`. */
  lemma ExactBrandColorsCompliant(items: seq<Item>, palette: seq<Category>, tol: real, lum: Luminance)
    requires LuminanceInRange(lum)
    requires tol > 0.0
    requires forall i :: 0 <= i < |items| ==>
      (HexToRgb(items[i].color).Some? &&
       exists j :: 0 <= j < |Flatten(palette)| && HexToRgb(items[i].color) == HexToRgb(Flatten(palette)[j]))
    ensures Validate(items, palette, tol, lum).colorCompliance
    ensures Validate(items, palette, tol, lum).colorErrors == []
  {
    var brands := Flatten(palette);
    forall i | 0 <= i < |items| ensures Matched(items, brands, tol, i) {
      assert exists j :: 0 <= j < |brands| && HexToRgb(items[i].color) == HexToRgb(brands[j]);
      var j :| 0 <= j < |brands| && HexToRgb(items[i].color) == HexToRgb(brands[j]);
      ExactBrandColorMatches(items[i].color, brands, j, tol);
    }
  }

  /** With `tol <= 0` every input is reported, in input order, even an exact brand colour. */
  lemma {:induction false} NonPositiveToleranceReportsAll(items: seq<Item>, palette: seq<Category>, tol: real, n: nat)
    requires tol <= 0.0 && n <= |items|
    ensures |Unmatched(items, Flatten(palette), tol, n)| == n
    ensures forall k :: 0 <= k < n ==> Unmatched(items, Flatten(palette), tol, n)[k] == k
  {
    if n > 0 {
      NonPositiveToleranceReportsAll(items, palette, tol, n - 1);
      NonPositiveToleranceMatchesNothing(items[n - 1].color, Flatten(palette), tol);
    }
  }

  /** Raising the tolerance never adds a colour error: every input reported at `t2` is reported at `t1`. */
  lemma UnmatchedShrinks(items: seq<Item>, brands: seq<string>, t1: real, t2: real)
    requires t1 <= t2
    ensures forall i :: i in Unmatched(items, brands, t2, |items|) ==> i in Unmatched(items, brands, t1, |items|)
  {
    UnmatchedSound(items, brands, t2, |items|);
    UnmatchedComplete(items, brands, t1, |items|);
    forall i | 0 <= i < |items|
      ensures Matched(items, brands, t1, i) ==> Matched(items, brands, t2, i)
    {
      ToleranceMonotone(items[i].color, brands, t1, t2);
    }
  }

  /** A report compliant at tolerance `t1` stays compliant at every larger tolerance. */
  lemma ComplianceMonotone(items: seq<Item>, palette: seq<Category>, t1: real, t2: real, lum: Luminance)
    requires LuminanceInRange(lum)
    requires t1 <= t2
    ensures Validate(items, palette, t1, lum).colorCompliance ==> Validate(items, palette, t2, lum).colorCompliance
  {
    var brands := Flatten(palette);
    UnmatchedShrinks(items, brands, t1, t2);
    UnmatchedEmptyIff(items, brands, t1, |items|);
    UnmatchedEmptyIff(items, brands, t2, |items|);
    var u := Unmatched(items, brands, t2, |items|);
    if u != [] {
      assert u[0] in u;
    }
  }

  /** An accessibility issue needs some input labelled `background` and another labelled `text`. */
  lemma IssuesNeedRolePair(items: seq<Item>, palette: seq<Category>, tol: real, lum: Luminance)
    requires LuminanceInRange(lum)
    ensures Validate(items, palette, tol, lum).accessibilityIssues != [] ==>
      (exists i :: 0 <= i < |items| && items[i].element == Some("background")) &&
      (exists i :: 0 <= i < |items| && items[i].element == Some("text"))
  {
    var ps := Pairs(items, lum, |items|);
    PairsSound(items, lum, |items|);
    if |ps| > 0 {
      var p := ps[0];
      assert IsRolePair(items[p.0].element, items[p.1].element);
      if items[p.0].element == Some("background") {
        assert items[p.1].element == Some("text");
      } else {
        assert items[p.1].element == Some("background");
      }
    }
  }

  /** Inputs without role labels, as plain colour strings are, never give an accessibility issue. */
  lemma UnlabelledInputsNoIssues(items: seq<Item>, palette: seq<Category>, tol: real, lum: Luminance)
    requires LuminanceInRange(lum)
    requires forall i :: 0 <= i < |items| ==> items[i].element == None
    ensures Validate(items, palette, tol, lum).accessibilityIssues == []
  {
    IssuesNeedRolePair(items, palette, tol, lum);
  }

  /**
   * `accessibilityIssues` holds one entry per low-contrast background/text pair
   * `i < j`, in the loop's order (lexicographic, so no pair twice), each with
   * the AA requirement text and the colour-blindness estimate of the pair.
   */
  lemma IssuesPerLowContrastPair(items: seq<Item>, palette: seq<Category>, tol: real, lum: Luminance)
    requires LuminanceInRange(lum)
    ensures var issues := Validate(items, palette, tol, lum).accessibilityIssues;
            var ps := Pairs(items, lum, |items|);
            |issues| == |ps| &&
            forall k :: 0 <= k < |issues| ==>
              issues[k].requirement == RequirementText &&
              issues[k].colorblindImpact == Impacts(items[ps[k].0].color, items[ps[k].1].color) &&
              issues[k].combination == Combination(items[ps[k].0], items[ps[k].1]) &&
              issues[k].contrastRatio == Round2(ContrastRatio(items[ps[k].0].color, items[ps[k].1].color, lum)) &&
              1.0 <= issues[k].contrastRatio <= 4.5
  {
    var issues := Validate(items, palette, tol, lum).accessibilityIssues;
    var ps := Pairs(items, lum, |items|);
    PairsSound(items, lum, |items|);
    forall k | 0 <= k < |issues|
      ensures 1.0 <= issues[k].contrastRatio <= 4.5
    {
      assert LowContrastPair(items, lum, ps[k].0, ps[k].1);
      Round2BelowAa(ContrastRatio(items[ps[k].0].color, items[ps[k].1].color, lum));
    }
  }

  // ----- scenarios -----

  /** A single exact brand red at the default tolerance is compliant. */
  lemma BrandRedCompliant(lum: Luminance)
    requires LuminanceInRange(lum)
    ensures Validate([Item("#FF0000", None, None)], BrandPalette, DefaultTolerance, lum)
            == ValidationReport(true, [], [])
  {
    BrandColorsInScanOrder();
    LiteralParses("#FF0000");
    ExactBrandColorMatches("#FF0000", Flatten(BrandPalette), 0, DefaultTolerance);
  }

  /** Against an empty palette a colour is reported with the fallback suggestion. */
  lemma EmptyPaletteFallback(tol: real, lum: Luminance)
    requires LuminanceInRange(lum)
    ensures Validate([Item("#123456", None, None)], [], tol, lum).colorErrors
            == [ColorError(UnknownElement, AnyBrandColor, "#123456", NotSpecified)]
  {
    var items := [Item("#123456", None, None)];
    assert Flatten([]) == [];
    assert !Matched(items, [], tol, 0);
    assert Unmatched(items, [], tol, 1) == [0];
    assert Nearest("#123456", []) == None;
    assert ErrorFor(items[0], []) == ColorError(UnknownElement, AnyBrandColor, "#123456", NotSpecified);
  }

  lemma TwoItemPairs(items: seq<Item>, lum: Luminance)
    requires LuminanceInRange(lum)
    requires |items| == 2 && LowContrastPair(items, lum, 0, 1)
    ensures Pairs(items, lum, 2) == [(0, 1)]
  {
    assert Row(items, lum, 0, 1) == [];
    assert Row(items, lum, 0, 2) == [(0, 1)];
    assert Row(items, lum, 1, 2) == [];
    assert Pairs(items, lum, 1) == [(0, 1)];
  }

  /**
   * A background colour and a text colour below 4.5:1 give exactly one issue,
   * carrying the AA requirement and naming both colours with their roles.
   */
  lemma LowContrastPairScenario(bg: string, text: string, palette: seq<Category>, tol: real, lum: Luminance)
    requires LuminanceInRange(lum)
    requires ContrastRatio(bg, text, lum) < WcagAaRequirement
    ensures var issues := Validate([Item(bg, Some("background"), None), Item(text, Some("text"), None)],
                                  palette, tol, lum).accessibilityIssues;
            |issues| == 1 &&
            issues[0].requirement == "WCAG AA 4.5:1" &&
            issues[0].combination == "background (" + bg + ") and text (" + text + ")"
  {
    var items := [Item(bg, Some("background"), None), Item(text, Some("text"), None)];
    assert LowContrastPair(items, lum, 0, 1);
    TwoItemPairs(items, lum);
    OneIssue(items, lum);
    CombinationText(bg, text);
  }

  lemma OneIssue(items: seq<Item>, lum: Luminance)
    requires LuminanceInRange(lum)
    requires |items| == 2
    ensures |IssuesAt(items, lum, [(0, 1)])| == 1
    ensures IssuesAt(items, lum, [(0, 1)])[0].requirement == RequirementText
    ensures IssuesAt(items, lum, [(0, 1)])[0].combination == Combination(items[0], items[1])
  {
  }

  lemma CombinationText(bg: string, text: string)
    ensures Combination(Item(bg, Some("background"), None), Item(text, Some("text"), None))
            == "background (" + bg + ") and text (" + text + ")"
  {
  }
}
