/**
 * `validateColors` (lines 7-93) as the loops it is written with: the scan of
 * one colour over the palette, the pass over the inputs that records colour
 * errors, and the double loop over index pairs that records accessibility
 * issues. Each method is proved to compute the functions of module Report.
 */
module Validator {
  import opened Wrappers
  import opened Hex
  import opened Distance
  import opened Palette
  import opened Contrast
  import opened Impact
  import opened Report

  lemma AnyWithinAppend(color: string, seen: seq<string>, brand: string, tol: real)
    ensures AnyWithin(color, seen + [brand], tol) <==>
      AnyWithin(color, seen, tol) || Within(ColorDifference(color, brand), tol)
  {
    var s := seen + [brand];
    if AnyWithin(color, s, tol) && !Within(ColorDifference(color, brand), tol) {
      var j :| 0 <= j < |s| && Within(ColorDifference(color, s[j]), tol);
      assert s[j] == seen[j];
    }
    if AnyWithin(color, seen, tol) {
      var j :| 0 <= j < |seen| && Within(ColorDifference(color, seen[j]), tol);
      assert s[j] == seen[j];
    }
    if Within(ColorDifference(color, brand), tol) {
      assert s[|seen|] == brand;
    }
  }

  lemma DiffsAppend(color: string, seen: seq<string>, brand: string)
    ensures Diffs(color, seen + [brand]) == Diffs(color, seen) + [ColorDifference(color, brand)]
  {
  }

  lemma FlattenStep(p: seq<Category>, i: nat)
    requires i < |p|
    ensures Flatten(p[..i + 1]) == Flatten(p[..i]) + p[i].colors
  {
    assert p[..i + 1][..i] == p[..i];
  }

  /**
   * The scan state after the brand colours `seen`: `matched` tells whether one
   * was within tolerance, `closest` and `closestDiff` are the colour and the
   * difference of the first nearest one (`None` while all were Infinity).
   */
  ghost predicate ScanState(color: string, tol: real, seen: seq<string>,
                            matched: bool, closest: Option<string>, closestDiff: Option<nat>)
  {
    matched == AnyWithin(color, seen, tol) &&
    var best := FirstMin(Diffs(color, seen));
    (best.Some? ==> best.value < |seen|) &&
    closest == (if best.Some? then Some(seen[best.value]) else None) &&
    closestDiff == (if best.Some? then ColorDifference(color, seen[best.value]) else None)
  }

  /** One step of lines 35-47 keeps the scan state. */
  lemma ScanStep(color: string, tol: real, seen: seq<string>, brand: string,
                 matched: bool, closest: Option<string>, closestDiff: Option<nat>)
    requires ScanState(color, tol, seen, matched, closest, closestDiff)
    ensures var d := ColorDifference(color, brand);
            ScanState(color, tol, seen + [brand],
                      matched || Within(d, tol),
                      if Closer(d, closestDiff) then Some(brand) else closest,
                      if Closer(d, closestDiff) then d else closestDiff)
  {
    AnyWithinAppend(color, seen, brand, tol);
    DiffsAppend(color, seen, brand);
    var s := seen + [brand];
    var ds := Diffs(color, s);
    assert ds[..|seen|] == Diffs(color, seen);
    var best := FirstMin(Diffs(color, seen));
    if best.Some? {
      assert s[best.value] == seen[best.value];
    }
  }

  /** The locals `matched` and `closestMatch` of lines 25-30 (the category is never read). */
  datatype ScanResult = ScanResult(matched: bool, closest: Option<string>, closestDiff: Option<nat>)

  /** Lines 35-47: what one brand colour does to the scan state. */
  function ScanOne(st: ScanResult, color: string, tol: real, brand: string): ScanResult {
    var difference := ColorDifference(color, brand);
    ScanResult(st.matched || Within(difference, tol),
               if Closer(difference, st.closestDiff) then Some(brand) else st.closest,
               if Closer(difference, st.closestDiff) then difference else st.closestDiff)
  }

  /** The scan state after the brand colours `seen`, from the initial `false` / `Infinity`. */
  function Scan(color: string, tol: real, seen: seq<string>): ScanResult {
    if seen == [] then ScanResult(false, None, None)
    else ScanOne(Scan(color, tol, seen[..|seen| - 1]), color, tol, seen[|seen| - 1])
  }

  lemma ScanAppend(color: string, tol: real, seen: seq<string>, brand: string)
    ensures Scan(color, tol, seen + [brand]) == ScanOne(Scan(color, tol, seen), color, tol, brand)
  {
    assert (seen + [brand])[..|seen|] == seen;
  }

  /** The scan state means what module Palette says: a match exists, and the first nearest colour. */
  lemma {:induction false} ScanMeaning(color: string, tol: real, seen: seq<string>)
    ensures var st := Scan(color, tol, seen);
            ScanState(color, tol, seen, st.matched, st.closest, st.closestDiff)
  {
    if seen != [] {
      var pre := seen[..|seen| - 1];
      ScanMeaning(color, tol, pre);
      var st := Scan(color, tol, pre);
      ScanStep(color, tol, pre, seen[|seen| - 1], st.matched, st.closest, st.closestDiff);
      assert pre + [seen[|seen| - 1]] == seen;
    }
  }

  /** At the end of the scan its state gives the answers the functions of module Palette define. */
  lemma ScanStateFinal(color: string, tol: real, seen: seq<string>,
                       matched: bool, closest: Option<string>, closestDiff: Option<nat>)
    requires ScanState(color, tol, seen, matched, closest, closestDiff)
    ensures matched == AnyWithin(color, seen, tol)
    ensures closest == NearestColor(color, seen)
  {
  }

  /** The scan state after continuing from `st` over the brand colours `rest`, front to back. */
  function ScanFrom(st: ScanResult, color: string, tol: real, rest: seq<string>): ScanResult
    decreases |rest|
  {
    if rest == [] then st else ScanFrom(ScanOne(st, color, tol, rest[0]), color, tol, rest[1..])
  }

  /** Continuing the scan of `seen` over `rest` is the scan of `seen + rest`. */
  lemma {:induction false} ScanFromScan(color: string, tol: real, seen: seq<string>, rest: seq<string>)
    ensures ScanFrom(Scan(color, tol, seen), color, tol, rest) == Scan(color, tol, seen + rest)
    decreases |rest|
  {
    if rest == [] {
      assert seen + rest == seen;
    } else {
      ScanAppend(color, tol, seen, rest[0]);
      ScanFromScan(color, tol, seen + [rest[0]], rest[1..]);
      assert seen + [rest[0]] + rest[1..] == seen + rest;
    }
  }

  /**
   * Lines 34-48: the scan over the colours of one category, continuing the
   * state left by the brand colours `seen` before it.
   */
  method ScanCategory(color: string, colors: seq<string>, tol: real, ghost seen: seq<string>,
                      matched0: bool, closest0: Option<string>, closestDiff0: Option<nat>)
    returns (matched: bool, closest: Option<string>, closestDiff: Option<nat>)
    requires ScanResult(matched0, closest0, closestDiff0) == Scan(color, tol, seen)
    ensures ScanResult(matched, closest, closestDiff) == Scan(color, tol, seen + colors)
  {
    matched, closest, closestDiff := matched0, closest0, closestDiff0;
    ScanFromScan(color, tol, seen, colors);
    var k := 0;
    while k < |colors|
      invariant 0 <= k <= |colors|
      invariant ScanFrom(ScanResult(matched, closest, closestDiff), color, tol, colors[k..]) == Scan(color, tol, seen + colors)
    {
      var brandColor := colors[k];
      var difference := ColorDifference(color, brandColor);
      ghost var rest := colors[k..];
      ghost var next := ScanOne(ScanResult(matched, closest, closestDiff), color, tol, brandColor);
      assert rest[0] == brandColor && rest[1..] == colors[k + 1..];
      if Within(difference, tol) {
        matched := true;
      }
      if Closer(difference, closestDiff) {
        closest := Some(brandColor);
        closestDiff := difference;
      }
      assert ScanResult(matched, closest, closestDiff) == next;
      k := k + 1;
    }
  }

  /**
   * Lines 25-49: the scan of one colour over every brand colour, in category
   * order. `matched` says whether some brand colour is within tolerance and
   * `closest` is the first nearest brand colour, `None` while all are Infinity.
   */
  method MatchColor(color: string, palette: seq<Category>, tol: real) returns (matched: bool, closest: Option<string>)
    ensures matched == AnyWithin(color, Flatten(palette), tol)
    ensures closest == NearestColor(color, Flatten(palette))
  {
    matched := false;
    closest := None;
    var closestDiff: Option<nat> := None;
    var c := 0;
    while c < |palette|
      invariant 0 <= c <= |palette|
      invariant ScanResult(matched, closest, closestDiff) == Scan(color, tol, Flatten(palette[..c]))
    {
      FlattenStep(palette, c);
      matched, closest, closestDiff :=
        ScanCategory(color, palette[c].colors, tol, Flatten(palette[..c]), matched, closest, closestDiff);
      c := c + 1;
    }
    assert palette[..c] == palette;
    ScanMeaning(color, tol, Flatten(palette));
    ScanStateFinal(color, tol, Flatten(palette), matched, closest, closestDiff);
  }

  /** The entry built at lines 54-59 is the one `ErrorFor` describes. */
  lemma ErrorEntry(item: Item, brands: seq<string>, closest: Option<string>)
    requires closest == NearestColor(item.color, brands)
    ensures ColorError(OrDefault(Unassigned, UnknownElement), OrDefault(closest, AnyBrandColor),
                       item.color, OrDefault(Unassigned, NotSpecified)) == ErrorFor(item, brands)
  {
  }

  lemma ErrorsAtAppend(items: seq<Item>, brands: seq<string>, u: seq<nat>, i: nat)
    requires i < |items| && forall k :: 0 <= k < |u| ==> u[k] < |items|
    ensures ErrorsAt(items, brands, u + [i]) == ErrorsAt(items, brands, u) + [ErrorFor(items[i], brands)]
  {
  }

  lemma IssuesAtAppend(items: seq<Item>, lum: Luminance, ps: seq<(nat, nat)>, p: (nat, nat))
    requires LuminanceInRange(lum)
    requires forall k :: 0 <= k < |ps| ==> ps[k].0 < |items| && ps[k].1 < |items|
    requires p.0 < |items| && p.1 < |items|
    ensures IssuesAt(items, lum, ps + [p]) == IssuesAt(items, lum, ps) + [IssueFor(items, lum, p)]
  {
  }

  /** One step of the loop over the inputs (line 22): an unmatched input adds its entry and clears compliance. */
  lemma UnmatchedStep(items: seq<Item>, brands: seq<string>, tol: real, n: nat)
    requires n < |items|
    ensures (Unmatched(items, brands, tol, n + 1) == []) ==
      (Unmatched(items, brands, tol, n) == [] && Matched(items, brands, tol, n))
    ensures Matched(items, brands, tol, n) ==>
      ErrorsAt(items, brands, Unmatched(items, brands, tol, n + 1)) == ErrorsAt(items, brands, Unmatched(items, brands, tol, n))
    ensures !Matched(items, brands, tol, n) ==>
      ErrorsAt(items, brands, Unmatched(items, brands, tol, n + 1)) ==
      ErrorsAt(items, brands, Unmatched(items, brands, tol, n)) + [ErrorFor(items[n], brands)]
  {
    if !Matched(items, brands, tol, n) {
      ErrorsAtAppend(items, brands, Unmatched(items, brands, tol, n), n);
    }
  }

  /**
   * Lines 22-60 for one input: the scan over the brand colours, then the
   * entry recorded when no brand colour is within tolerance.
   */
  method CheckColor(item: Item, palette: seq<Category>, tol: real) returns (entry: Option<ColorError>)
    ensures entry == if AnyWithin(item.color, Flatten(palette), tol) then None else Some(ErrorFor(item, Flatten(palette)))
  {
    var element, location := Unassigned, Unassigned;
    var matched, closest := MatchColor(item.color, palette, tol);
    if matched {
      entry := None;
    } else {
      ErrorEntry(item, Flatten(palette), closest);
      entry := Some(ColorError(OrDefault(element, UnknownElement), OrDefault(closest, AnyBrandColor),
                               item.color, OrDefault(location, NotSpecified)));
    }
  }

  /**
   * Lines 22-61: one scan per input; an unmatched input clears
   * `colorCompliance` and appends its entry to `colorErrors`.
   */
  method CollectColorErrors(items: seq<Item>, palette: seq<Category>, tol: real)
    returns (compliance: bool, errors: seq<ColorError>)
    ensures compliance == (Unmatched(items, Flatten(palette), tol, |items|) == [])
    ensures errors == ErrorsAt(items, Flatten(palette), Unmatched(items, Flatten(palette), tol, |items|))
  {
    ghost var brands := Flatten(palette);
    compliance := true;
    errors := [];
    var n := 0;
    while n < |items|
      invariant 0 <= n <= |items|
      invariant compliance == (Unmatched(items, brands, tol, n) == [])
      invariant errors == ErrorsAt(items, brands, Unmatched(items, brands, tol, n))
    {
      var entry := CheckColor(items[n], palette, tol);
      assert entry.None? == Matched(items, brands, tol, n);
      UnmatchedStep(items, brands, tol, n);
      if entry.Some? {
        compliance := false;
        errors := errors + [entry.value];
      }
      n := n + 1;
    }
  }

  lemma AppendAssoc<T>(a: seq<T>, b: seq<T>, c: seq<T>)
    ensures (a + b) + c == a + (b + c)
  {
  }

  lemma AppendEmpty<T>(a: seq<T>)
    ensures a + [] == a && [] + a == a
  {
  }

  /** A loop step that appends `added`: what was still to come is `added` followed by `rest`. */
  lemma AppendStep<T>(done: seq<T>, todo: seq<T>, target: seq<T>, added: seq<T>, rest: seq<T>)
    requires done + todo == target
    requires todo == added + rest
    ensures (done + added) + rest == target
  {
    AppendAssoc(done, added, rest);
  }

  lemma Regroup<T>(a: seq<T>, c: seq<T>, f: seq<T>, rest: seq<T>, t: seq<T>)
    requires (a + c) + rest == t
    requires f == c + rest
    ensures a + f == t
  {
    AppendAssoc(a, c, rest);
  }

  /** A loop step that appends nothing. */
  lemma SkipStep<T>(done: seq<T>, todo: seq<T>, target: seq<T>, rest: seq<T>)
    requires done + todo == target
    requires todo == [] + rest
    ensures done + rest == target
  {
    AppendEmpty(rest);
  }

  /** One step of the inner loop (line 65) adds the issue of `(i, j)` exactly when it is a low-contrast pair. */
  lemma RowStep(items: seq<Item>, lum: Luminance, i: nat, j: nat)
    requires LuminanceInRange(lum)
    requires i < j < |items|
    ensures IssuesAt(items, lum, Pairs(items, lum, i) + Row(items, lum, i, j + 1)) ==
      IssuesAt(items, lum, Pairs(items, lum, i) + Row(items, lum, i, j)) +
      (if LowContrastPair(items, lum, i, j) then [IssueFor(items, lum, (i, j))] else [])
  {
    var done := Pairs(items, lum, i) + Row(items, lum, i, j);
    if LowContrastPair(items, lum, i, j) {
      assert Pairs(items, lum, i) + Row(items, lum, i, j + 1) == done + [(i, j)];
      IssuesAtAppend(items, lum, done, (i, j));
    }
  }

  /** The issues the inner loop still adds from `j` on, in loop order. */
  function RowIssuesFrom(items: seq<Item>, lum: Luminance, i: nat, j: nat): seq<Issue>
    requires LuminanceInRange(lum)
    requires i < j
    decreases |items| - j
  {
    if j >= |items| then []
    else
      (if LowContrastPair(items, lum, i, j) then [IssueFor(items, lum, (i, j))] else []) +
      RowIssuesFrom(items, lum, i, j + 1)
  }

  /** The issues of the pairs before `(i, j)` followed by those still to come are the issues up to row `i`. */
  lemma {:induction false} RowIssuesFromRest(items: seq<Item>, lum: Luminance, i: nat, j: nat)
    requires LuminanceInRange(lum)
    requires i < j <= |items|
    ensures IssuesAt(items, lum, Pairs(items, lum, i) + Row(items, lum, i, j)) + RowIssuesFrom(items, lum, i, j) ==
      IssuesAt(items, lum, Pairs(items, lum, i + 1))
    decreases |items| - j
  {
    if j < |items| {
      RowStep(items, lum, i, j);
      RowIssuesFromRest(items, lum, i, j + 1);
      var done := IssuesAt(items, lum, Pairs(items, lum, i) + Row(items, lum, i, j));
      var c := if LowContrastPair(items, lum, i, j) then [IssueFor(items, lum, (i, j))] else [];
      var todo := RowIssuesFrom(items, lum, i, j);
      var rest := RowIssuesFrom(items, lum, i, j + 1);
      var target := IssuesAt(items, lum, Pairs(items, lum, i + 1));
      assert todo == c + rest;
      Regroup(done, c, todo, rest, target);
    } else {
      assert Pairs(items, lum, i + 1) == Pairs(items, lum, i) + Row(items, lum, i, j);
      assert RowIssuesFrom(items, lum, i, j) == [];
      AppendEmpty(IssuesAt(items, lum, Pairs(items, lum, i + 1)));
    }
  }

  /** The entry built at lines 80-85 is the one `IssueFor` describes. */
  lemma IssueEntry(items: seq<Item>, lum: Luminance, i: nat, j: nat, contrastRatio: real, impact: seq<string>)
    requires LuminanceInRange(lum)
    requires i < |items| && j < |items|
    requires contrastRatio == ContrastRatio(items[i].color, items[j].color, lum)
    requires impact == Impacts(items[i].color, items[j].color)
    ensures Issue(Combination(items[i], items[j]), Round2(contrastRatio), RequirementText, impact) == IssueFor(items, lum, (i, j))
  {
  }

  /**
   * Lines 66-87 for one pair: the issue recorded when one side is the
   * background and the other the text and their contrast ratio is below 4.5.
   */
  method CheckPair(items: seq<Item>, lum: Luminance, i: nat, j: nat) returns (found: Option<Issue>)
    requires LuminanceInRange(lum)
    requires i < |items| && j < |items|
    ensures found == if LowContrastPair(items, lum, i, j) then Some(IssueFor(items, lum, (i, j))) else None
  {
    found := None;
    var ei, ej := items[i].element, items[j].element;
    if (ei == Some("background") && ej == Some("text")) || (ei == Some("text") && ej == Some("background")) {
      var contrastRatio := ContrastRatio(items[i].color, items[j].color, lum);
      if contrastRatio < WcagAaRequirement {
        var impact := ColorblindImpact(items[i].color, items[j].color);
        IssueEntry(items, lum, i, j, contrastRatio, impact);
        found := Some(Issue(Combination(items[i], items[j]), Round2(contrastRatio), RequirementText, impact));
      }
    }
  }

  /**
   * Lines 65-88: the inner loop for one `i`, appending the issues of the pairs
   * `(i, j)` for `j > i`.
   */
  method ScanRow(items: seq<Item>, lum: Luminance, i: nat, issues0: seq<Issue>) returns (issues: seq<Issue>)
    requires LuminanceInRange(lum)
    requires i < |items|
    requires issues0 == IssuesAt(items, lum, Pairs(items, lum, i))
    ensures issues == IssuesAt(items, lum, Pairs(items, lum, i + 1))
  {
    issues := issues0;
    var j := i + 1;
    ghost var target := IssuesAt(items, lum, Pairs(items, lum, i + 1));
    assert Pairs(items, lum, i) + Row(items, lum, i, j) == Pairs(items, lum, i);
    RowIssuesFromRest(items, lum, i, j);
    while j < |items|
      invariant i + 1 <= j <= |items|
      invariant issues + RowIssuesFrom(items, lum, i, j) == target
    {
      ghost var todo := RowIssuesFrom(items, lum, i, j);
      ghost var rest := RowIssuesFrom(items, lum, i, j + 1);
      var found := CheckPair(items, lum, i, j);
      if found.Some? {
        assert todo == [found.value] + rest;
        AppendStep(issues, todo, target, [found.value], rest);
        issues := issues + [found.value];
      } else {
        assert todo == [] + rest;
        SkipStep(issues, todo, target, rest);
      }
      j := j + 1;
    }
    AppendEmpty(issues);
  }

  /**
   * Lines 63-90: every pair `i < j`; a background/text pair whose contrast
   * ratio is below 4.5 appends an issue.
   */
  method CollectAccessibilityIssues(items: seq<Item>, lum: Luminance) returns (issues: seq<Issue>)
    requires LuminanceInRange(lum)
    ensures issues == IssuesAt(items, lum, Pairs(items, lum, |items|))
  {
    issues := [];
    var i := 0;
    while i < |items|
      invariant 0 <= i <= |items|
      invariant issues == IssuesAt(items, lum, Pairs(items, lum, i))
    {
      issues := ScanRow(items, lum, i, issues);
      i := i + 1;
    }
  }

  /** `validateColors` against an arbitrary palette: the report is the one `Validate` describes. */
  method ValidateAgainst(items: seq<Item>, palette: seq<Category>, tol: real, lum: Luminance)
    returns (result: ValidationReport)
    requires LuminanceInRange(lum)
    ensures result == Validate(items, palette, tol, lum)
    ensures result.colorCompliance <==> result.colorErrors == []
  {
    var compliance, errors := CollectColorErrors(items, palette, tol);
    UnmatchedEmptyIff(items, Flatten(palette), tol, |items|);
    var issues := CollectAccessibilityIssues(items, lum);
    result := ValidationReport(compliance, errors, issues);
  }

  /** `validateColors(extractedColors, tolerance = 25)` against the fixed brand palette. */
  method ValidateColors(items: seq<Item>, lum: Luminance, tolerance: real := DefaultTolerance)
    returns (result: ValidationReport)
    requires LuminanceInRange(lum)
    ensures result == Validate(items, BrandPalette, tolerance, lum)
    ensures items == [] ==> result == ValidationReport(true, [], [])
  {
    result := ValidateAgainst(items, BrandPalette, tolerance, lum);
  }
}
