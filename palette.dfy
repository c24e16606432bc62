/**
 * The brand palette and what matching one input colour against it means
 * (lines 9-13, 26-49): the palette is scanned category by category, colour by
 * colour; a colour is matched when some brand colour is within tolerance, and
 * the closest brand colour is the FIRST one of minimal finite difference.
 */
module Palette {
  import opened Wrappers
  import opened Hex
  import opened Distance

  datatype Category = Category(name: string, colors: seq<string>)

  /** Lines 9-13, in the order `Object.entries` yields them. */
  const BrandPalette: seq<Category> := [
    Category("primary", ["#FF0000", "#003DA5"]),
    Category("secondary", ["#72B5E8", "#54585A"]),
    Category("accent", ["#FFB612", "#158B45"])
  ]

  /** All brand colours in scan order: categories in order, colours in listed order. */
  function Flatten(p: seq<Category>): seq<string> {
    if p == [] then [] else Flatten(p[..|p| - 1]) + p[|p| - 1].colors
  }

  /** The scan visits exactly the colours listed in the palette's categories. */
  lemma {:induction false} FlattenMembers(p: seq<Category>)
    ensures forall i, j :: 0 <= i < |p| && 0 <= j < |p[i].colors| ==> p[i].colors[j] in Flatten(p)
    ensures forall x :: x in Flatten(p) ==> exists i :: 0 <= i < |p| && x in p[i].colors
  {
    if p != [] {
      var front := p[..|p| - 1];
      FlattenMembers(front);
      assert forall i :: 0 <= i < |p| - 1 ==> front[i] == p[i];
    }
  }

  /** The differences between `color` and each brand colour, in scan order. */
  function Diffs(color: string, brands: seq<string>): (ds: seq<Option<nat>>)
    ensures |ds| == |brands|
    ensures forall j :: 0 <= j < |brands| ==> ds[j] == ColorDifference(color, brands[j])
  {
    seq(|brands|, j requires 0 <= j < |brands| => ColorDifference(color, brands[j]))
  }

  /** Line 37 over the whole scan: `matched` ends up true. */
  predicate AnyWithin(color: string, brands: seq<string>, tol: real) {
    exists j :: 0 <= j < |brands| && Within(ColorDifference(color, brands[j]), tol)
  }

  /** A colour matched at tolerance `t1` stays matched at every larger tolerance. */
  lemma ToleranceMonotone(color: string, brands: seq<string>, t1: real, t2: real)
    requires t1 <= t2
    ensures AnyWithin(color, brands, t1) ==> AnyWithin(color, brands, t2)
  {
    if AnyWithin(color, brands, t1) {
      var j :| 0 <= j < |brands| && Within(ColorDifference(color, brands[j]), t1);
      WithinMonotone(ColorDifference(color, brands[j]), t1, t2);
    }
  }

  /**
   * Index at which `closestMatch` ends, over a sequence of differences: the
   * state after `ds[..n]` decides the step for `ds[n]` (line 41).
   */
  function FirstMin(ds: seq<Option<nat>>): (k: Option<nat>)
    ensures k.Some? ==> k.value < |ds| && ds[k.value].Some?
  {
    if ds == [] then None
    else
      var n := |ds| - 1;
      var best := FirstMin(ds[..n]);
      var bestDiff := if best.Some? then ds[best.value] else None;
      if Closer(ds[n], bestDiff) then Some(n) else best
  }

  /** Index of the brand colour `closestMatch` ends on. */
  function Nearest(color: string, brands: seq<string>): Option<nat> {
    FirstMin(Diffs(color, brands))
  }

  /** `closestMatch.color`, or `None` for the initial `null`. */
  function NearestColor(color: string, brands: seq<string>): Option<string> {
    match Nearest(color, brands)
    case None => None
    case Some(k) => Some(brands[k])
  }

  /** JavaScript `v || d` on an optional string: the default for `null` and for `""`. */
  function OrDefault(v: Option<string>, d: string): string {
    if v.Some? && v.value != "" then v.value else d
  }

  const AnyBrandColor: string := "Any brand color"

  /** Line 56: the suggestion recorded for an unmatched colour. */
  function ExpectedColor(color: string, brands: seq<string>): string {
    OrDefault(NearestColor(color, brands), AnyBrandColor)
  }

  // ----- the reference definition of "closest" -----

  /** `k` is of minimal finite difference, and strictly closer than every earlier entry. */
  predicate IsFirstMin(ds: seq<Option<nat>>, k: int) {
    0 <= k < |ds| && ds[k].Some? &&
    (forall j :: 0 <= j < |ds| && ds[j].Some? ==> ds[k].value <= ds[j].value) &&
    (forall j :: 0 <= j < k && ds[j].Some? ==> ds[k].value < ds[j].value)
  }

  predicate AllInfinite(ds: seq<Option<nat>>) {
    forall j :: 0 <= j < |ds| ==> ds[j].None?
  }

  /** The scan finds nothing exactly when every difference is Infinity. */
  lemma {:induction false} FirstMinNoneIff(ds: seq<Option<nat>>)
    ensures FirstMin(ds).None? <==> AllInfinite(ds)
  {
    if ds != [] {
      var n := |ds| - 1;
      FirstMinNoneIff(ds[..n]);
      assert forall j :: 0 <= j < n ==> ds[..n][j] == ds[j];
    }
  }

  /** The scan ends on the first entry of minimal difference (strict `<` keeps the earliest). */
  lemma {:induction false} FirstMinIsFirst(ds: seq<Option<nat>>)
    ensures FirstMin(ds).Some? ==> IsFirstMin(ds, FirstMin(ds).value)
  {
    if ds != [] {
      var n := |ds| - 1;
      var pre := ds[..n];
      FirstMinIsFirst(pre);
      FirstMinNoneIff(pre);
      assert forall j :: 0 <= j < n ==> pre[j] == ds[j];
      var best := FirstMin(pre);
      if best.Some? {
        assert IsFirstMin(pre, best.value);
      }
    }
  }

  /** There is only one first minimal index. */
  lemma FirstMinUnique(ds: seq<Option<nat>>, k1: int, k2: int)
    requires IsFirstMin(ds, k1) && IsFirstMin(ds, k2)
    ensures k1 == k2
  {
  }

  /** The scan's answer is exactly the first minimal index. */
  lemma FirstMinIff(ds: seq<Option<nat>>, k: int)
    ensures FirstMin(ds) == Some(k) <==> IsFirstMin(ds, k)
  {
    FirstMinIsFirst(ds);
    FirstMinNoneIff(ds);
    if IsFirstMin(ds, k) {
      assert !AllInfinite(ds);
      FirstMinUnique(ds, k, FirstMin(ds).value);
    }
  }

  /** No brand colour is at a finite difference from `color`. */
  predicate NoneFinite(color: string, brands: seq<string>) {
    forall j :: 0 <= j < |brands| ==> ColorDifference(color, brands[j]).None?
  }

  /** `k` is the first brand colour of minimal difference from `color`. */
  predicate IsFirstNearest(color: string, brands: seq<string>, k: int) {
    IsFirstMin(Diffs(color, brands), k)
  }

  /** The brand colour the scan keeps is the first nearest one, and there is one unless all are Infinity. */
  lemma NearestIff(color: string, brands: seq<string>, k: int)
    ensures Nearest(color, brands) == Some(k) <==> IsFirstNearest(color, brands, k)
    ensures Nearest(color, brands).None? <==> NoneFinite(color, brands)
  {
    var ds := Diffs(color, brands);
    FirstMinIff(ds, k);
    FirstMinNoneIff(ds);
  }

  /**
   * `expectedColor` is the first nearest brand colour, and the fallback
   * `"Any brand color"` exactly when no brand colour is at a finite difference.
   */
  lemma ExpectedColorIsNearest(color: string, brands: seq<string>)
    ensures NoneFinite(color, brands) ==> ExpectedColor(color, brands) == AnyBrandColor
    ensures !NoneFinite(color, brands) ==>
      exists k :: IsFirstNearest(color, brands, k) && ExpectedColor(color, brands) == brands[k]
  {
    var n := Nearest(color, brands);
    if n.Some? {
      var k := n.value;
      NearestIff(color, brands, k);
      DifferenceDefinedIff(color, brands[k]);
      assert brands[k] != "";
    } else {
      NearestIff(color, brands, 0);
    }
  }

  /** A malformed input colour is matched by nothing and gets the fallback suggestion. */
  lemma MalformedColorUnmatched(color: string, brands: seq<string>, tol: real)
    requires HexToRgb(color).None?
    ensures !AnyWithin(color, brands, tol)
    ensures ExpectedColor(color, brands) == AnyBrandColor
  {
    forall j | 0 <= j < |brands| ensures ColorDifference(color, brands[j]).None? {
      DifferenceDefinedIff(color, brands[j]);
    }
    ExpectedColorIsNearest(color, brands);
  }

  /** When the colour is matched, its suggested closest brand colour is itself within tolerance. */
  lemma MatchedNearestWithin(color: string, brands: seq<string>, tol: real)
    requires AnyWithin(color, brands, tol)
    ensures Nearest(color, brands).Some? && Nearest(color, brands).value < |brands|
    ensures Within(ColorDifference(color, brands[Nearest(color, brands).value]), tol)
  {
    var j :| 0 <= j < |brands| && Within(ColorDifference(color, brands[j]), tol);
    var ds := Diffs(color, brands);
    FirstMinNoneIff(ds);
    FirstMinIsFirst(ds);
    var k := Nearest(color, brands).value;
    assert ds[k].value <= ds[j].value;
  }

  /** An input with exactly the RGB of some brand colour is matched whenever `tol > 0`. */
  lemma ExactBrandColorMatches(color: string, brands: seq<string>, j: int, tol: real)
    requires 0 <= j < |brands|
    requires HexToRgb(color).Some? && HexToRgb(color) == HexToRgb(brands[j])
    requires tol > 0.0
    ensures AnyWithin(color, brands, tol)
  {
    DifferenceZeroIff(color, brands[j]);
    ZeroWithin(ColorDifference(color, brands[j]), tol);
    WithinWitness(color, brands, j, tol);
  }

  lemma ZeroWithin(d: Option<nat>, tol: real)
    requires d == Some(0) && tol > 0.0
    ensures Within(d, tol)
  {
    SquareLess(0.0, tol);
  }

  lemma WithinWitness(color: string, brands: seq<string>, j: int, tol: real)
    requires 0 <= j < |brands| && Within(ColorDifference(color, brands[j]), tol)
    ensures AnyWithin(color, brands, tol)
  {
  }

  /** With `tol <= 0` nothing is ever matched: `sqrt(d) < 0` never holds, not even for `d == 0`. */
  lemma NonPositiveToleranceMatchesNothing(color: string, brands: seq<string>, tol: real)
    requires tol <= 0.0
    ensures !AnyWithin(color, brands, tol)
  {
    forall j | 0 <= j < |brands| ensures !Within(ColorDifference(color, brands[j]), tol) {
      if tol < 0.0 {
      } else {
        assert tol * tol == 0.0;
      }
    }
  }

  /** The fixed palette scans in the order primary, secondary, accent. */
  lemma BrandColorsInScanOrder()
    ensures Flatten(BrandPalette) == ["#FF0000", "#003DA5", "#72B5E8", "#54585A", "#FFB612", "#158B45"]
  {
    var p := BrandPalette;
    assert p[..1][..0] == [];
    assert Flatten(p[..1]) == p[0].colors;
    assert p[..2][..1] == p[..1];
    assert Flatten(p[..2]) == p[0].colors + p[1].colors;
    assert p[..3][..2] == p[..2];
    assert p[..3] == p;
    assert Flatten(p) == p[0].colors + p[1].colors + p[2].colors;
  }

  lemma LiteralParses(s: string)
    requires |s| == 7 && s[0] == '#' && AllHex(s[1..])
    ensures HexToRgb(s).Some?
  {
  }

  /** Every colour of the fixed palette is a well-formed `#RRGGBB` string. */
  lemma BrandPaletteParses()
    ensures forall x :: x in Flatten(BrandPalette) ==> HexToRgb(x).Some?
  {
    BrandColorsInScanOrder();
    LiteralParses("#FF0000");
    LiteralParses("#003DA5");
    LiteralParses("#72B5E8");
    LiteralParses("#54585A");
    LiteralParses("#FFB612");
    LiteralParses("#158B45");
  }
}
