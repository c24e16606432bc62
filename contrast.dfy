/**
 * `calculateContrastRatio` (lines 140-148): the contrast ratio of WCAG 2.1
 * (definitions of "relative luminance" and "contrast ratio", Success Criterion
 * 1.4.3 Contrast (Minimum)). The gamma-corrected relative luminance of lines
 * 155-170 is not modelled: it enters as a parameter `lum`, assumed to lie in
 * [0, 1], applied only to colours that parse; a colour that does not parse
 * has luminance 0 (line 156).
 */
module Contrast {
  import opened Wrappers
  import opened Hex

  /** Stands for `calculateRelativeLuminance` on a parsed colour. */
  type Luminance = Rgb -> real

  ghost predicate LuminanceInRange(lum: Luminance) {
    forall c :: 0.0 <= lum(c) <= 1.0
  }

  /** Line 78: WCAG AA minimum contrast for normal text. */
  const WcagAaRequirement: real := 4.5

  /** Line 84. */
  const RequirementText: string := "WCAG AA 4.5:1"

  function RelativeLuminance(color: string, lum: Luminance): (l: real)
    requires LuminanceInRange(lum)
    ensures 0.0 <= l <= 1.0
    ensures HexToRgb(color).None? ==> l == 0.0
  {
    match HexToRgb(color)
    case None => 0.0
    case Some(c) => lum(c)
  }

  /** `Math.max` on two reals: the larger one. */
  function Max(x: real, y: real): (m: real)
    ensures m >= x && m >= y && (m == x || m == y)
  {
    if x >= y then x else y
  }

  /** `Math.min` on two reals: the smaller one. */
  function Min(x: real, y: real): (m: real)
    ensures m <= x && m <= y && (m == x || m == y)
  {
    if x >= y then y else x
  }

  /** `(lighter + 0.05) / (darker + 0.05)`. */
  function Ratio(l1: real, l2: real): (r: real)
    requires 0.0 <= l1 && 0.0 <= l2
    ensures r >= 1.0
    ensures l1 <= 1.0 && l2 <= 1.0 ==> r <= 21.0
  {
    var lighter := Max(l1, l2);
    var darker := Min(l1, l2);
    RatioAtLeastOne(lighter, darker);
    RatioAtMost21(lighter, darker);
    (lighter + 0.05) / (darker + 0.05)
  }

  lemma RatioAtLeastOne(hi: real, lo: real)
    requires 0.0 <= lo <= hi
    ensures (hi + 0.05) / (lo + 0.05) >= 1.0
  {
    var q := (hi + 0.05) / (lo + 0.05);
    assert q * (lo + 0.05) == hi + 0.05;
  }

  lemma RatioAtMost21(hi: real, lo: real)
    requires 0.0 <= lo <= hi
    ensures hi <= 1.0 ==> (hi + 0.05) / (lo + 0.05) <= 21.0
  {
    if hi <= 1.0 {
      DivAtMost(hi + 0.05, lo + 0.05, 21.0);
    }
  }

  lemma DivAtMost(x: real, d: real, k: real)
    requires d > 0.0 && x <= k * d
    ensures x / d <= k
  {
    assert (x / d) * d == x;
  }

  function ContrastRatio(c1: string, c2: string, lum: Luminance): (r: real)
    requires LuminanceInRange(lum)
    ensures 1.0 <= r <= 21.0
  {
    Ratio(RelativeLuminance(c1, lum), RelativeLuminance(c2, lum))
  }

  /** The contrast ratio does not depend on which colour is the background. */
  lemma ContrastSymmetric(c1: string, c2: string, lum: Luminance)
    requires LuminanceInRange(lum)
    ensures ContrastRatio(c1, c2, lum) == ContrastRatio(c2, c1, lum)
  {
  }

  /** Equal luminances give the least possible ratio, 1. */
  lemma ContrastOfEqualLuminance(c1: string, c2: string, lum: Luminance)
    requires LuminanceInRange(lum)
    requires RelativeLuminance(c1, lum) == RelativeLuminance(c2, lum)
    ensures ContrastRatio(c1, c2, lum) == 1.0
  {
    RatioOfEqual(RelativeLuminance(c1, lum));
  }

  lemma RatioOfEqual(l: real)
    requires 0.0 <= l
    ensures Ratio(l, l) == 1.0
  {
    var x := l + 0.05;
    assert x / x == 1.0;
  }

  /** Pure white against pure black (luminances 1 and 0) reaches the maximum, 21. */
  lemma ContrastWhiteOnBlack(white: string, black: string, lum: Luminance)
    requires LuminanceInRange(lum)
    requires RelativeLuminance(white, lum) == 1.0 && RelativeLuminance(black, lum) == 0.0
    ensures ContrastRatio(white, black, lum) == 21.0
  {
  }

  /**
   * `parseFloat(x.toFixed(2))` on a positive ratio, as decimal rounding half up
   * to two places; the binary representation of the float is not modelled.
   */
  function Round2(x: real): (r: real)
    requires x >= 0.0
    ensures x - 0.005 < r <= x + 0.005
    ensures (r * 100.0).Floor as real == r * 100.0
  {
    var f := (x * 100.0 + 0.5).Floor;
    assert f as real <= x * 100.0 + 0.5 < f as real + 1.0;
    f as real / 100.0
  }

  /** A ratio in [1, 4.5) rounds into [1, 4.5]: a ratio just below 4.5 may be reported as 4.5. */
  lemma Round2BelowAa(x: real)
    requires 1.0 <= x < WcagAaRequirement
    ensures 1.0 <= Round2(x) <= WcagAaRequirement
  {
    var r := Round2(x);
    assert r * 100.0 < 450.5;
    assert r * 100.0 > 99.5;
  }

  /** A ratio below the AA minimum can still be reported as exactly 4.5. */
  lemma Round2NearAa()
    ensures 4.497 < WcagAaRequirement && Round2(4.497) == WcagAaRequirement
  {
    assert (4.497 * 100.0 + 0.5).Floor == 450;
  }

  /** A whole number of hundredths within half a hundredth of `x` (upper end included) is `Round2(x)`. */
  lemma Round2Unique(x: real, r: real)
    requires x >= 0.0
    requires x - 0.005 < r <= x + 0.005
    requires (r * 100.0).Floor as real == r * 100.0
    ensures r == Round2(x)
  {
  }
}
