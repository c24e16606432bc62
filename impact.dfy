/**
 * `getColorblindImpact` (lines 178-201 of `colorComparison.js`): a heuristic
 * estimate, called simplified in that function's own comment, of which
 * colour-vision deficiencies make a pair of colours hard to tell apart. Only
 * integer comparisons of channels.
 */
module Impact {
  import opened Wrappers
  import opened Hex

  const UnknownImpact: string := "Unknown impact"
  const Deuteranopia: string := "Deuteranopia (red-green color blindness)"
  const Protanopia: string := "Protanopia (red-green color blindness)"
  const Tritanopia: string := "Tritanopia (blue-yellow color blindness)"
  const NoImpact: string := "No significant impact detected"

  function Abs(x: int): nat { if x < 0 then -x else x }

  /** Line 190: the first colour is strongly red/green-separated, the second is not. */
  predicate RedGreenRisk(p: Rgb, q: Rgb) {
    Abs(p.r - p.g) > 100 && Abs(q.r - q.g) < 50
  }

  /** Line 196: the same test on the blue and green channels. */
  predicate BlueYellowRisk(p: Rgb, q: Rgb) {
    Abs(p.b - p.g) > 100 && Abs(q.b - q.g) < 50
  }

  /** The impact list reported for a pair of colours. */
  function Impacts(c1: string, c2: string): (r: seq<string>)
  {
    var p := HexToRgb(c1);
    var q := HexToRgb(c2);
    if p.None? || q.None? then [UnknownImpact]
    else
      var found := (if RedGreenRisk(p.value, q.value) then [Deuteranopia, Protanopia] else [])
                 + (if BlueYellowRisk(p.value, q.value) then [Tritanopia] else []);
      if found != [] then found else [NoImpact]
  }

  /** Both colours parse. */
  predicate BothParse(c1: string, c2: string) {
    HexToRgb(c1).Some? && HexToRgb(c2).Some?
  }

  /**
   * The list is never empty; it is `["Unknown impact"]` exactly when a colour
   * does not parse; the two red-green entries appear together, first and in
   * that order, exactly when the red-green test fires; Tritanopia appears,
   * last, exactly when the blue-yellow test fires; when a test fires the list
   * holds nothing but those entries; and otherwise the list is
   * `["No significant impact detected"]`.
   */
  lemma ImpactsCharacterised(c1: string, c2: string)
    ensures |Impacts(c1, c2)| >= 1
    ensures Impacts(c1, c2) == [UnknownImpact] <==> !BothParse(c1, c2)
    ensures Deuteranopia in Impacts(c1, c2) <==>
      BothParse(c1, c2) && RedGreenRisk(HexToRgb(c1).value, HexToRgb(c2).value)
    ensures Protanopia in Impacts(c1, c2) <==>
      BothParse(c1, c2) && RedGreenRisk(HexToRgb(c1).value, HexToRgb(c2).value)
    ensures Deuteranopia in Impacts(c1, c2) ==>
      |Impacts(c1, c2)| >= 2 && Impacts(c1, c2)[0] == Deuteranopia && Impacts(c1, c2)[1] == Protanopia
    ensures Tritanopia in Impacts(c1, c2) <==>
      BothParse(c1, c2) && BlueYellowRisk(HexToRgb(c1).value, HexToRgb(c2).value)
    ensures Tritanopia in Impacts(c1, c2) ==> Impacts(c1, c2)[|Impacts(c1, c2)| - 1] == Tritanopia
    ensures Impacts(c1, c2) == [NoImpact] <==>
      BothParse(c1, c2) && !RedGreenRisk(HexToRgb(c1).value, HexToRgb(c2).value)
                        && !BlueYellowRisk(HexToRgb(c1).value, HexToRgb(c2).value)
    ensures (BothParse(c1, c2) &&
             (RedGreenRisk(HexToRgb(c1).value, HexToRgb(c2).value) || BlueYellowRisk(HexToRgb(c1).value, HexToRgb(c2).value)))
      ==> |Impacts(c1, c2)| == (if RedGreenRisk(HexToRgb(c1).value, HexToRgb(c2).value) then 2 else 0)
                         + (if BlueYellowRisk(HexToRgb(c1).value, HexToRgb(c2).value) then 1 else 0)
  {
    if BothParse(c1, c2) {
      var p, q := HexToRgb(c1).value, HexToRgb(c2).value;
      var rg := if RedGreenRisk(p, q) then [Deuteranopia, Protanopia] else [];
      var bl := if BlueYellowRisk(p, q) then [Tritanopia] else [];
      assert UnknownImpact !in rg + bl;
      assert UnknownImpact != NoImpact;
    }
  }

  /** Lines 182-200 as written: a local list built with `push`. */
  method ColorblindImpact(c1: string, c2: string) returns (impacts: seq<string>)
    ensures impacts == Impacts(c1, c2)
  {
    var rgb1 := HexToRgb(c1);
    var rgb2 := HexToRgb(c2);
    if rgb1.None? || rgb2.None? {
      return [UnknownImpact];
    }
    impacts := [];
    if Abs(rgb1.value.r - rgb1.value.g) > 100 && Abs(rgb2.value.r - rgb2.value.g) < 50 {
      impacts := impacts + [Deuteranopia];
      impacts := impacts + [Protanopia];
    }
    if Abs(rgb1.value.b - rgb1.value.g) > 100 && Abs(rgb2.value.b - rgb2.value.g) < 50 {
      impacts := impacts + [Tritanopia];
    }
    if impacts == [] {
      impacts := [NoImpact];
    }
  }
}
