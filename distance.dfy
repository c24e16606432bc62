/**
 * `getColorDifference`: Euclidean distance in RGB space. The model keeps the
 * SQUARED distance, an integer: `sqrt` is monotone on non-negative numbers, so
 * `sqrt(d) < tol` holds exactly when `0 <= tol && d < tol * tol`, and comparing
 * two square roots compares the squares (lemmas SqrtTolerance and SqrtOrder).
 * `None` stands for `Infinity`, the distance of a colour that does not parse.
 */
module Distance {
  import opened Wrappers
  import opened Hex

  /** Lines 103-104: prepend `#` unless the string already starts with one. */
  function WithHash(c: string): (r: string)
    ensures |r| > 0 && r[0] == '#'
    ensures |c| > 0 && c[0] == '#' ==> r == c
    ensures !(|c| > 0 && c[0] == '#') ==> r == "#" + c
  {
    if |c| > 0 && c[0] == '#' then c else "#" + c
  }

  function Square(x: int): nat {
    x * x
  }

  function SquaredDistance(p: Rgb, q: Rgb): nat {
    Square(p.r - q.r) + Square(p.g - q.g) + Square(p.b - q.b)
  }

  /** The squared colour difference, or `None` (Infinity) when either side fails to parse. */
  function ColorDifference(c1: string, c2: string): (d: Option<nat>)
  {
    var p1 := HexToRgb(WithHash(c1));
    var p2 := HexToRgb(WithHash(c2));
    if p1.None? || p2.None? then None else Some(SquaredDistance(p1.value, p2.value))
  }

  /** Prepending the missing `#` never changes what the string parses to. */
  lemma WithHashParsesAlike(c: string)
    ensures HexToRgb(WithHash(c)) == HexToRgb(c)
  {
    if !(|c| > 0 && c[0] == '#') {
      assert ("#" + c)[1..] == c;
    }
  }

  /** The difference is Infinity exactly when one of the colours is malformed. */
  lemma DifferenceDefinedIff(c1: string, c2: string)
    ensures ColorDifference(c1, c2).Some? <==> HexToRgb(c1).Some? && HexToRgb(c2).Some?
    ensures ColorDifference(c1, c2).Some? ==>
      ColorDifference(c1, c2).value == SquaredDistance(HexToRgb(c1).value, HexToRgb(c2).value)
  {
    WithHashParsesAlike(c1);
    WithHashParsesAlike(c2);
  }

  lemma SquareNegate(x: int)
    ensures Square(x) == Square(-x)
  {
  }

  lemma SquareZero(x: int)
    ensures Square(x) == 0 <==> x == 0
  {
    if x != 0 {
      assert x * x > 0 by {
        if x > 0 { assert x * x >= x; } else { assert x * x >= -x; }
      }
    }
  }

  lemma DifferenceSymmetric(c1: string, c2: string)
    ensures ColorDifference(c1, c2) == ColorDifference(c2, c1)
  {
    var p1 := HexToRgb(WithHash(c1));
    var p2 := HexToRgb(WithHash(c2));
    if p1.Some? && p2.Some? {
      SquareNegate(p1.value.r - p2.value.r);
      SquareNegate(p1.value.g - p2.value.g);
      SquareNegate(p1.value.b - p2.value.b);
    }
  }

  /** Two valid colours are at difference zero exactly when they have the same RGB. */
  lemma DifferenceZeroIff(c1: string, c2: string)
    requires HexToRgb(c1).Some? && HexToRgb(c2).Some?
    ensures ColorDifference(c1, c2) == Some(0) <==> HexToRgb(c1) == HexToRgb(c2)
  {
    DifferenceDefinedIff(c1, c2);
    var p := HexToRgb(c1).value;
    var q := HexToRgb(c2).value;
    SquareZero(p.r - q.r);
    SquareZero(p.g - q.g);
    SquareZero(p.b - q.b);
  }

  /** Line 37, `difference < tolerance`, on the squared difference. */
  predicate Within(d: Option<nat>, tol: real) {
    d.Some? && 0.0 <= tol && (d.value as real) < tol * tol
  }

  /** Raising the tolerance keeps every difference that was within it (line 4: lower is stricter). */
  lemma WithinMonotone(d: Option<nat>, t1: real, t2: real)
    requires t1 <= t2
    ensures Within(d, t1) ==> Within(d, t2)
  {
    if Within(d, t1) && t1 < t2 {
      SquareLess(t1, t2);
    }
  }

  /** Line 41, `difference < closestMatch.difference`; `Infinity < Infinity` is false. */
  predicate Closer(d: Option<nat>, best: Option<nat>) {
    d.Some? && (best.None? || d.value < best.value)
  }

  lemma SquareLess(x: real, y: real)
    requires 0.0 <= x < y
    ensures x * x < y * y
  {
    var xy := x * y;
    assert x * x <= xy;
    assert xy < y * y;
  }

  /** Modelling assumption for line 37: a square root `s` is below `tol` iff its square is within tolerance. */
  lemma SqrtTolerance(s: real, d: nat, tol: real)
    requires 0.0 <= s && s * s == d as real
    ensures s < tol <==> Within(Some(d), tol)
  {
    if s < tol {
      SquareLess(s, tol);
    } else if 0.0 <= tol && tol < s {
      SquareLess(tol, s);
    }
  }

  /** Modelling assumption for line 41: square roots compare as their squares do. */
  lemma SqrtOrder(s1: real, d1: nat, s2: real, d2: nat)
    requires 0.0 <= s1 && s1 * s1 == d1 as real
    requires 0.0 <= s2 && s2 * s2 == d2 as real
    ensures s1 < s2 <==> Closer(Some(d1), Some(d2))
  {
    SqrtTolerance(s1, d1, s2);
  }
}
