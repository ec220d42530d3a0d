/** Geometry derivations of a planar spiral coil: inner diameter, average
    diameter and fill ratio. All lengths are integer micrometres; the source
    functions' metre/millimetre round trips are exact on integers and are
    not repeated here. */
module Geometry {
  import opened Arith

  /** The fill-ratio column holds the ratio inner/outer multiplied by 1000
      twice, i.e. parts per million. */
  const FillRatioScale: int := 1000000

  /** Integer conversion of a quotient, as `int(x)` / `astype(int)` does it:
      truncation toward zero (not Dafny's Euclidean division). */
  function TruncDiv(a: int, b: int): (q: int)
    requires b > 0
    ensures a >= 0 ==> 0 <= q && q * b <= a < q * b + b
    ensures a < 0 ==> q <= 0 && q * b - b < a <= q * b
  {
    if a >= 0 then
      DivBounds(a, b);
      a / b
    else
      DivBounds(-a, b);
      var q := (-a) / b;
      assert (-q) * b == -(q * b);
      -q
  }

  /** Inner diameter left after `turnsPerLayer` turns, each of which takes
      one trace width and one spacing from both sides. Never clamped: a
      negative value marks an infeasible geometry. */
  function InnerDiameter(traceWidth: int, traceSpacing: int, turnsPerLayer: int, outerDiameter: int): (id: int)
    ensures turnsPerLayer >= 0 && traceWidth + traceSpacing >= 0 ==> id <= outerDiameter
    ensures turnsPerLayer >= 1 && traceWidth + traceSpacing > 0 ==> id < outerDiameter
  {
    outerDiameter - 2 * turnsPerLayer * (traceWidth + traceSpacing)
  }

  /** Arithmetic mean of the two diameters, truncated toward zero. */
  function AvgDiameter(innerDiameter: int, outerDiameter: int): (ad: int)
    ensures innerDiameter + outerDiameter >= 0 ==> 2 * ad <= innerDiameter + outerDiameter <= 2 * ad + 1
    ensures innerDiameter + outerDiameter < 0 ==> 2 * ad - 1 <= innerDiameter + outerDiameter <= 2 * ad
    ensures 0 <= innerDiameter <= outerDiameter ==> innerDiameter <= ad <= outerDiameter
  {
    TruncDiv(innerDiameter + outerDiameter, 2)
  }

  /** inner/outer in parts per million, truncated toward zero. */
  function FillRatio(outerDiameter: int, innerDiameter: int): (cfr: int)
    requires outerDiameter > 0
    ensures innerDiameter >= 0 ==> cfr * outerDiameter <= innerDiameter * FillRatioScale < cfr * outerDiameter + outerDiameter
    ensures innerDiameter < 0 ==> cfr <= 0
    ensures 0 <= innerDiameter <= outerDiameter ==> 0 <= cfr <= FillRatioScale
    ensures innerDiameter == outerDiameter ==> cfr == FillRatioScale
  {
    var q := TruncDiv(innerDiameter * FillRatioScale, outerDiameter);
    if 0 <= innerDiameter <= outerDiameter then
      assert q * outerDiameter <= FillRatioScale * outerDiameter;
      MulCancelLe(q, FillRatioScale, outerDiameter);
      if innerDiameter == outerDiameter then
        MulCancelLt(FillRatioScale, q + 1, outerDiameter);
        q
      else
        q
    else
      q
  }

  /** A truncated fill ratio reaches a threshold exactly when the exact
      ratio does: floor(id * 10^6 / od) >= t  iff  id * 10^6 >= t * od. */
  lemma FillRatioAtLeast(outerDiameter: int, innerDiameter: int, threshold: int)
    requires outerDiameter > 0 && innerDiameter >= 0
    ensures FillRatio(outerDiameter, innerDiameter) >= threshold <==> innerDiameter * FillRatioScale >= threshold * outerDiameter
  {
    var q := FillRatio(outerDiameter, innerDiameter);
    if q >= threshold {
      assert q * outerDiameter >= threshold * outerDiameter;
    } else {
      assert q + 1 <= threshold;
      assert (q + 1) * outerDiameter <= threshold * outerDiameter;
    }
  }

  /** Each extra turn takes exactly 2 * (trace width + spacing) off the
      inner diameter. */
  lemma InnerDiameterPerTurn(traceWidth: int, traceSpacing: int, turnsPerLayer: int, outerDiameter: int)
    ensures InnerDiameter(traceWidth, traceSpacing, turnsPerLayer + 1, outerDiameter)
         == InnerDiameter(traceWidth, traceSpacing, turnsPerLayer, outerDiameter) - 2 * (traceWidth + traceSpacing)
  {
  }

  /** A worked geometry: 20 mm outer diameter, 200 um trace, 150 um spacing
      and 10 turns; and one whose inner diameter goes negative. */
  lemma WorkedGeometry()
    ensures InnerDiameter(200, 150, 10, 20000) == 13000
    ensures AvgDiameter(13000, 20000) == 16500
    ensures FillRatio(20000, 13000) == 650000
    ensures InnerDiameter(1000, 300, 100, 20000) < 0
  {
  }
}
