/** Length of the copper trace of a square planar spiral: the sum of the
    perimeters of its turns, the first turn running along the outer
    diameter and each following one 2 * (trace width + spacing) shorter. */
module TraceLength {
  import opened Geometry

  /** Reference definition: the perimeters of the first `turns` turns. The
      side of turn k (counting from 0) is the inner diameter left after k
      turns. Sides that go negative are summed as they are. */
  function SpiralLength(outerDiameter: int, traceWidth: int, traceSpacing: int, turns: nat): int
  {
    if turns == 0 then 0
    else SpiralLength(outerDiameter, traceWidth, traceSpacing, turns - 1)
         + 4 * InnerDiameter(traceWidth, traceSpacing, turns - 1, outerDiameter)
  }

  /** Closed form of the spiral length: 4 n od - 4 n (n - 1) (tw + ts). */
  lemma {:induction false} SpiralLengthClosedForm(outerDiameter: int, traceWidth: int, traceSpacing: int, turns: nat)
    ensures SpiralLength(outerDiameter, traceWidth, traceSpacing, turns)
         == 4 * turns * outerDiameter - 4 * turns * (turns - 1) * (traceWidth + traceSpacing)
  {
    if turns > 0 {
      var n, p := turns - 1, traceWidth + traceSpacing;
      SpiralLengthClosedForm(outerDiameter, traceWidth, traceSpacing, n);
      assert InnerDiameter(traceWidth, traceSpacing, n, outerDiameter) == outerDiameter - 2 * n * p;
      ClosedFormStep(outerDiameter, p, n);
    }
  }

  /** The closed form grows by the perimeter of turn n from n to n + 1 turns. */
  lemma ClosedFormStep(outerDiameter: int, pitch: int, n: int)
    ensures 4 * n * outerDiameter - 4 * n * (n - 1) * pitch + 4 * (outerDiameter - 2 * n * pitch)
         == 4 * (n + 1) * outerDiameter - 4 * (n + 1) * n * pitch
  {
    assert 4 * (n + 1) * outerDiameter == 4 * n * outerDiameter + 4 * outerDiameter;
    assert 4 * (n + 1) * n * pitch == 4 * n * (n - 1) * pitch + 8 * n * pitch;
  }

  /** When the whole spiral fits (the inner diameter after the last turn is
      not negative), every turn is at most as long as the outer one and the
      trace length lies between 0 and 4 * turns * outer diameter. */
  lemma {:induction false} SpiralLengthBounds(outerDiameter: int, traceWidth: int, traceSpacing: int, turns: nat)
    requires traceWidth + traceSpacing >= 0
    requires InnerDiameter(traceWidth, traceSpacing, turns, outerDiameter) >= 0
    ensures 0 <= SpiralLength(outerDiameter, traceWidth, traceSpacing, turns) <= 4 * turns * outerDiameter
  {
    if turns > 0 {
      var n, p := turns - 1, traceWidth + traceSpacing;
      assert InnerDiameter(traceWidth, traceSpacing, n, outerDiameter)
          == InnerDiameter(traceWidth, traceSpacing, turns, outerDiameter) + 2 * p;
      SpiralLengthBounds(outerDiameter, traceWidth, traceSpacing, n);
      var side := InnerDiameter(traceWidth, traceSpacing, n, outerDiameter);
      assert 0 <= side <= outerDiameter;
      StepBound(SpiralLength(outerDiameter, traceWidth, traceSpacing, n), n, outerDiameter, side);
    }
  }

  /** Adding one turn no longer than the outer one keeps the bound. */
  lemma StepBound(len: int, n: nat, outerDiameter: int, side: int)
    requires 0 <= len <= 4 * n * outerDiameter && 0 <= side <= outerDiameter
    ensures 0 <= len + 4 * side <= 4 * (n + 1) * outerDiameter
  {
    assert 4 * (n + 1) * outerDiameter == 4 * n * outerDiameter + 4 * outerDiameter;
  }

  /** The turn-by-turn loop: after i turns the side length is the inner
      diameter left after i turns and the wire length is the spiral length
      of i turns. A non-positive turn count runs no iteration. */
  method CalculateTraceLength(outerDiameter: int, numTurns: int, traceWidth: int, traceSpacing: int)
    returns (wireLength: int, ghost sideLength: int)
    ensures var n := if numTurns > 0 then numTurns else 0;
      && wireLength == SpiralLength(outerDiameter, traceWidth, traceSpacing, n)
      && wireLength == 4 * n * outerDiameter - 4 * n * (n - 1) * (traceWidth + traceSpacing)
      && sideLength == InnerDiameter(traceWidth, traceSpacing, n, outerDiameter)
    ensures numTurns <= 0 ==> wireLength == 0
  {
    wireLength := 0;
    var side := outerDiameter;
    var i := 0;
    while i < numTurns
      invariant 0 <= i <= (if numTurns > 0 then numTurns else 0)
      invariant side == InnerDiameter(traceWidth, traceSpacing, i, outerDiameter)
      invariant wireLength == SpiralLength(outerDiameter, traceWidth, traceSpacing, i)
    {
      wireLength := wireLength + 4 * side;
      side := side - 2 * (traceWidth + traceSpacing);
      InnerDiameterPerTurn(traceWidth, traceSpacing, i, outerDiameter);
      i := i + 1;
    }
    sideLength := side;
    SpiralLengthClosedForm(outerDiameter, traceWidth, traceSpacing, i);
  }
}
