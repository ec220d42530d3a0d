/** The candidate grid: every combination of trace width, trace spacing,
    turns per layer and tank capacitor, numbered from 1 in generation order. */
module Grid {
  import opened Arith

  /** One generated candidate: the six generation-time columns. */
  datatype Coil = Coil(
    coilNumber: int,
    outerDiameter: int,
    traceWidth: int,
    traceSpacing: int,
    turnsPerLayer: int,
    tankCap: int)

  /** Python's `range(lo, hi, step)`; the generator only uses positive steps. */
  datatype Range = Range(lo: int, hi: int, step: int)

  /** The four enumerated dimensions, outermost first. */
  datatype Sweep = Sweep(traceWidths: Range, traceSpacings: Range, turnsPerLayer: Range, tankCaps: seq<int>)

  /** Default maximum outer diameter: 20 mm in micrometres. */
  const DefaultOuterDiameter: int := 20 * 1000

  /** Standard tank capacitor values in pF. */
  const CapacitanceTank: seq<int> :=
    [10, 15, 22, 33, 47, 68, 100, 150, 220, 330, 470, 680, 1000, 1500, 2200, 3300, 4700, 6800, 10000]

  /** Trace width 150..1000 um in steps of 10, spacing 150..300 um in steps
      of 10, turns 1..120 and the capacitor list. */
  const DefaultSweep: Sweep :=
    Sweep(Range(150, 1010, 10), Range(150, 301, 10), Range(1, 121, 1), CapacitanceTank)

  predicate ValidSweep(s: Sweep)
  {
    s.traceWidths.step > 0 && s.traceSpacings.step > 0 && s.turnsPerLayer.step > 0
  }

  /** The i-th value a range produces, counting from 0. */
  function RangeAt(r: Range, i: int): int
  {
    r.lo + i * r.step
  }

  /** Number of values a range produces: the least n whose n-th value is
      already at or past `hi`. */
  function RangeLen(r: Range): (n: nat)
    requires r.step > 0
    ensures RangeAt(r, n) >= r.hi
    ensures n > 0 ==> RangeAt(r, n - 1) < r.hi
  {
    if r.hi <= r.lo then 0
    else
      var d := r.hi - r.lo + r.step - 1;
      var n := d / r.step;
      assert n * r.step <= d < n * r.step + r.step;
      n
  }

  /** Every value produced lies in [lo, hi). */
  lemma RangeAtBounds(r: Range, i: int)
    requires r.step > 0 && 0 <= i < RangeLen(r)
    ensures r.lo <= RangeAt(r, i) < r.hi
  {
    var n := RangeLen(r);
    MulMonotone(i, n - 1, r.step);
    MulMonotone(0, i, r.step);
  }

  function GridSize(s: Sweep): nat
    requires ValidSweep(s)
  {
    RangeLen(s.traceWidths) * RangeLen(s.traceSpacings) * RangeLen(s.turnsPerLayer) * |s.tankCaps|
  }

  /** Position of the combination (width i, spacing j, turns t, capacitor c)
      in generation order: a mixed-radix number whose most significant digit
      is the trace width and whose least significant is the capacitor. */
  function GridIndex(s: Sweep, i: int, j: int, t: int, c: int): int
    requires ValidSweep(s)
  {
    ((i * RangeLen(s.traceSpacings) + j) * RangeLen(s.turnsPerLayer) + t) * |s.tankCaps| + c
  }

  /** The row generated at position k (from 0): its digits in the mixed
      radix of GridIndex select the four parameter values, and its coil
      number is k + 1. */
  function GridRow(s: Sweep, outerDiameter: int, k: nat): (row: Coil)
    requires ValidSweep(s) && k < GridSize(s)
    ensures row.coilNumber == k + 1
    ensures row.outerDiameter == outerDiameter
    ensures row.tankCap in s.tankCaps
  {
    var S, T, C := RangeLen(s.traceSpacings), RangeLen(s.turnsPerLayer), |s.tankCaps|;
    PositiveFactors(RangeLen(s.traceWidths), S, T, C, k);
    var c, q := k % C, k / C;
    var t, q2 := q % T, q / T;
    var j, i := q2 % S, q2 / S;
    Coil(k + 1, outerDiameter, RangeAt(s.traceWidths, i), RangeAt(s.traceSpacings, j),
         RangeAt(s.turnsPerLayer, t), s.tankCaps[c])
  }

  /** Decoding the position of a combination gives back its digits. */
  lemma GridRowAt(s: Sweep, outerDiameter: int, i: int, j: int, t: int, c: int)
    requires ValidSweep(s)
    requires 0 <= i < RangeLen(s.traceWidths) && 0 <= j < RangeLen(s.traceSpacings)
    requires 0 <= t < RangeLen(s.turnsPerLayer) && 0 <= c < |s.tankCaps|
    ensures 0 <= GridIndex(s, i, j, t, c) < GridSize(s)
    ensures GridRow(s, outerDiameter, GridIndex(s, i, j, t, c))
         == Coil(GridIndex(s, i, j, t, c) + 1, outerDiameter, RangeAt(s.traceWidths, i),
                 RangeAt(s.traceSpacings, j), RangeAt(s.turnsPerLayer, t), s.tankCaps[c])
  {
    var W, S, T, C := RangeLen(s.traceWidths), RangeLen(s.traceSpacings), RangeLen(s.turnsPerLayer), |s.tankCaps|;
    var q2 := i * S + j;
    var q := q2 * T + t;
    var k := q * C + c;
    DigitBound(i, j, S, W);
    DigitBound(q2, t, T, W * S);
    DigitBound(q, c, C, W * S * T);
    DivModUnique(k, q, c, C);
    DivModUnique(q, q2, t, T);
    DivModUnique(q2, i, j, S);
  }

  /** Every generated parameter lies in its range. */
  lemma GridRowInRanges(s: Sweep, outerDiameter: int, k: nat)
    requires ValidSweep(s) && k < GridSize(s)
    ensures var row := GridRow(s, outerDiameter, k);
      && s.traceWidths.lo <= row.traceWidth < s.traceWidths.hi
      && s.traceSpacings.lo <= row.traceSpacing < s.traceSpacings.hi
      && s.turnsPerLayer.lo <= row.turnsPerLayer < s.turnsPerLayer.hi
  {
    var W, S, T, C := RangeLen(s.traceWidths), RangeLen(s.traceSpacings), RangeLen(s.turnsPerLayer), |s.tankCaps|;
    PositiveFactors(W, S, T, C, k);
    var q := k / C;
    var q2 := q / T;
    QuotientBound(k, C, W * S * T);
    QuotientBound(q, T, W * S);
    QuotientBound(q2, S, W);
    RangeAtBounds(s.traceWidths, q2 / S);
    RangeAtBounds(s.traceSpacings, q2 % S);
    RangeAtBounds(s.turnsPerLayer, q % T);
  }

  /** The default sweep has 86 widths, 16 spacings, 120 turn counts and 19
      capacitors. */
  lemma DefaultGridSize()
    ensures RangeLen(DefaultSweep.traceWidths) == 86
    ensures RangeLen(DefaultSweep.traceSpacings) == 16
    ensures RangeLen(DefaultSweep.turnsPerLayer) == 120
    ensures |DefaultSweep.tankCaps| == 19
    ensures GridSize(DefaultSweep) == 86 * 16 * 120 * 19
  {
  }

  /** `coils` holds the first |coils| rows of the grid. */
  ghost predicate IsGridPrefix(s: Sweep, outerDiameter: int, coils: seq<Coil>)
    requires ValidSweep(s)
  {
    && |coils| <= GridSize(s)
    && forall k :: 0 <= k < |coils| ==> coils[k] == GridRow(s, outerDiameter, k)
  }

  /** Appending the row of combination (i, j, t, c) at its own position
      extends the prefix. */
  lemma AppendGridRow(s: Sweep, outerDiameter: int, coils: seq<Coil>, i: int, j: int, t: int, c: int)
    requires ValidSweep(s) && IsGridPrefix(s, outerDiameter, coils)
    requires 0 <= i < RangeLen(s.traceWidths) && 0 <= j < RangeLen(s.traceSpacings)
    requires 0 <= t < RangeLen(s.turnsPerLayer) && 0 <= c < |s.tankCaps|
    requires |coils| == GridIndex(s, i, j, t, c)
    ensures IsGridPrefix(s, outerDiameter, coils + [Coil(|coils| + 1, outerDiameter, RangeAt(s.traceWidths, i),
      RangeAt(s.traceSpacings, j), RangeAt(s.turnsPerLayer, t), s.tankCaps[c])])
  {
    GridRowAt(s, outerDiameter, i, j, t, c);
  }

  /** Carrying a digit of the mixed-radix position: the position after the
      last capacitor is that of the next turn count's first, and so on up. */
  lemma GridIndexCarry(s: Sweep, i: int, j: int, t: int)
    requires ValidSweep(s)
    ensures GridIndex(s, i, j, t, |s.tankCaps|) == GridIndex(s, i, j, t + 1, 0)
    ensures GridIndex(s, i, j, RangeLen(s.turnsPerLayer), 0) == GridIndex(s, i, j + 1, 0, 0)
    ensures GridIndex(s, i, RangeLen(s.traceSpacings), 0, 0) == GridIndex(s, i + 1, 0, 0, 0)
    ensures GridIndex(s, RangeLen(s.traceWidths), 0, 0, 0) == GridSize(s)
  {
    var S, T, C := RangeLen(s.traceSpacings), RangeLen(s.turnsPerLayer), |s.tankCaps|;
    MulSucc((i * S + j) * T + t, C);
    MulSucc(i * S + j, T);
    MulSucc(i, S);
  }

  /** With the default sweep and outer diameter, the first row is coil 1 with
      the smallest of every parameter. */
  lemma DefaultGridFirst()
    ensures GridRow(DefaultSweep, DefaultOuterDiameter, 0) == Coil(1, 20000, 150, 150, 1, 10)
  {
    DefaultGridSize();
    GridRowAt(DefaultSweep, DefaultOuterDiameter, 0, 0, 0, 0);
    assert GridIndex(DefaultSweep, 0, 0, 0, 0) == 0;
  }

  /** With the default sweep and outer diameter, the last row is coil
      3137280 with the largest of every parameter. */
  lemma DefaultGridLast()
    ensures GridSize(DefaultSweep) == 3137280
    ensures GridRow(DefaultSweep, DefaultOuterDiameter, 3137279) == Coil(3137280, 20000, 1000, 300, 120, 10000)
  {
    DefaultGridSize();
    GridRowAt(DefaultSweep, DefaultOuterDiameter, 85, 15, 119, 18);
    assert GridIndex(DefaultSweep, 85, 15, 119, 18) == 3137279;
    assert DefaultSweep.tankCaps[18] == 10000;
  }

  /** Four nested loops, trace width outermost and capacitor innermost, that
      append one row per combination and number the rows with a counter
      starting at 1. */
  method CreateCoils(maxOuterDiameter: int, sweep: Sweep) returns (coils: seq<Coil>)
    requires ValidSweep(sweep)
    ensures |coils| == GridSize(sweep)
    ensures forall k :: 0 <= k < |coils| ==> coils[k] == GridRow(sweep, maxOuterDiameter, k)
  {
    var W, S, T, C := RangeLen(sweep.traceWidths), RangeLen(sweep.traceSpacings),
                      RangeLen(sweep.turnsPerLayer), |sweep.tankCaps|;
    coils := [];
    var cn := 1;
    var i := 0;
    while i < W
      invariant 0 <= i <= W
      invariant |coils| == GridIndex(sweep, i, 0, 0, 0) && cn == |coils| + 1
      invariant IsGridPrefix(sweep, maxOuterDiameter, coils)
    {
      var tw := RangeAt(sweep.traceWidths, i);
      var j := 0;
      while j < S
        invariant 0 <= j <= S
        invariant |coils| == GridIndex(sweep, i, j, 0, 0) && cn == |coils| + 1
        invariant IsGridPrefix(sweep, maxOuterDiameter, coils)
      {
        var ts := RangeAt(sweep.traceSpacings, j);
        var t := 0;
        while t < T
          invariant 0 <= t <= T
          invariant |coils| == GridIndex(sweep, i, j, t, 0) && cn == |coils| + 1
          invariant IsGridPrefix(sweep, maxOuterDiameter, coils)
        {
          var tpl := RangeAt(sweep.turnsPerLayer, t);
          var c := 0;
          while c < C
            invariant 0 <= c <= C
            invariant |coils| == GridIndex(sweep, i, j, t, c) && cn == |coils| + 1
            invariant IsGridPrefix(sweep, maxOuterDiameter, coils)
          {
            AppendGridRow(sweep, maxOuterDiameter, coils, i, j, t, c);
            coils := coils + [Coil(cn, maxOuterDiameter, tw, ts, tpl, sweep.tankCaps[c])];
            cn := cn + 1;
            c := c + 1;
          }
          GridIndexCarry(sweep, i, j, t);
          t := t + 1;
        }
        GridIndexCarry(sweep, i, j, T);
        j := j + 1;
      }
      GridIndexCarry(sweep, i, S, T);
      i := i + 1;
    }
    GridIndexCarry(sweep, W, S, T);
  }
}
