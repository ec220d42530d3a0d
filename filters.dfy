/** The geometry stages of the pipeline over the generated table: add the
    inner diameter, drop rows whose inner diameter is negative, add the
    average diameter and the fill ratio, drop rows whose fill ratio is below
    the minimum. Every stage keeps the row order and never changes a column
    it does not own. */
module Filters {
  import opened Geometry
  import opened Grid

  /** A generated row with the inner-diameter column added. */
  datatype SizedCoil = SizedCoil(coil: Coil, innerDiameter: int)

  /** A row with all three geometry columns. */
  datatype ShapedCoil = ShapedCoil(coil: Coil, innerDiameter: int, avgDiameter: int, fillRatio: int)

  /** Minimum fill ratio, as a plain ratio. */
  const MinCoilFillRatio: real := 0.3

  /** The same minimum on the scale of the fill-ratio column (parts per
      million). */
  const MinFillRatioPpm: int := 300000

  // ---------------------------------------------------------------------
  // Order-preserving filtering of a sequence

  /** The elements of `s` that satisfy `p`, in their original order. */
  function Keep<T(!new)>(s: seq<T>, p: T -> bool): (kept: seq<T>)
    ensures |kept| <= |s|
    ensures forall x :: x in kept <==> x in s && p(x)
  {
    if s == [] then []
    else if p(s[0]) then [s[0]] + Keep(s[1..], p)
    else Keep(s[1..], p)
  }

  /** Every element that satisfies `p` is kept as often as it occurs, every
      other element is dropped. */
  lemma {:induction false} KeepMultiset<T(!new)>(s: seq<T>, p: T -> bool)
    ensures forall x :: multiset(Keep(s, p))[x] == if p(x) then multiset(s)[x] else 0
  {
    if s != [] {
      assert s == [s[0]] + s[1..];
      KeepMultiset(s[1..], p);
    }
  }

  /** `a` is `b` with some elements left out and the rest in their order. */
  ghost predicate IsSubsequence<T>(a: seq<T>, b: seq<T>)
    decreases |b|
  {
    if b == [] then a == []
    else (a != [] && a[0] == b[0] && IsSubsequence(a[1..], b[1..])) || IsSubsequence(a, b[1..])
  }

  lemma {:induction false} KeepIsSubsequence<T(!new)>(s: seq<T>, p: T -> bool)
    ensures IsSubsequence(Keep(s, p), s)
  {
    if s != [] {
      KeepIsSubsequence(s[1..], p);
      if p(s[0]) {
        assert Keep(s, p)[1..] == Keep(s[1..], p);
      }
    }
  }

  /** Filtering distributes over concatenation: rows are judged one by one
      and the survivors of the front stay in front. */
  lemma {:induction false} KeepConcat<T(!new)>(a: seq<T>, b: seq<T>, p: T -> bool)
    ensures Keep(a + b, p) == Keep(a, p) + Keep(b, p)
  {
    if a != [] {
      assert (a + b)[1..] == a[1..] + b;
      KeepConcat(a[1..], b, p);
    } else {
      assert a + b == b;
    }
  }

  lemma {:induction false} KeepAll<T(!new)>(s: seq<T>, p: T -> bool)
    requires forall x :: x in s ==> p(x)
    ensures Keep(s, p) == s
  {
    if s != [] {
      assert s[0] in s;
      KeepAll(s[1..], p);
    }
  }

  /** Filtering twice is filtering once. */
  lemma KeepIdempotent<T(!new)>(s: seq<T>, p: T -> bool)
    ensures Keep(Keep(s, p), p) == Keep(s, p)
  {
    KeepAll(Keep(s, p), p);
  }

  // ---------------------------------------------------------------------
  // The inner-diameter stage

  function InnerDiameterOf(c: Coil): int
  {
    InnerDiameter(c.traceWidth, c.traceSpacing, c.turnsPerLayer, c.outerDiameter)
  }

  /** Adds the inner-diameter column to every row, in place and in order. */
  function AddInnerDiameter(coils: seq<Coil>): (rows: seq<SizedCoil>)
    ensures |rows| == |coils|
    ensures forall i :: 0 <= i < |rows| ==> rows[i] == SizedCoil(coils[i], InnerDiameterOf(coils[i]))
  {
    seq(|coils|, i requires 0 <= i < |coils| => SizedCoil(coils[i], InnerDiameterOf(coils[i])))
  }

  predicate HasNonNegativeInnerDiameter(r: SizedCoil)
  {
    r.innerDiameter >= 0
  }

  /** Keeps exactly the rows whose inner diameter is at least 0. */
  function FilterInnerDiameter(rows: seq<SizedCoil>): (kept: seq<SizedCoil>)
    ensures |kept| <= |rows|
    ensures forall r :: r in kept <==> r in rows && r.innerDiameter >= 0
    ensures forall r :: multiset(kept)[r] == if r.innerDiameter >= 0 then multiset(rows)[r] else 0
  {
    KeepMultiset(rows, HasNonNegativeInnerDiameter);
    Keep(rows, HasNonNegativeInnerDiameter)
  }

  lemma FilterInnerDiameterIdempotent(rows: seq<SizedCoil>)
    ensures FilterInnerDiameter(FilterInnerDiameter(rows)) == FilterInnerDiameter(rows)
  {
    KeepIdempotent(rows, HasNonNegativeInnerDiameter);
  }

  lemma FilterInnerDiameterKeepsOrder(rows: seq<SizedCoil>, more: seq<SizedCoil>)
    ensures IsSubsequence(FilterInnerDiameter(rows), rows)
    ensures FilterInnerDiameter(rows + more) == FilterInnerDiameter(rows) + FilterInnerDiameter(more)
  {
    KeepIsSubsequence(rows, HasNonNegativeInnerDiameter);
    KeepConcat(rows, more, HasNonNegativeInnerDiameter);
  }

  // ---------------------------------------------------------------------
  // The average-diameter and fill-ratio stages

  predicate PositiveOuterDiameters(rows: seq<SizedCoil>)
  {
    forall i :: 0 <= i < |rows| ==> rows[i].coil.outerDiameter > 0
  }

  /** Adds the average diameter and the fill ratio to a row. */
  function Shape(r: SizedCoil): (s: ShapedCoil)
    requires r.coil.outerDiameter > 0
    ensures s.coil == r.coil && s.innerDiameter == r.innerDiameter
    ensures 0 <= r.innerDiameter <= r.coil.outerDiameter ==>
      && r.innerDiameter <= s.avgDiameter <= r.coil.outerDiameter
      && 0 <= s.fillRatio <= FillRatioScale
  {
    ShapedCoil(r.coil, r.innerDiameter, AvgDiameter(r.innerDiameter, r.coil.outerDiameter),
               FillRatio(r.coil.outerDiameter, r.innerDiameter))
  }

  function AddShape(rows: seq<SizedCoil>): (shaped: seq<ShapedCoil>)
    requires PositiveOuterDiameters(rows)
    ensures |shaped| == |rows|
    ensures forall i :: 0 <= i < |rows| ==> shaped[i] == Shape(rows[i])
  {
    seq(|rows|, i requires 0 <= i < |rows| && PositiveOuterDiameters(rows) => Shape(rows[i]))
  }

  /** The comparison as the pipeline writes it: the column, which is scaled
      by 10^6, against the unscaled minimum 0.3. */
  predicate PassesFillRatioAsWritten(r: ShapedCoil)
  {
    r.fillRatio as real >= MinCoilFillRatio
  }

  /** The comparison on one scale: the column against 0.3 * 10^6. */
  predicate PassesFillRatio(r: ShapedCoil)
  {
    r.fillRatio >= MinFillRatioPpm
  }

  function FilterFillRatioAsWritten(rows: seq<ShapedCoil>): (kept: seq<ShapedCoil>)
    ensures forall r :: r in kept <==> r in rows && r.fillRatio as real >= MinCoilFillRatio
    ensures forall r :: multiset(kept)[r] == if r.fillRatio as real >= MinCoilFillRatio then multiset(rows)[r] else 0
  {
    KeepMultiset(rows, PassesFillRatioAsWritten);
    Keep(rows, PassesFillRatioAsWritten)
  }

  /** Keeps exactly the rows whose fill ratio is at least 0.3. */
  function FilterFillRatio(rows: seq<ShapedCoil>): (kept: seq<ShapedCoil>)
    ensures |kept| <= |rows|
    ensures forall r :: r in kept <==> r in rows && r.fillRatio >= MinFillRatioPpm
    ensures forall r :: multiset(kept)[r] == if r.fillRatio >= MinFillRatioPpm then multiset(rows)[r] else 0
  {
    KeepMultiset(rows, PassesFillRatio);
    Keep(rows, PassesFillRatio)
  }

  lemma FilterFillRatioIdempotent(rows: seq<ShapedCoil>)
    ensures FilterFillRatio(FilterFillRatio(rows)) == FilterFillRatio(rows)
  {
    KeepIdempotent(rows, PassesFillRatio);
  }

  lemma FilterFillRatioKeepsOrder(rows: seq<ShapedCoil>, more: seq<ShapedCoil>)
    ensures IsSubsequence(FilterFillRatio(rows), rows)
    ensures FilterFillRatio(rows + more) == FilterFillRatio(rows) + FilterFillRatio(more)
  {
    KeepIsSubsequence(rows, PassesFillRatio);
    KeepConcat(rows, more, PassesFillRatio);
  }

  lemma FilterFillRatioAsWrittenIdempotent(rows: seq<ShapedCoil>)
    ensures FilterFillRatioAsWritten(FilterFillRatioAsWritten(rows)) == FilterFillRatioAsWritten(rows)
  {
    KeepIdempotent(rows, PassesFillRatioAsWritten);
  }

  lemma FilterFillRatioAsWrittenKeepsOrder(rows: seq<ShapedCoil>, more: seq<ShapedCoil>)
    ensures IsSubsequence(FilterFillRatioAsWritten(rows), rows)
    ensures FilterFillRatioAsWritten(rows + more) == FilterFillRatioAsWritten(rows) + FilterFillRatioAsWritten(more)
  {
    KeepIsSubsequence(rows, PassesFillRatioAsWritten);
    KeepConcat(rows, more, PassesFillRatioAsWritten);
  }

  /** As written, the threshold 0.3 against an integer column means "at
      least 1": on the column's scale, one part per million. */
  lemma AsWrittenThresholdIsOnePpm(r: ShapedCoil)
    ensures PassesFillRatioAsWritten(r) <==> r.fillRatio >= 1
  {
  }

  /** A coil of 20 mm with 1000 um trace, 300 um spacing and 7 turns keeps
      an inner diameter of 1.8 mm, a fill ratio of 0.09. The written filter
      keeps it; the intended one drops it. */
  lemma AsWrittenKeepsThinCoil()
    ensures var c := Coil(1, 20000, 1000, 300, 7, 10);
      var r := Shape(SizedCoil(c, InnerDiameterOf(c)));
      && r.innerDiameter == 1800 && r.fillRatio == 90000
      && FilterFillRatioAsWritten([r]) == [r]
      && FilterFillRatio([r]) == []
  {
    var c := Coil(1, 20000, 1000, 300, 7, 10);
    var r := Shape(SizedCoil(c, InnerDiameterOf(c)));
    assert r.fillRatio == 90000;
    assert PassesFillRatioAsWritten(r);
    assert !PassesFillRatio(r);
  }

  /** For a row whose columns were derived by the geometry formulas, passing
      the fill-ratio filter means that the inner diameter is at least 0.3
      times the outer one. */
  lemma PassesFillRatioMeaning(r: SizedCoil)
    requires r.coil.outerDiameter > 0 && r.innerDiameter >= 0
    ensures PassesFillRatio(Shape(r)) <==> r.innerDiameter as real >= MinCoilFillRatio * r.coil.outerDiameter as real
  {
    FillRatioAtLeast(r.coil.outerDiameter, r.innerDiameter, MinFillRatioPpm);
  }

  // ---------------------------------------------------------------------
  // The four stages in sequence

  /** The rows that reach the fill-ratio division have a positive outer
      diameter; rows the inner-diameter filter drops may have any. */
  predicate PositiveOuterWhereFeasible(coils: seq<Coil>)
  {
    forall i :: 0 <= i < |coils| && InnerDiameterOf(coils[i]) >= 0 ==> coils[i].outerDiameter > 0
  }

  /** The geometry part of the pipeline: columns are added in order and each
      filter runs right after the column it reads. */
  function GeometryStages(coils: seq<Coil>): (rows: seq<ShapedCoil>)
    requires PositiveOuterWhereFeasible(coils)
    ensures |rows| <= |coils|
    ensures forall r :: r in rows ==>
      && r.coil in coils
      && r.innerDiameter == InnerDiameterOf(r.coil) >= 0
      && r == Shape(SizedCoil(r.coil, r.innerDiameter))
      && r.fillRatio >= MinFillRatioPpm
    ensures forall r :: r in rows && r.coil.turnsPerLayer >= 0 && r.coil.traceWidth + r.coil.traceSpacing >= 0 ==>
      && r.innerDiameter <= r.avgDiameter <= r.coil.outerDiameter
      && MinFillRatioPpm <= r.fillRatio <= FillRatioScale
    ensures forall c :: c in coils && InnerDiameterOf(c) >= 0 && PassesFillRatio(Shape(SizedCoil(c, InnerDiameterOf(c)))) ==>
      Shape(SizedCoil(c, InnerDiameterOf(c))) in rows
  {
    var sized := AddInnerDiameter(coils);
    var inner := FilterInnerDiameter(sized);
    FilterInnerDiameterKeepsPositiveOuter(coils);
    var shaped := AddShape(inner);
    AddInnerDiameterMembers(coils);
    AddShapeMembers(inner);
    FilterFillRatio(shaped)
  }

  /** Which rows the inner-diameter column stage holds, by membership. */
  lemma AddInnerDiameterMembers(coils: seq<Coil>)
    ensures forall x :: x in AddInnerDiameter(coils) ==> x.coil in coils && x.innerDiameter == InnerDiameterOf(x.coil)
    ensures forall c :: c in coils ==> SizedCoil(c, InnerDiameterOf(c)) in AddInnerDiameter(coils)
  {
    var sized := AddInnerDiameter(coils);
    forall x | x in sized ensures x.coil in coils && x.innerDiameter == InnerDiameterOf(x.coil) {
      var i :| 0 <= i < |sized| && sized[i] == x;
      assert coils[i] in coils;
    }
    forall c | c in coils ensures SizedCoil(c, InnerDiameterOf(c)) in sized {
      var i :| 0 <= i < |coils| && coils[i] == c;
      assert sized[i] == SizedCoil(c, InnerDiameterOf(c));
    }
  }

  /** Which rows the average-diameter and fill-ratio stage holds. */
  lemma AddShapeMembers(rows: seq<SizedCoil>)
    requires PositiveOuterDiameters(rows)
    ensures forall r :: r in AddShape(rows) ==>
      SizedCoil(r.coil, r.innerDiameter) in rows && r == Shape(SizedCoil(r.coil, r.innerDiameter))
    ensures forall x :: x in rows ==> x.coil.outerDiameter > 0 && Shape(x) in AddShape(rows)
  {
    var shaped := AddShape(rows);
    forall r | r in shaped
      ensures SizedCoil(r.coil, r.innerDiameter) in rows && r == Shape(SizedCoil(r.coil, r.innerDiameter))
    {
      var i :| 0 <= i < |shaped| && shaped[i] == r;
      assert rows[i] == SizedCoil(r.coil, r.innerDiameter);
    }
    forall x | x in rows ensures x.coil.outerDiameter > 0 && Shape(x) in shaped {
      var i :| 0 <= i < |rows| && rows[i] == x;
      assert shaped[i] == Shape(x);
    }
  }

  lemma AddInnerDiameterConcat(a: seq<Coil>, b: seq<Coil>)
    ensures AddInnerDiameter(a + b) == AddInnerDiameter(a) + AddInnerDiameter(b)
  {
  }

  lemma AddShapeConcat(a: seq<SizedCoil>, b: seq<SizedCoil>)
    requires PositiveOuterDiameters(a) && PositiveOuterDiameters(b)
    ensures PositiveOuterDiameters(a + b)
    ensures AddShape(a + b) == AddShape(a) + AddShape(b)
  {
  }

  lemma FilterInnerDiameterKeepsPositiveOuter(coils: seq<Coil>)
    requires PositiveOuterWhereFeasible(coils)
    ensures PositiveOuterDiameters(FilterInnerDiameter(AddInnerDiameter(coils)))
  {
    var sized := AddInnerDiameter(coils);
    var inner := FilterInnerDiameter(sized);
    forall i | 0 <= i < |inner| ensures inner[i].coil.outerDiameter > 0 {
      assert inner[i] in sized;
      var k :| 0 <= k < |sized| && sized[k] == inner[i];
      assert coils[k] == inner[i].coil && InnerDiameterOf(coils[k]) >= 0;
    }
  }

  /** A 0 um outer diameter with a 150 um trace, 150 um spacing and one turn
      leaves an inner diameter of -600 um, so the row is dropped before any
      division by the outer diameter and the stages end with an empty
      table. */
  lemma ZeroOuterDiameterIsDropped()
    ensures PositiveOuterWhereFeasible([Coil(1, 0, 150, 150, 1, 10)])
    ensures GeometryStages([Coil(1, 0, 150, 150, 1, 10)]) == []
  {
    var coils := [Coil(1, 0, 150, 150, 1, 10)];
    assert InnerDiameterOf(coils[0]) == -600;
    var sized := AddInnerDiameter(coils);
    assert sized == [SizedCoil(coils[0], -600)];
    assert FilterInnerDiameter(sized) == [];
  }

  /** Rows are independent: running the stages on two tables one after the
      other gives the concatenation of the two results. */
  lemma GeometryStagesConcat(a: seq<Coil>, b: seq<Coil>)
    requires PositiveOuterWhereFeasible(a) && PositiveOuterWhereFeasible(b)
    ensures PositiveOuterWhereFeasible(a + b)
    ensures GeometryStages(a + b) == GeometryStages(a) + GeometryStages(b)
  {
    PositiveOuterConcat(a, b);
    AddInnerDiameterConcat(a, b);
    FilterInnerDiameterKeepsOrder(AddInnerDiameter(a), AddInnerDiameter(b));
    FilterInnerDiameterKeepsPositiveOuter(a);
    FilterInnerDiameterKeepsPositiveOuter(b);
    var ia, ib := FilterInnerDiameter(AddInnerDiameter(a)), FilterInnerDiameter(AddInnerDiameter(b));
    assert FilterInnerDiameter(AddInnerDiameter(a + b)) == ia + ib;
    AddShapeConcat(ia, ib);
    FilterFillRatioKeepsOrder(AddShape(ia), AddShape(ib));
  }

  lemma PositiveOuterConcat(a: seq<Coil>, b: seq<Coil>)
    requires PositiveOuterWhereFeasible(a) && PositiveOuterWhereFeasible(b)
    ensures PositiveOuterWhereFeasible(a + b)
  {
    forall i | 0 <= i < |a + b| && InnerDiameterOf((a + b)[i]) >= 0
      ensures (a + b)[i].outerDiameter > 0
    {
      if i >= |a| {
        assert (a + b)[i] == b[i - |a|];
      }
    }
  }
}
