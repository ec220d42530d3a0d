/** Ranking of a coil table: a descending sort on an ordered list of column
    names, compared lexicographically, followed by taking the first rows
    the way a data frame's `head(n)` does. Used by the pipeline's top-five
    shortlist and by the viewer. */
module Ranking {

  /** One row of a table read back from the delimited file: column name to
      integer cell. */
  type Record = map<string, int>

  /** A table: its header and its rows. */
  datatype Table = Table(columns: set<string>, rows: seq<Record>)

  /** Sorting by a column the header does not have. */
  datatype Error = KeyError(column: string)

  datatype Result<T> = Ok(value: T) | Err(error: Error)

  const InductanceColumn: string := "CSV_CoilInductance"
  const QFactorColumn: string := "CSV_Qfactor"

  /** Every row carries every header column. */
  ghost predicate WellFormed(t: Table)
  {
    forall i :: 0 <= i < |t.rows| ==> t.columns <= t.rows[i].Keys
  }

  predicate HasKeys(r: Record, keys: seq<string>)
  {
    forall k :: k in keys ==> k in r
  }

  predicate AllHaveKeys(rows: seq<Record>, keys: seq<string>)
  {
    forall i :: 0 <= i < |rows| ==> HasKeys(rows[i], keys)
  }

  /** `a` ranks no lower than `b`: at the first key where they differ, `a`
      holds the larger value (or they agree on every key). */
  predicate RanksAtLeast(a: Record, b: Record, keys: seq<string>)
    requires HasKeys(a, keys) && HasKeys(b, keys)
    decreases |keys|
  {
    if keys == [] then true
    else if a[keys[0]] != b[keys[0]] then a[keys[0]] > b[keys[0]]
    else RanksAtLeast(a, b, keys[1..])
  }

  lemma {:induction false} RanksAtLeastTotal(a: Record, b: Record, keys: seq<string>)
    requires HasKeys(a, keys) && HasKeys(b, keys)
    ensures RanksAtLeast(a, b, keys) || RanksAtLeast(b, a, keys)
    decreases |keys|
  {
    if keys != [] && a[keys[0]] == b[keys[0]] {
      RanksAtLeastTotal(a, b, keys[1..]);
    }
  }

  lemma {:induction false} RanksAtLeastTransitive(a: Record, b: Record, c: Record, keys: seq<string>)
    requires HasKeys(a, keys) && HasKeys(b, keys) && HasKeys(c, keys)
    requires RanksAtLeast(a, b, keys) && RanksAtLeast(b, c, keys)
    ensures RanksAtLeast(a, c, keys)
    decreases |keys|
  {
    if keys != [] && a[keys[0]] == b[keys[0]] && b[keys[0]] == c[keys[0]] {
      RanksAtLeastTransitive(a, b, c, keys[1..]);
    }
  }

  /** Non-increasing in the lexicographic order of `keys`. */
  ghost predicate SortedDesc(rows: seq<Record>, keys: seq<string>)
    requires AllHaveKeys(rows, keys)
  {
    forall i, j :: 0 <= i < j < |rows| ==> RanksAtLeast(rows[i], rows[j], keys)
  }

  /** Places `x` before the first row it ranks at least as high as. */
  function Insert(x: Record, rows: seq<Record>, keys: seq<string>): (r: seq<Record>)
    requires HasKeys(x, keys) && AllHaveKeys(rows, keys)
    ensures |r| == |rows| + 1
    ensures multiset(r) == multiset(rows) + multiset{x}
    ensures AllHaveKeys(r, keys)
  {
    if rows == [] then [x]
    else if RanksAtLeast(x, rows[0], keys) then [x] + rows
    else
      assert rows == [rows[0]] + rows[1..];
      [rows[0]] + Insert(x, rows[1..], keys)
  }

  lemma {:induction false} InsertKeepsSorted(x: Record, rows: seq<Record>, keys: seq<string>)
    requires HasKeys(x, keys) && AllHaveKeys(rows, keys) && SortedDesc(rows, keys)
    ensures SortedDesc(Insert(x, rows, keys), keys)
  {
    var r := Insert(x, rows, keys);
    if rows == [] {
    } else if RanksAtLeast(x, rows[0], keys) {
      forall j | 1 <= j < |r| ensures RanksAtLeast(x, r[j], keys) {
        if j > 1 {
          RanksAtLeastTransitive(x, rows[0], rows[j - 1], keys);
        }
      }
    } else {
      var rest := Insert(x, rows[1..], keys);
      InsertKeepsSorted(x, rows[1..], keys);
      RanksAtLeastTotal(x, rows[0], keys);
      forall j | 0 <= j < |rest| ensures RanksAtLeast(rows[0], rest[j], keys) {
        assert rest[j] in multiset(rest);
        if rest[j] != x {
          assert rest[j] in multiset(rows[1..]);
          var m :| 0 <= m < |rows[1..]| && rows[1..][m] == rest[j];
          assert rows[m + 1] == rest[j];
        }
      }
    }
  }

  /** Insertion sort: a permutation of the input, non-increasing in
      `keys`. */
  function SortDesc(rows: seq<Record>, keys: seq<string>): (r: seq<Record>)
    requires AllHaveKeys(rows, keys)
    ensures |r| == |rows| && multiset(r) == multiset(rows)
    ensures AllHaveKeys(r, keys) && SortedDesc(r, keys)
  {
    if rows == [] then []
    else
      assert rows == [rows[0]] + rows[1..];
      var rest := SortDesc(rows[1..], keys);
      InsertKeepsSorted(rows[0], rest, keys);
      Insert(rows[0], rest, keys)
  }

  /** The first `n` rows; a negative `n` leaves out the last -n rows. */
  function Head<T>(s: seq<T>, n: int): (h: seq<T>)
    ensures n >= 0 ==> |h| == (if n < |s| then n else |s|)
    ensures n < 0 ==> |h| == (if -n < |s| then |s| + n else 0)
    ensures h == s[..|h|]
  {
    if n >= 0 then s[..if n < |s| then n else |s|]
    else s[..if -n < |s| then |s| + n else 0]
  }

  /** Position of the first key the header does not have, or |keys|. */
  function FirstMissing(columns: set<string>, keys: seq<string>): (i: nat)
    ensures i <= |keys|
    ensures forall j :: 0 <= j < i ==> keys[j] in columns
    ensures i < |keys| ==> keys[i] !in columns
  {
    if keys == [] then 0
    else if keys[0] !in columns then 0
    else 1 + FirstMissing(columns, keys[1..])
  }

  /** Sorts the rows descending by `sortKeys`; a key outside the header is a
      KeyError naming the first such key. */
  function SortValues(t: Table, sortKeys: seq<string>): (r: Result<seq<Record>>)
    requires WellFormed(t)
    ensures r.Err? <==> exists k :: k in sortKeys && k !in t.columns
    ensures r.Err? ==> r.error.column in sortKeys && r.error.column !in t.columns
    ensures r.Ok? ==> |r.value| == |t.rows| && multiset(r.value) == multiset(t.rows)
    ensures r.Ok? ==> AllHaveKeys(r.value, sortKeys) && SortedDesc(r.value, sortKeys)
  {
    var i := FirstMissing(t.columns, sortKeys);
    if i < |sortKeys| then Err(KeyError(sortKeys[i]))
    else
      assert forall k :: k in sortKeys ==> k in t.columns;
      Ok(SortDesc(t.rows, sortKeys))
  }

  /** A prefix holds part of the rows, and a prefix of a sorted sequence is
      sorted. */
  lemma PrefixOfSorted(s: seq<Record>, m: nat, keys: seq<string>)
    requires m <= |s| && AllHaveKeys(s, keys) && SortedDesc(s, keys)
    ensures multiset(s) == multiset(s[..m]) + multiset(s[m..])
    ensures AllHaveKeys(s[..m], keys) && SortedDesc(s[..m], keys)
  {
    assert s == s[..m] + s[m..];
  }

  /** Sort, then keep the first `n` rows. */
  function SortThenHead(t: Table, sortKeys: seq<string>, n: int): (r: Result<seq<Record>>)
    requires WellFormed(t)
    ensures r.Err? <==> exists k :: k in sortKeys && k !in t.columns
    ensures r.Err? ==> r.error.column in sortKeys && r.error.column !in t.columns
    ensures r.Ok? && n >= 0 ==> |r.value| == (if n < |t.rows| then n else |t.rows|)
    ensures r.Ok? && n < 0 ==> |r.value| == (if -n < |t.rows| then |t.rows| + n else 0)
    ensures r.Ok? ==> multiset(r.value) <= multiset(t.rows)
    ensures r.Ok? ==> forall x :: x in r.value ==> x in t.rows
    ensures r.Ok? ==> AllHaveKeys(r.value, sortKeys) && SortedDesc(r.value, sortKeys)
  {
    var sorted := SortValues(t, sortKeys);
    if sorted.Err? then Err(sorted.error)
    else
      var h := Head(sorted.value, n);
      PrefixOfSorted(sorted.value, |h|, sortKeys);
      assert forall x :: x in h ==> x in multiset(t.rows);
      Ok(h)
  }

  /** In a sorted sequence every row of a prefix ranks at least as high as
      every row after it. */
  lemma PrefixRanksAboveSuffix(sorted: seq<Record>, m: nat, keys: seq<string>)
    requires m <= |sorted| && AllHaveKeys(sorted, keys) && SortedDesc(sorted, keys)
    ensures forall a, b :: a in sorted[..m] && b in multiset(sorted[m..]) ==>
      HasKeys(a, keys) && HasKeys(b, keys) && RanksAtLeast(a, b, keys)
  {
    forall a, b | a in sorted[..m] && b in multiset(sorted[m..])
      ensures HasKeys(a, keys) && HasKeys(b, keys) && RanksAtLeast(a, b, keys)
    {
      var i :| 0 <= i < m && sorted[..m][i] == a;
      assert b in sorted[m..];
      var j :| 0 <= j < |sorted| - m && sorted[m..][j] == b;
      assert sorted[i] == a && sorted[m + j] == b;
    }
  }

  /** The shortlist is the top of the ranking: every kept row ranks at
      least as high as every row left out. */
  lemma ShortlistRanksAboveRest(t: Table, sortKeys: seq<string>, n: int)
    requires WellFormed(t) && SortThenHead(t, sortKeys, n).Ok?
    ensures var kept := SortThenHead(t, sortKeys, n).value;
      forall a, b :: a in kept && b in multiset(t.rows) - multiset(kept) ==>
        HasKeys(a, sortKeys) && HasKeys(b, sortKeys) && RanksAtLeast(a, b, sortKeys)
  {
    var sorted := SortValues(t, sortKeys).value;
    var kept := SortThenHead(t, sortKeys, n).value;
    var m := |kept|;
    assert kept == sorted[..m];
    PrefixOfSorted(sorted, m, sortKeys);
    assert multiset(t.rows) - multiset(kept) == multiset(sorted[m..]);
    PrefixRanksAboveSuffix(sorted, m, sortKeys);
  }

  /** Two keys: strictly more of the first, or as much of the first and at
      least as much of the second. */
  lemma RanksAtLeastTwoKeys(a: Record, b: Record, k1: string, k2: string)
    requires k1 in a && k2 in a && k1 in b && k2 in b
    ensures HasKeys(a, [k1, k2]) && HasKeys(b, [k1, k2])
    ensures RanksAtLeast(a, b, [k1, k2]) <==> (a[k1] > b[k1] || (a[k1] == b[k1] && a[k2] >= b[k2]))
  {
    var keys := [k1, k2];
    assert keys[0] == k1 && keys[1..] == [k2];
    assert [k2][0] == k2 && [k2][1..] == [];
    assert RanksAtLeast(a, b, keys) == if a[k1] != b[k1] then a[k1] > b[k1] else RanksAtLeast(a, b, [k2]);
    assert RanksAtLeast(a, b, [k2]) == if a[k2] != b[k2] then a[k2] > b[k2] else RanksAtLeast(a, b, []);
  }

  /** `a` has more inductance than `b`, or as much and at least as much Q
      factor. */
  predicate InductanceThenQAtLeast(a: Record, b: Record)
    requires InductanceColumn in a && QFactorColumn in a
    requires InductanceColumn in b && QFactorColumn in b
  {
    || a[InductanceColumn] > b[InductanceColumn]
    || (a[InductanceColumn] == b[InductanceColumn] && a[QFactorColumn] >= b[QFactorColumn])
  }

  /** The two-key shortlist, restated on the two columns: sorted by
      inductance then Q factor, and above every row it leaves out. */
  lemma TwoKeyShortlist(t: Table, n: int)
    requires WellFormed(t)
    ensures var r := SortThenHead(t, [InductanceColumn, QFactorColumn], n);
      r.Ok? ==>
        && (forall i :: 0 <= i < |r.value| ==> InductanceColumn in r.value[i] && QFactorColumn in r.value[i])
        && (forall i, j :: 0 <= i < j < |r.value| ==> InductanceThenQAtLeast(r.value[i], r.value[j]))
        && (forall a, b :: a in r.value && b in multiset(t.rows) - multiset(r.value) ==>
              && InductanceColumn in a && QFactorColumn in a
              && InductanceColumn in b && QFactorColumn in b
              && InductanceThenQAtLeast(a, b))
  {
    var sortKeys := [InductanceColumn, QFactorColumn];
    var r := SortThenHead(t, sortKeys, n);
    if r.Ok? {
      ShortlistRanksAboveRest(t, sortKeys, n);
      forall i | 0 <= i < |r.value|
        ensures InductanceColumn in r.value[i] && QFactorColumn in r.value[i]
      {
        assert HasKeys(r.value[i], sortKeys);
      }
      forall i, j | 0 <= i < j < |r.value|
        ensures InductanceThenQAtLeast(r.value[i], r.value[j])
      {
        assert HasKeys(r.value[i], sortKeys) && HasKeys(r.value[j], sortKeys);
        assert RanksAtLeast(r.value[i], r.value[j], sortKeys);
        RanksAtLeastTwoKeys(r.value[i], r.value[j], InductanceColumn, QFactorColumn);
      }
      forall a, b | a in r.value && b in multiset(t.rows) - multiset(r.value)
        ensures && InductanceColumn in a && QFactorColumn in a
                && InductanceColumn in b && QFactorColumn in b
                && InductanceThenQAtLeast(a, b)
      {
        assert HasKeys(a, sortKeys) && HasKeys(b, sortKeys) && RanksAtLeast(a, b, sortKeys);
        RanksAtLeastTwoKeys(a, b, InductanceColumn, QFactorColumn);
      }
    }
  }

  /** The pipeline's shortlist: the five rows of highest inductance, ties
      broken by the higher Q factor, taken from the input without repeats,
      and ranking above every row left out. */
  function TopFiveOptions(t: Table): (r: Result<seq<Record>>)
    requires WellFormed(t)
    ensures r.Err? <==> InductanceColumn !in t.columns || QFactorColumn !in t.columns
    ensures r.Ok? ==> |r.value| == (if 5 < |t.rows| then 5 else |t.rows|)
    ensures r.Ok? ==> multiset(r.value) <= multiset(t.rows)
    ensures r.Ok? ==> forall i :: 0 <= i < |r.value| ==>
      InductanceColumn in r.value[i] && QFactorColumn in r.value[i]
    ensures r.Ok? ==> forall i, j :: 0 <= i < j < |r.value| ==>
      InductanceThenQAtLeast(r.value[i], r.value[j])
    ensures r.Ok? ==> forall a, b :: a in r.value && b in multiset(t.rows) - multiset(r.value) ==>
      && InductanceColumn in a && QFactorColumn in a
      && InductanceColumn in b && QFactorColumn in b
      && InductanceThenQAtLeast(a, b)
  {
    TwoKeyShortlist(t, 5);
    SortThenHead(t, [InductanceColumn, QFactorColumn], 5)
  }
}
