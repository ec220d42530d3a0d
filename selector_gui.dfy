/** The viewer's ranking state: an ordered list of sort keys that starts
    with the inductance column and grows by distinct keys, and a row count.
    Applying it sorts a table descending by those keys and shows the first
    rows. */
module CoilSelector {
  import opened Ranking

  const InitialSortOption: string := InductanceColumn
  const InitialRowsDisplayed: int := 10

  predicate NoDuplicates(keys: seq<string>)
  {
    forall i, j :: 0 <= i < j < |keys| ==> keys[i] != keys[j]
  }

  /** Appends `k` unless the list already holds it. */
  function AddKey(keys: seq<string>, k: string): (r: seq<string>)
    ensures k in r
    ensures forall x :: x in r <==> (x in keys || x == k)
    ensures |r| == |keys| + (if k in keys then 0 else 1)
    ensures r[..|keys|] == keys
    ensures k !in keys ==> r[|keys|] == k
    ensures NoDuplicates(keys) ==> NoDuplicates(r)
  {
    if k in keys then keys else keys + [k]
  }

  /** Adding a key twice is adding it once. */
  lemma AddKeyIdempotent(keys: seq<string>, k: string)
    ensures AddKey(AddKey(keys, k), k) == AddKey(keys, k)
  {
  }

  /** The key list after a run of additions, in the order they were made. */
  function AddKeys(keys: seq<string>, added: seq<string>): seq<string>
    decreases |added|
  {
    if added == [] then keys
    else AddKeys(AddKey(keys, added[0]), added[1..])
  }

  /** Starting from a list without duplicates, however many additions are
      made, the list keeps its first keys in place, holds exactly the initial
      and the added keys, and never holds a key twice. */
  lemma {:induction false} AddKeysInvariant(keys: seq<string>, added: seq<string>)
    requires NoDuplicates(keys)
    ensures var r := AddKeys(keys, added);
      && NoDuplicates(r)
      && |keys| <= |r| && r[..|keys|] == keys
      && (forall x :: x in r <==> (x in keys || x in added))
    decreases |added|
  {
    if added != [] {
      var next := AddKey(keys, added[0]);
      AddKeysInvariant(next, added[1..]);
      var r := AddKeys(next, added[1..]);
      assert r == AddKeys(keys, added);
      assert r[..|keys|] == r[..|next|][..|keys|];
      forall x | x in r ensures x in keys || x in added {
        if x !in keys && x != added[0] {
          assert x in added[1..];
        }
      }
      forall x | x in keys || x in added ensures x in r {
        if x !in keys && x != added[0] {
          var i :| 0 <= i < |added| && added[i] == x;
          assert added[1..][i - 1] == x;
        }
      }
    }
  }

  /** The viewer: its sort keys and how many rows it shows. */
  class CoilSelectorApp {
    var sortOptions: seq<string>
    var numRowsDisplayed: int

    /** The first key is the inductance column and no key appears twice. */
    ghost predicate Valid()
      reads this
    {
      |sortOptions| > 0 && sortOptions[0] == InitialSortOption && NoDuplicates(sortOptions)
    }

    /** Starts sorting by inductance alone and showing 10 rows. */
    constructor ()
      ensures sortOptions == [InitialSortOption]
      ensures numRowsDisplayed == InitialRowsDisplayed
      ensures Valid()
    {
      sortOptions := [InitialSortOption];
      numRowsDisplayed := InitialRowsDisplayed;
    }

    /** Adds the selected column as the next, least significant, sort key
        unless it is already a key. */
    method AddSortOption(selected: string)
      requires Valid()
      modifies this
      ensures sortOptions == AddKey(old(sortOptions), selected)
      ensures numRowsDisplayed == old(numRowsDisplayed)
      ensures Valid()
    {
      if selected !in sortOptions {
        sortOptions := sortOptions + [selected];
      }
    }

    /** The row-count entry: whatever integer is typed in. */
    method SetNumRowsDisplayed(n: int)
      requires Valid()
      modifies this
      ensures numRowsDisplayed == n
      ensures sortOptions == old(sortOptions)
      ensures Valid()
    {
      numRowsDisplayed := n;
    }

    /** Sorts the table descending by the keys in order and keeps the first
        `numRowsDisplayed` rows; a key the table lacks is a KeyError. */
    method ApplyFilters(t: Table) returns (shown: Result<seq<Record>>)
      requires WellFormed(t)
      ensures shown == SortThenHead(t, sortOptions, numRowsDisplayed)
      ensures shown.Err? <==> exists k :: k in sortOptions && k !in t.columns
      ensures shown.Ok? && numRowsDisplayed >= 0 ==>
        |shown.value| == (if numRowsDisplayed < |t.rows| then numRowsDisplayed else |t.rows|)
      ensures shown.Ok? ==> multiset(shown.value) <= multiset(t.rows)
      ensures shown.Ok? ==> AllHaveKeys(shown.value, sortOptions) && SortedDesc(shown.value, sortOptions)
    {
      shown := SortThenHead(t, sortOptions, numRowsDisplayed);
    }
  }
}
