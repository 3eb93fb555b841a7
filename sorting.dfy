/**
 * Ordering observations by value. The notebooks sort with np.argsort(x) or
 * DataFrame.sort_values(by=["ipcf"]) / (by=["ipcf", "pondera"]); this module
 * fixes one order: by value, ties by weight, which is exactly the second
 * form and one admissible outcome of the first two.
 */
module Sorting {
  import opened Stats

  predicate Le(a: Obs, b: Obs) { a.x < b.x || (a.x == b.x && a.w <= b.w) }

  predicate Sorted(s: seq<Obs>) { forall i, j :: 0 <= i < j < |s| ==> Le(s[i], s[j]) }

  /** Sorted by value (the property every caller relies on). */
  predicate SortedByValue(s: seq<Obs>) { forall i, j :: 0 <= i < j < |s| ==> s[i].x <= s[j].x }

  lemma {:induction false} SortedIsSortedByValue(s: seq<Obs>)
    requires Sorted(s)
    ensures SortedByValue(s)
  {
  }

  function Insert(a: Obs, s: seq<Obs>): (r: seq<Obs>)
    requires Sorted(s)
    ensures Sorted(r)
    ensures multiset(r) == multiset(s) + multiset{a}
    ensures |r| == |s| + 1
    ensures r[0] == a || (|s| > 0 && r[0] == s[0])
  {
    if s == [] then [a]
    else if Le(a, s[0]) then [a] + s
    else
      var rest := Insert(a, s[1..]);
      assert s == [s[0]] + s[1..];
      assert Le(s[0], rest[0]);
      assert forall j :: 0 <= j < |rest| ==> Le(s[0], rest[j]);
      assert multiset([s[0]] + rest) == multiset{s[0]} + multiset(rest);
      [s[0]] + rest
  }

  /** Insertion sort: a sorted permutation of its input. */
  function SortObs(s: seq<Obs>): (r: seq<Obs>)
    ensures Sorted(r)
    ensures multiset(r) == multiset(s)
    ensures |r| == |s|
  {
    if s == [] then []
    else
      assert s == s[..|s| - 1] + [s[|s| - 1]];
      Insert(s[|s| - 1], SortObs(s[..|s| - 1]))
  }

  lemma {:induction false} SumOfInsert(a: Obs, s: seq<Obs>, f: Obs -> real)
    requires Sorted(s)
    ensures SumOf(Insert(a, s), f) == SumOf(s, f) + f(a)
    decreases |s|
  {
    if s == [] {
      SumOfCons(a, s, f);
    } else if Le(a, s[0]) {
      SumOfCons(a, s, f);
    } else {
      SumOfInsert(a, s[1..], f);
      SumOfCons(s[0], Insert(a, s[1..]), f);
      SumOfCons(s[0], s[1..], f);
      assert s == [s[0]] + s[1..];
    }
  }

  /** Sorting does not change any sum over the rows. */
  lemma {:induction false} SumOfSort(s: seq<Obs>, f: Obs -> real)
    ensures SumOf(SortObs(s), f) == SumOf(s, f)
    decreases |s|
  {
    if s != [] {
      var n := |s| - 1;
      SumOfSort(s[..n], f);
      SumOfInsert(s[n], SortObs(s[..n]), f);
    }
  }

  /** Sorting preserves a property that holds of every row. */
  lemma {:induction false} SortKeepsRows(s: seq<Obs>, i: nat)
    requires i < |s|
    ensures SortObs(s)[i] in multiset(s)
  {
    assert SortObs(s)[i] in multiset(SortObs(s));
  }

  lemma {:induction false} SortKeepsNonNegWeights(s: seq<Obs>)
    requires NonNegWeights(s)
    ensures NonNegWeights(SortObs(s))
  {
    forall i | 0 <= i < |s| ensures SortObs(s)[i].w >= 0.0 {
      SortKeepsRows(s, i);
    }
  }

  lemma {:induction false} SortKeepsPositiveWeights(s: seq<Obs>)
    requires PositiveWeights(s)
    ensures PositiveWeights(SortObs(s))
  {
    forall i | 0 <= i < |s| ensures SortObs(s)[i].w > 0.0 {
      SortKeepsRows(s, i);
    }
  }

  lemma {:induction false} SortKeepsNonNegValues(s: seq<Obs>)
    requires NonNegValues(s)
    ensures NonNegValues(SortObs(s))
  {
    forall i | 0 <= i < |s| ensures SortObs(s)[i].x >= 0.0 {
      SortKeepsRows(s, i);
    }
  }

  /** The rows with a positive value, in their order (`df[df["x"] > 0]`). */
  function KeepPositive(s: seq<Obs>): (r: seq<Obs>)
    ensures forall i :: 0 <= i < |r| ==> r[i].x > 0.0
    ensures forall o :: multiset(r)[o] == if o.x > 0.0 then multiset(s)[o] else 0
    ensures multiset(r) <= multiset(s)
    ensures |r| <= |s|
    decreases |s|
  {
    if s == [] then []
    else
      var r' := KeepPositive(s[..|s| - 1]);
      assert s == s[..|s| - 1] + [s[|s| - 1]];
      if s[|s| - 1].x > 0.0 then r' + [s[|s| - 1]] else r'
  }

  lemma {:induction false} KeepPositiveKeepsOrder(s: seq<Obs>)
    requires Sorted(s)
    ensures Sorted(KeepPositive(s))
    decreases |s|
  {
    if s != [] {
      var r' := KeepPositive(s[..|s| - 1]);
      KeepPositiveKeepsOrder(s[..|s| - 1]);
      forall j | 0 <= j < |r'| ensures Le(r'[j], s[|s| - 1]) {
        assert r'[j] in multiset(s[..|s| - 1]);
      }
    }
  }

  lemma {:induction false} KeepPositiveKeepsWeights(s: seq<Obs>)
    requires NonNegWeights(s)
    ensures NonNegWeights(KeepPositive(s))
  {
    var r := KeepPositive(s);
    forall i | 0 <= i < |r| ensures r[i].w >= 0.0 {
      assert r[i] in multiset(s);
    }
  }
}
