/**
 * The two quantile routines of chapter 3. ratq51 sorts the rows by value,
 * keeps the positive values, buckets them into quintiles of cumulative
 * population share and returns the ratio of the weighted mean of quintile 5 to
 * that of quintile 1. gcuan does the same bucketing for any number of
 * buckets and reports, per bucket, the weighted mean, the weighted variance
 * and the total weight.
 */
module Quantiles {
  import opened Stats
  import opened Sorting
  import opened Describe
  import opened Curves
  import opened Tiles
  import opened BoxPlot

  /* ---------------- groups ---------------- */

  /** The rows labelled k, in their order: one group of a groupby. */
  function Group(s: seq<Obs>, t: seq<int>, k: int): (g: seq<Obs>)
    requires |s| == |t|
    ensures |g| <= |s|
    decreases |s|
  {
    if |s| == 0 then []
    else
      var n := |s| - 1;
      Group(s[..n], t[..n], k) + (if t[n] == k then [s[n]] else [])
  }

  /** A sum over a group is the sum over the rows carrying its label. */
  lemma {:induction false} GroupSum(s: seq<Obs>, t: seq<int>, k: int, f: Obs -> real)
    requires |s| == |t|
    ensures SumOf(Group(s, t, k), f) == LabelSum(s, t, k, f)
    decreases |s|
  {
    if |s| > 0 {
      var n := |s| - 1;
      var g := Group(s[..n], t[..n], k);
      GroupSum(s[..n], t[..n], k, f);
      if t[n] == k {
        SumOfAppend(g, s[n], f);
      } else {
        assert Group(s, t, k) == g;
      }
    }
  }

  /** Every member of a group is a row carrying the group's label. */
  lemma {:induction false} GroupRows(s: seq<Obs>, t: seq<int>, k: int)
    requires |s| == |t|
    ensures forall j :: 0 <= j < |Group(s, t, k)| ==>
      exists i :: 0 <= i < |s| && t[i] == k && Group(s, t, k)[j] == s[i]
    decreases |s|
  {
    if |s| > 0 {
      var n := |s| - 1;
      var s', t' := s[..n], t[..n];
      var g, g' := Group(s, t, k), Group(s', t', k);
      assert g == g' + (if t[n] == k then [s[n]] else []);
      GroupRows(s', t', k);
      forall j | 0 <= j < |g| ensures exists i :: 0 <= i < |s| && t[i] == k && g[j] == s[i] {
        if j < |g'| {
          var row := g'[j];
          var i :| 0 <= i < |s'| && t'[i] == k && row == s'[i];
          assert g[j] == row;
          assert t[i] == k && g[j] == s[i];
        } else {
          assert g[j] == s[n];
        }
      }
    } else {
      assert Group(s, t, k) == [];
    }
  }

  /** A group of rows with non-negative weights has non-negative weights. */
  lemma {:induction false} GroupWeights(s: seq<Obs>, t: seq<int>, k: int)
    requires |s| == |t| && NonNegWeights(s)
    ensures NonNegWeights(Group(s, t, k))
  {
    GroupRows(s, t, k);
  }

  /** The labels that occur in a column. */
  function Labels(t: seq<int>): set<int>
  {
    set k | 0 <= k < |t| :: t[k]
  }

  /** The rows kept by both routines: sorted by value, then only values above 0. */
  function PositiveSorted(o: seq<Obs>): (s: seq<Obs>)
    ensures Sorted(s) && |s| <= |o|
    ensures forall i :: 0 <= i < |s| ==> s[i].x > 0.0
    ensures forall r :: multiset(s)[r] == if r.x > 0.0 then multiset(o)[r] else 0
  {
    KeepPositiveKeepsOrder(SortObs(o));
    KeepPositive(SortObs(o))
  }

  lemma {:induction false} PositiveSortedWeights(o: seq<Obs>)
    requires NonNegWeights(o)
    ensures NonNegWeights(PositiveSorted(o))
  {
    SortKeepsNonNegWeights(o);
    KeepPositiveKeepsWeights(SortObs(o));
  }

  /* ---------------- ratq51 ---------------- */

  /** The quintile column of a share column. */
  function QuintileColumn(shr: seq<real>, f: FirstMask): (q: seq<int>)
    ensures |q| == |shr| && forall k :: 0 <= k < |shr| ==> q[k] == QuintileOf(shr[k], f)
  {
    seq(|shr|, k requires 0 <= k < |shr| => QuintileOf(shr[k], f))
  }

  /** Mean of the rows labelled 5 over mean of the rows labelled 1
      (np.average over each group): a group whose weights sum to 0 fails, and
      a zero first-quintile mean makes the quotient non-finite. */
  function GroupRatio(s: seq<Obs>, q: seq<int>): (r: Result<real>)
    requires |s| == |q|
    ensures r.Err? ==> r.error == ZeroWeightSum || r.error == ZeroMean
    ensures r == Err(ZeroWeightSum) <==>
      SumOf(Group(s, q, 1), Weight) == 0.0 || SumOf(Group(s, q, 5), Weight) == 0.0
    ensures r == Err(ZeroMean) <==>
      SumOf(Group(s, q, 1), Weight) != 0.0 && SumOf(Group(s, q, 5), Weight) != 0.0 &&
      SumOf(Group(s, q, 1), Income) == 0.0
    ensures r.Ok? ==>
      SumOf(Group(s, q, 1), Weight) != 0.0 && SumOf(Group(s, q, 5), Weight) != 0.0 &&
      r.value * WeightedMean(Group(s, q, 1)) == WeightedMean(Group(s, q, 5))
  {
    var g1, g5 := Group(s, q, 1), Group(s, q, 5);
    if SumOf(g1, Weight) == 0.0 || SumOf(g5, Weight) == 0.0 then Err(ZeroWeightSum)
    else if WeightedMean(g1) == 0.0 then Err(ZeroMean)
    else Ok(WeightedMean(g5) / WeightedMean(g1))
  }

  /** Q5/Q1 on rows already sorted and filtered. With a zero total weight
      every share is NaN or infinite, no row reaches quintile 5 and np.average
      fails on it. */
  function QuintileRatio(s: seq<Obs>, f: FirstMask): (r: Result<real>)
    ensures SumOf(s, Weight) == 0.0 ==> r == Err(ZeroWeightSum)
    ensures r.Err? ==> r.error == ZeroWeightSum || r.error == ZeroMean
  {
    if SumOf(s, Weight) == 0.0 then Err(ZeroWeightSum)
    else GroupRatio(s, QuintileColumn(CumShareOf(s, Weight), f))
  }

  /** ratq51 on the value column x and the weight column w of one data frame:
      an empty frame and a missing x are the two fatal errors, checked in that
      order; then the rows are sorted, filtered to x > 0 and bucketed with the
      first mask "share in [0, 0.2]". */
  function Q5OverQ1(x: Option<seq<real>>, w: seq<real>): (r: Result<real>)
    requires x.Some? ==> |x.value| == |w|
    ensures |w| == 0 <==> r == Err(EmptyData)
    ensures |w| > 0 && x.None? <==> r == Err(MissingValues)
  {
    if |w| == 0 then Err(EmptyData)
    else if x.None? then Err(MissingValues)
    else QuintileRatio(PositiveSorted(Zip(x.value, w)), ZeroToFifth)
  }

  /** The routine as written: the share and quintile columns are filled in
      place, then the two quintile means are taken. */
  method Ratq51(x: Option<seq<real>>, w: seq<real>) returns (r: Result<real>)
    requires x.Some? ==> |x.value| == |w|
    ensures r == Q5OverQ1(x, w)
  {
    if |w| == 0 {
      return Err(EmptyData);
    }
    if x.None? {
      return Err(MissingValues);
    }
    r := SortedQuintileRatio(PositiveSorted(Zip(x.value, w)));
  }

  /** The share column, the quintile masks and the two means, on the sorted
      and filtered rows. */
  method SortedQuintileRatio(s: seq<Obs>) returns (r: Result<real>)
    ensures r == QuintileRatio(s, ZeroToFifth)
  {
    if SumOf(s, Weight) == 0.0 {
      return Err(ZeroWeightSum);
    }
    var shr := CumShareOf(s, Weight);
    var quintil := AssignQuintiles(shr, ZeroToFifth);
    assert quintil[..] == QuintileColumn(shr, ZeroToFifth);
    r := GroupRatio(s, quintil[..]);
  }

  /** Along rows sorted by value with non-negative weights, the quintile
      column never decreases. */
  lemma {:induction false} QuintilesAscend(s: seq<Obs>, f: FirstMask, i: nat, j: nat)
    requires NonNegWeights(s) && SumOf(s, Weight) != 0.0 && i <= j < |s|
    ensures QuintileColumn(CumShareOf(s, Weight), f)[i] <= QuintileColumn(CumShareOf(s, Weight), f)[j]
  {
    var shr := CumShareOf(s, Weight);
    CumShareOrder(s, Weight, i, j);
    CumShareInUnit(s, Weight, i);
    CumShareInUnit(s, Weight, j);
    QuintileMonotone(shr[i], shr[j], f);
  }

  /** Every value of a later group is at least every value of an earlier one,
      when the labels ascend along rows sorted by value. */
  lemma {:induction false} LaterGroupAbove(s: seq<Obs>, t: seq<int>, a: int, b: int, i: nat, j: nat)
    requires |s| == |t| && SortedByValue(s) && a < b
    requires forall m, n :: 0 <= m <= n < |t| ==> t[m] <= t[n]
    requires i < |Group(s, t, a)| && j < |Group(s, t, b)|
    ensures Group(s, t, a)[i].x <= Group(s, t, b)[j].x
  {
    GroupRows(s, t, a);
    GroupRows(s, t, b);
    var ra, rb := Group(s, t, a)[i], Group(s, t, b)[j];
    var m :| 0 <= m < |s| && t[m] == a && ra == s[m];
    var n :| 0 <= n < |s| && t[n] == b && rb == s[n];
    assert m < n;
  }

  /** When the labels ascend along rows sorted by value, the mean of group 5
      is at least the mean of group 1, and with positive values the ratio is at
      least 1. */
  lemma {:induction false} GroupRatioAtLeastOne(s: seq<Obs>, q: seq<int>)
    requires |s| == |q| && SortedByValue(s) && NonNegWeights(s)
    requires forall i :: 0 <= i < |s| ==> s[i].x > 0.0
    requires forall m, n :: 0 <= m <= n < |q| ==> q[m] <= q[n]
    requires GroupRatio(s, q).Ok?
    ensures GroupRatio(s, q).value >= 1.0
  {
    var g1, g5 := Group(s, q, 1), Group(s, q, 5);
    var m1, m5 := WeightedMean(g1), WeightedMean(g5);
    var hi := FirstGroupBelow(s, q);
    assert 0.0 < m1 <= hi <= m5;
    DivMono(m1, m5, m1);
    SelfRatio(m1, m1);
  }

  /** The largest value of group 1 bounds its mean from above and the mean of
      group 5 from below; the mean of group 1 is positive. */
  lemma {:induction false} FirstGroupBelow(s: seq<Obs>, q: seq<int>) returns (hi: real)
    requires |s| == |q| && SortedByValue(s) && NonNegWeights(s)
    requires forall i :: 0 <= i < |s| ==> s[i].x > 0.0
    requires forall m, n :: 0 <= m <= n < |q| ==> q[m] <= q[n]
    requires SumOf(Group(s, q, 1), Weight) != 0.0 && SumOf(Group(s, q, 5), Weight) != 0.0
    ensures 0.0 < WeightedMean(Group(s, q, 1)) <= hi <= WeightedMean(Group(s, q, 5))
  {
    var g1, g5 := Group(s, q, 1), Group(s, q, 5);
    GroupRows(s, q, 1);
    GroupWeights(s, q, 1);
    GroupWeights(s, q, 5);
    var v1 := Values(g1);
    var lo := MinOf(v1);
    hi := MaxOf(v1);
    var k :| 0 <= k < |v1| && v1[k] == hi;
    forall j | 0 <= j < |g5| ensures hi <= g5[j].x {
      LaterGroupAbove(s, q, 1, 5, k, j);
    }
    MeanBounds(g5, hi, MaxOf(Values(g5)));
    MeanBounds(g1, lo, hi);
    var k1 :| 0 <= k1 < |v1| && v1[k1] == lo;
    var r1 := g1[k1];
    var i1 :| 0 <= i1 < |s| && q[i1] == 1 && r1 == s[i1];
  }

  /** The ratio of extreme quintiles is at least 1: with non-negative weights,
      every value in quintile 5 is at least every value in quintile 1, and
      every value is positive. */
  lemma {:induction false} QuintileRatioAtLeastOne(s: seq<Obs>, f: FirstMask)
    requires SortedByValue(s) && NonNegWeights(s)
    requires forall i :: 0 <= i < |s| ==> s[i].x > 0.0
    requires QuintileRatio(s, f).Ok?
    ensures QuintileRatio(s, f).value >= 1.0
  {
    var q := QuintileColumn(CumShareOf(s, Weight), f);
    forall m, n | 0 <= m <= n < |q| ensures q[m] <= q[n] {
      QuintilesAscend(s, f, m, n);
    }
    GroupRatioAtLeastOne(s, q);
  }

  /** ratq51 with non-negative weights returns a ratio of at least 1. */
  lemma {:induction false} Q5OverQ1AtLeastOne(x: Option<seq<real>>, w: seq<real>)
    requires x.Some? ==> |x.value| == |w|
    requires forall i :: 0 <= i < |w| ==> w[i] >= 0.0
    requires Q5OverQ1(x, w).Ok?
    ensures Q5OverQ1(x, w).value >= 1.0
  {
    var s := PositiveSorted(Zip(x.value, w));
    PositiveSortedWeights(Zip(x.value, w));
    SortedIsSortedByValue(s);
    QuintileRatioAtLeastOne(s, ZeroToFifth);
  }

  /** The quintile block of the first cell: rows filtered to positive values,
      then sorted, with the precedence-parsed first mask. */
  function QuintileCell(o: seq<Obs>): (r: Result<real>)
    ensures SumOf(KeepPositive(o), Weight) == 0.0 ==> r == Err(ZeroWeightSum)
  {
    var s := SortObs(KeepPositive(o));
    SumOfSort(KeepPositive(o), Weight);
    QuintileRatio(s, AtLeastZero)
  }

  lemma {:induction false} QuintileCellAtLeastOne(o: seq<Obs>)
    requires NonNegWeights(o) && QuintileCell(o).Ok?
    ensures QuintileCell(o).value >= 1.0
  {
    var p := KeepPositive(o);
    var s := SortObs(p);
    KeepPositiveKeepsWeights(o);
    SortKeepsNonNegWeights(p);
    SortedIsSortedByValue(s);
    forall i | 0 <= i < |s| ensures s[i].x > 0.0 {
      SortKeepsRows(p, i);
    }
    QuintileRatioAtLeastOne(s, AtLeastZero);
  }

  /* ---------------- gcuan ---------------- */

  /** One row of gcuan's result: the weighted mean, the weighted variance (the
      source reports its square root) and the total weight of a bucket. */
  datatype TileStats = TileStats(mean: real, variance: real, obs: real)

  function StatsOf(g: seq<Obs>): TileStats
    requires SumOf(g, Weight) != 0.0
  {
    TileStats(WeightedMean(g), WeightedVariance(g), SumOf(g, Weight))
  }

  /** The bucket column of gcuan after its loop over i = 1 .. n. A zero total
      weight makes every share NaN or infinite, and such a share lies in no
      bucket. */
  function BucketsOf(s: seq<Obs>, n: int): (t: seq<int>)
    ensures |t| == |s|
    ensures forall k :: 0 <= k < |s| ==> 0 <= t[k] && (n >= 1 ==> t[k] <= n) && (n < 1 ==> t[k] == 0)
  {
    seq(|s|, k requires 0 <= k < |s| =>
      if SumOf(s, Weight) == 0.0 then 0 else TileUpTo(CumShareOf(s, Weight)[k], n, n))
  }

  /** The groupby over the bucket column: one entry per bucket that occurs,
      failing when some bucket's weights sum to 0 (np.average). */
  function TileTable(s: seq<Obs>, t: seq<int>): (r: Result<map<int, TileStats>>)
    requires |s| == |t|
    ensures r.Err? ==> r.error == ZeroWeightSum
    ensures r.Err? <==> exists k :: k in Labels(t) && SumOf(Group(s, t, k), Weight) == 0.0
    ensures r.Ok? ==> r.value.Keys == Labels(t)
    ensures r.Ok? ==> forall k :: k in r.value ==> EntryOf(r.value[k], Group(s, t, k))
  {
    if exists k :: k in Labels(t) && SumOf(Group(s, t, k), Weight) == 0.0 then Err(ZeroWeightSum)
    else
      var m := map k | k in Labels(t) :: StatsOf(Group(s, t, k));
      TableEntries(s, t, m);
      Ok(m)
  }

  /** A table entry for the rows g: their total weight (not zero), and the
      mean and variance that, times that weight, give the income total and
      the weighted squared deviation from the mean. */
  predicate EntryOf(e: TileStats, g: seq<Obs>)
  {
    && e.obs == SumOf(g, Weight) != 0.0
    && e.mean * e.obs == SumOf(g, Income)
    && e.variance * e.obs == SquaredDeviation(g, e.mean)
  }

  /** The entries of the table against the rows of their buckets. */
  lemma {:induction false} TableEntries(s: seq<Obs>, t: seq<int>, m: map<int, TileStats>)
    requires |s| == |t|
    requires forall k :: k in Labels(t) ==> SumOf(Group(s, t, k), Weight) != 0.0
    requires m == map k | k in Labels(t) :: StatsOf(Group(s, t, k))
    ensures m.Keys == Labels(t)
    ensures forall k :: k in m ==> EntryOf(m[k], Group(s, t, k))
  {
    forall k | k in m ensures EntryOf(m[k], Group(s, t, k)) {
      StatsTimesObs(Group(s, t, k));
    }
  }

  /** Mean and variance times the bucket's weight are its income total and
      its weighted squared deviation. */
  lemma {:induction false} StatsTimesObs(g: seq<Obs>)
    requires SumOf(g, Weight) != 0.0
    ensures EntryOf(StatsOf(g), g)
  {
    var W, I := SumOf(g, Weight), SumOf(g, Income);
    var D := SquaredDeviation(g, I / W);
    assert (I / W) * W == I;
    assert (D / W) * W == D;
  }

  /** The bucket count as Python receives it: an int, or a float. */
  datatype Count = IntCount(n: int) | FloatCount(f: real)

  /** int(num) == num: always for an int, only for a whole float. */
  predicate Whole(num: Count)
  {
    num.IntCount? || num.f.Floor as real == num.f
  }

  predicate IsZero(num: Count)
  {
    if num.IntCount? then num.n == 0 else num.f == 0.0
  }

  /** gcuan on a value column x, a bucket count num and a weight column w (an
      empty one meaning unit weights). A count that is not a whole number is
      refused; a count of 0 fails on 1/num; a whole float gets past both
      checks and then fails in range(1, num + 1). */
  function QuantileTable(x: seq<real>, num: Count, w: seq<real>): (r: Result<map<int, TileStats>>)
    ensures r == Err(NonIntegerCount) <==> !Whole(num)
    ensures Whole(num) && |w| != 0 && |w| != |x| ==> r == Err(ShapeMismatch)
    ensures Whole(num) && (|w| == 0 || |w| == |x|) && IsZero(num) ==> r == Err(ZeroCount)
    ensures Whole(num) && (|w| == 0 || |w| == |x|) && !IsZero(num) && num.FloatCount? ==> r == Err(RangeOfFloat)
    ensures r.Ok? ==> num.IntCount? && num.n != 0 && (|w| == 0 || |w| == |x|)
    ensures r.Err? ==> r.error in {NonIntegerCount, ShapeMismatch, ZeroCount, RangeOfFloat, ZeroWeightSum}
  {
    if !Whole(num) then Err(NonIntegerCount)
    else
      var wt := if |w| == 0 then Ones(|x|) else w;
      if |wt| != |x| then Err(ShapeMismatch)
      else if IsZero(num) then Err(ZeroCount)
      else if num.FloatCount? then Err(RangeOfFloat)
      else
        var s := PositiveSorted(Zip(x, wt));
        TileTable(s, BucketsOf(s, num.n))
  }

  /** The routine as written: the bucket column starts at 0 and the loop over
      i = 1 .. num overwrites it; then the per-bucket statistics. */
  method Gcuan(x: seq<real>, num: Count, w: seq<real>) returns (r: Result<map<int, TileStats>>)
    ensures r == QuantileTable(x, num, w)
  {
    if !Whole(num) {
      return Err(NonIntegerCount);
    }
    var weight := w;
    if |w| == 0 {
      weight := Ones(|x|);
    }
    if |weight| != |x| {
      return Err(ShapeMismatch);
    }
    if IsZero(num) {
      return Err(ZeroCount);
    }
    if num.FloatCount? {
      return Err(RangeOfFloat);
    }
    r := BucketTable(PositiveSorted(Zip(x, weight)), num.n);
  }

  /** The bucket column filled by the loop over i = 1 .. n, then the
      per-bucket statistics. */
  method BucketTable(s: seq<Obs>, n: int) returns (r: Result<map<int, TileStats>>)
    ensures r == TileTable(s, BucketsOf(s, n))
  {
    var cuantil: array<int>;
    if SumOf(s, Weight) == 0.0 {
      cuantil := new int[|s|](_ => 0);
    } else {
      cuantil := AssignTiles(CumShareOf(s, Weight), n, n);
    }
    assert cuantil[..] == BucketsOf(s, n);
    r := TileTable(s, cuantil[..]);
  }

  /** A row gets bucket i of n exactly when its share lies in ((i - 1)/n, i/n];
      with non-negative weights it gets none exactly when its share is 0, and
      the buckets never decrease along the sorted rows. */
  lemma {:induction false} BucketRule(s: seq<Obs>, n: int, k: nat)
    requires NonNegWeights(s) && SumOf(s, Weight) != 0.0 && k < |s| && n >= 1
    ensures forall i :: 1 <= i <= n ==> (BucketsOf(s, n)[k] == i <==> InTile(CumShareOf(s, Weight)[k], i, n))
    ensures BucketsOf(s, n)[k] == 0 <==> CumShareOf(s, Weight)[k] == 0.0
    ensures forall j :: k <= j < |s| ==> BucketsOf(s, n)[k] <= BucketsOf(s, n)[j]
  {
    var shr := CumShareOf(s, Weight);
    CumShareInUnit(s, Weight, k);
    forall i | 1 <= i <= n ensures BucketsOf(s, n)[k] == i <==> InTile(shr[k], i, n) {
      TileOfInterval(shr[k], n, i);
    }
    forall j | k <= j < |s| ensures BucketsOf(s, n)[k] <= BucketsOf(s, n)[j] {
      CumShareOrder(s, Weight, k, j);
      CumShareInUnit(s, Weight, j);
      TileOfMonotone(shr[k], shr[j], n);
    }
  }

  /** The sum of the obs column over the buckets lo .. hi - 1. */
  function ObsTotal(m: map<int, TileStats>, lo: int, hi: int): real
    decreases hi - lo
  {
    if hi <= lo then 0.0 else ObsTotal(m, lo, hi - 1) + (if hi - 1 in m then m[hi - 1].obs else 0.0)
  }

  lemma {:induction false} TableObsTotal(s: seq<Obs>, t: seq<int>, lo: int, hi: int)
    requires |s| == |t| && TileTable(s, t).Ok?
    ensures ObsTotal(TileTable(s, t).value, lo, hi) == LabelSumRange(s, t, lo, hi, Weight)
    decreases hi - lo
  {
    if hi > lo {
      TableObsTotal(s, t, lo, hi - 1);
      var k := hi - 1;
      if k in Labels(t) {
        GroupSum(s, t, k, Weight);
      } else {
        forall i | 0 <= i < |t| ensures t[i] != k {
          assert t[i] in Labels(t);
        }
        LabelSumAbsent(s, t, k, Weight);
      }
    }
  }

  /** The number of bucket labels gcuan can produce: 0 .. n, or only 0. */
  function LabelBound(n: int): int
  {
    if n >= 1 then n + 1 else 1
  }

  /** The obs column adds up to the total weight of the retained rows: the
      buckets partition them. */
  lemma {:induction false} QuantileTableObs(x: seq<real>, num: Count, w: seq<real>)
    requires QuantileTable(x, num, w).Ok?
    ensures var wt := if |w| == 0 then Ones(|x|) else w;
      |wt| == |x| &&
      ObsTotal(QuantileTable(x, num, w).value, 0, LabelBound(num.n)) == SumOf(PositiveSorted(Zip(x, wt)), Weight)
  {
    var wt := if |w| == 0 then Ones(|x|) else w;
    var s := PositiveSorted(Zip(x, wt));
    var t := BucketsOf(s, num.n);
    TableObsTotal(s, t, 0, LabelBound(num.n));
    LabelSumRangeTotal(s, t, 0, LabelBound(num.n), Weight);
  }

  /** With non-negative weights each bucket's mean lies between the smallest
      and the largest value in the bucket, and its variance is not negative. */
  lemma {:induction false} TableMeansWithin(s: seq<Obs>, t: seq<int>)
    requires |s| == |t| && NonNegWeights(s) && TileTable(s, t).Ok?
    ensures forall k :: k in TileTable(s, t).value ==>
      |Group(s, t, k)| > 0 &&
      MinOf(Values(Group(s, t, k))) <= TileTable(s, t).value[k].mean <= MaxOf(Values(Group(s, t, k))) &&
      TileTable(s, t).value[k].variance >= 0.0
  {
    forall k | k in TileTable(s, t).value
      ensures |Group(s, t, k)| > 0
      ensures MinOf(Values(Group(s, t, k))) <= TileTable(s, t).value[k].mean <= MaxOf(Values(Group(s, t, k)))
      ensures TileTable(s, t).value[k].variance >= 0.0
    {
      var g := Group(s, t, k);
      GroupWeights(s, t, k);
      MeanBounds(g, MinOf(Values(g)), MaxOf(Values(g)));
      VarianceNonNeg(g);
    }
  }

  /** gcuan with non-negative weights: every bucket's mean lies within the
      bucket's values and its variance is not negative. */
  lemma {:induction false} QuantileTableMeans(x: seq<real>, num: Count, w: seq<real>)
    requires QuantileTable(x, num, w).Ok?
    requires forall i :: 0 <= i < |w| ==> w[i] >= 0.0
    ensures var wt := if |w| == 0 then Ones(|x|) else w;
      var s := PositiveSorted(Zip(x, wt));
      |wt| == |x| &&
      forall k :: k in QuantileTable(x, num, w).value ==>
        |Group(s, BucketsOf(s, num.n), k)| > 0 &&
        MinOf(Values(Group(s, BucketsOf(s, num.n), k))) <= QuantileTable(x, num, w).value[k].mean
          <= MaxOf(Values(Group(s, BucketsOf(s, num.n), k))) &&
        QuantileTable(x, num, w).value[k].variance >= 0.0
  {
    var wt := if |w| == 0 then Ones(|x|) else w;
    PositiveSortedWeights(Zip(x, wt));
    var s := PositiveSorted(Zip(x, wt));
    TableMeansWithin(s, BucketsOf(s, num.n));
  }
}
