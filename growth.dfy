/**
 * The growth-incidence curve: each period's rows are sorted by income, given a
 * cumulative population share (running weight over its largest value) and
 * bucketed into percentiles 1 .. 99; the unweighted mean income of each
 * percentile is taken, the percentiles present in both periods are kept, and
 * the change is mean2 / mean1 - 1.
 */
module Growth {
  import opened Stats
  import opened Sorting
  import opened Describe
  import opened Curves
  import opened Tiles

  /** The running weight total, cumsum(). */
  function CumWeights(s: seq<Obs>): (c: seq<real>)
    ensures |c| == |s|
    ensures forall i :: 0 <= i < |s| ==> c[i] == SumOf(s[..i + 1], Weight)
  {
    seq(|s|, i requires 0 <= i < |s| => SumOf(s[..i + 1], Weight))
  }

  /** The share column, cumsum() / cumsum().max(). When that maximum is 0 every
      share is NaN or infinite and no row can fall in a percentile: None. */
  function ShareColumn(s: seq<Obs>): (r: Option<seq<real>>)
    ensures r.Some? ==> |r.value| == |s|
  {
    var c := CumWeights(s);
    if |c| == 0 then Some([])
    else
      var m := MaxOf(c);
      if m == 0.0 then None
      else Some(seq(|c|, i requires 0 <= i < |c| => c[i] / m))
  }

  /** With non-negative weights the largest running total is the total weight,
      so the share column is the cumulative population share shrpop. */
  lemma {:induction false} ShareColumnIsShrpop(s: seq<Obs>)
    requires NonNegWeights(s) && SumOf(s, Weight) != 0.0
    ensures ShareColumn(s) == Some(CumShareOf(s, Weight))
  {
    if |s| > 0 {
      LargestRunningTotal(s);
      var r := ShareColumn(s);
      var cs := CumShareOf(s, Weight);
      forall i | 0 <= i < |s| ensures r.value[i] == cs[i] {
        ShareAt(s, i);
        CumShareAt(s, Weight, i);
      }
      assert r.value == cs;
    }
  }

  lemma {:induction false} LargestRunningTotal(s: seq<Obs>)
    requires NonNegWeights(s) && |s| > 0
    ensures MaxOf(CumWeights(s)) == SumOf(s, Weight)
  {
    var c := CumWeights(s);
    var total, m := SumOf(s, Weight), MaxOf(c);
    var i :| 0 <= i < |c| && c[i] == m;
    PrefixWithinTotal(s, i + 1, Weight);
    assert s[..|s|] == s;
    assert c[|s| - 1] == total;
  }

  lemma {:induction false} ShareAt(s: seq<Obs>, i: nat)
    requires i < |s| && ShareColumn(s).Some?
    ensures MaxOf(CumWeights(s)) != 0.0
    ensures ShareColumn(s).value[i] == SumOf(s[..i + 1], Weight) / MaxOf(CumWeights(s))
  {
    var c := CumWeights(s);
    var m := MaxOf(c);
    var upto := c[i];
    assert ShareColumn(s).value[i] == upto / m;
  }

  /** The percentile column after the loop j = 1 .. 99: j for a share in
      ((j - 1)/100, j/100], 0 (NaN) otherwise. */
  function PercentilesOf(s: seq<Obs>): (p: seq<int>)
    ensures |p| == |s|
  {
    match ShareColumn(s)
    case None => seq(|s|, _ => 0)
    case Some(sh) => seq(|s|, k requires 0 <= k < |s| => TileUpTo(sh[k], 100, 99))
  }

  /** The percentile loop over the share column. */
  method PercentileColumn(s: seq<Obs>) returns (pct: array<int>)
    ensures pct[..] == PercentilesOf(s)
  {
    var sh := ShareColumn(s);
    if sh.None? {
      pct := new int[|s|](_ => 0);
    } else {
      pct := AssignTiles(sh.value, 100, 99);
    }
  }

  /** A row gets percentile j exactly when its population share lies in
      ((j - 1)/100, j/100]; it gets none exactly when its share is 0 or above
      0.99, so the top percentile is never formed. */
  lemma {:induction false} PercentileRule(s: seq<Obs>, k: nat)
    requires NonNegWeights(s) && SumOf(s, Weight) != 0.0 && k < |s|
    ensures forall j :: 1 <= j <= 99 ==> (PercentilesOf(s)[k] == j <==> InTile(CumShareOf(s, Weight)[k], j, 100))
    ensures PercentilesOf(s)[k] == 0 <==> CumShareOf(s, Weight)[k] == 0.0 || CumShareOf(s, Weight)[k] > 0.99
  {
    ShareColumnIsShrpop(s);
    var sh := CumShareOf(s, Weight)[k];
    CumShareInUnit(s, Weight, k);
    forall j | 1 <= j <= 99 ensures PercentilesOf(s)[k] == j <==> InTile(sh, j, 100) {
      TileOfInterval(sh, 100, j);
    }
    TileOfInterval(sh, 100, 100);
  }

  /** The last row, with share exactly 1, is always left out. */
  lemma {:induction false} TopRowDropped(s: seq<Obs>)
    requires NonNegWeights(s) && SumOf(s, Weight) != 0.0 && |s| > 0
    ensures PercentilesOf(s)[|s| - 1] == 0
  {
    PercentileRule(s, |s| - 1);
    CumShareEndsAtOne(s, Weight);
  }

  /** The percentiles that occur in a column. */
  function Keys(p: seq<int>): set<int>
  {
    set k | 0 <= k < |p| && p[k] != 0 :: p[k]
  }

  /** The unweighted mean of the values labelled j, for a label that occurs. */
  function LabelMean(s: seq<Obs>, p: seq<int>, j: int): (m: real)
    requires |s| == |p| && j in Keys(p)
    ensures LabelSum(s, p, j, Unit) > 0.0
    ensures m * LabelSum(s, p, j, Unit) == LabelSum(s, p, j, Value)
  {
    var k :| 0 <= k < |p| && p[k] != 0 && p[k] == j;
    LabelSumPositive(s, p, j, Unit, k);
    LabelSum(s, p, j, Value) / LabelSum(s, p, j, Unit)
  }

  /** groupby('percentil').agg({'ipcf': 'mean'}): the NaN group is dropped. */
  function PercentileMeans(s: seq<Obs>, p: seq<int>): (m: map<int, real>)
    requires |s| == |p|
    ensures m.Keys == Keys(p)
  {
    map j | j in Keys(p) :: LabelMean(s, p, j)
  }

  /** The inner join of the two periods and the change ipcf_06 / ipcf_92 - 1;
      None where the first period's mean is 0 and the quotient is not finite. */
  function Join(m1: map<int, real>, m2: map<int, real>): (g: map<int, Option<real>>)
    ensures g.Keys == m1.Keys * m2.Keys
    ensures forall j :: j in g ==> (g[j].None? <==> m1[j] == 0.0)
    ensures forall j :: j in g && g[j].Some? ==> m2[j] == (1.0 + g[j].value) * m1[j]
  {
    map j | j in m1.Keys * m2.Keys :: if m1[j] == 0.0 then None else Some(m2[j] / m1[j] - 1.0)
  }

  /** The growth-incidence curve of two periods. */
  function GrowthIncidence(o1: seq<Obs>, o2: seq<Obs>): map<int, Option<real>>
  {
    var s1, s2 := SortObs(o1), SortObs(o2);
    Join(PercentileMeans(s1, PercentilesOf(s1)), PercentileMeans(s2, PercentilesOf(s2)))
  }

  /** The cell sequence: sort, percentile loop, per-percentile means, join. */
  method GrowthIncidenceCurve(o1: seq<Obs>, o2: seq<Obs>) returns (g: map<int, Option<real>>)
    ensures g == GrowthIncidence(o1, o2)
  {
    var s1 := SortObs(o1);
    var s2 := SortObs(o2);
    var p1 := PercentileColumn(s1);
    var p2 := PercentileColumn(s2);
    g := Join(PercentileMeans(s1, p1[..]), PercentileMeans(s2, p2[..]));
  }

  /** Every kept percentile lies in 1 .. 99 and occurs in both periods. */
  lemma {:induction false} GrowthKeys(o1: seq<Obs>, o2: seq<Obs>)
    ensures forall j :: j in GrowthIncidence(o1, o2) <==>
      j in Keys(PercentilesOf(SortObs(o1))) && j in Keys(PercentilesOf(SortObs(o2)))
    ensures forall j :: j in GrowthIncidence(o1, o2) ==> 1 <= j <= 99
  {
    forall j | j in Keys(PercentilesOf(SortObs(o1))) ensures 1 <= j <= 99 {
      KeysInRange(SortObs(o1), j);
    }
  }

  lemma {:induction false} KeysInRange(s: seq<Obs>, j: int)
    requires j in Keys(PercentilesOf(s))
    ensures 1 <= j <= 99
  {
    var k :| 0 <= k < |s| && PercentilesOf(s)[k] != 0 && PercentilesOf(s)[k] == j;
  }

  /** Comparing a period with itself gives a change of 0 in every percentile
      whose mean is not 0, and in every percentile when all incomes are positive. */
  lemma {:induction false} GrowthOfSameData(o: seq<Obs>)
    ensures forall j :: j in GrowthIncidence(o, o) ==>
      GrowthIncidence(o, o)[j] == Some(0.0) || GrowthIncidence(o, o)[j] == None
    ensures (forall i :: 0 <= i < |o| ==> o[i].x > 0.0) ==>
      forall j :: j in GrowthIncidence(o, o) ==> GrowthIncidence(o, o)[j] == Some(0.0)
  {
    var s := SortObs(o);
    var p := PercentilesOf(s);
    var m := PercentileMeans(s, p);
    forall j | j in m && m[j] != 0.0 ensures m[j] / m[j] - 1.0 == 0.0 {
      SelfRatio(m[j], m[j]);
    }
    if forall i :: 0 <= i < |o| ==> o[i].x > 0.0 {
      forall i | 0 <= i < |s| ensures s[i].x > 0.0 {
        SortKeepsRows(o, i);
      }
      forall j | j in m ensures m[j] != 0.0 {
        PositiveMean(s, p, j);
      }
    }
  }

  /** Positive values have a positive mean. */
  lemma {:induction false} PositiveMean(s: seq<Obs>, p: seq<int>, j: int)
    requires |s| == |p| && j in Keys(p) && forall i :: 0 <= i < |s| ==> s[i].x > 0.0
    ensures LabelMean(s, p, j) > 0.0
  {
    var k :| 0 <= k < |p| && p[k] != 0 && p[k] == j;
    LabelSumPositive(s, p, j, Value, k);
    LabelSumPositive(s, p, j, Unit, k);
  }
}
