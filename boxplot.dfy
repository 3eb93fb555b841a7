/**
 * box_plotInput and its nested weighted_percentile. Without weights the
 * percentile is numpy's default ("linear") percentile of the values; with
 * weights it is the second quantile rule of the notebooks: sort by value,
 * take cumsum(w) / sum(w) * 100 as the percent grid (no midpoint correction)
 * and interpolate with np.interp. The box-plot input adds the interquartile
 * range and the two whiskers, the lower one clamped at 0.
 */
module BoxPlot {
  import opened Stats
  import opened Sorting
  import opened Describe
  import opened Curves

  /* ---------------- the weighted rule ---------------- */

  /** p = 1. * w.cumsum() / w.sum() * 100 over the sorted rows. */
  function PercentGrid(s: seq<Obs>): (g: seq<real>)
    requires SumOf(s, Weight) != 0.0
    ensures |g| == |s|
  {
    var c := CumShareOf(s, Weight);
    seq(|s|, i requires 0 <= i < |s| => c[i] * 100.0)
  }

  /** weighted_percentile with weights: argsort the data, reorder the weights
      with the same indices (an index past the end of the weights fails), then
      np.interp(p, grid, sorted data), which fails on an empty grid. A zero weight
      total makes the grid 0/0 and is reported as an error. */
  function WeightedPercentile(x: seq<real>, p: int, w: seq<real>): (r: Result<real>)
    ensures r.Err? <==> |w| < |x| || |x| == 0 || SumOf(Zip(x, w[..|x|]), Weight) == 0.0
  {
    if |w| < |x| then Err(ShapeMismatch)
    else if |x| == 0 then Err(EmptyData)
    else
      var o := Zip(x, w[..|x|]);
      if SumOf(o, Weight) == 0.0 then Err(ZeroWeightSum)
      else
        var s := SortObs(o);
        SumOfSort(o, Weight);
        Ok(Interp(p as real, PercentGrid(s), Values(s)))
  }

  /** The percent grid of rows with non-negative weights is a distribution scaled
      to 100: non-decreasing and ending at exactly 100. */
  lemma {:induction false} PercentGridIsScaledDistribution(s: seq<Obs>)
    requires SumOf(s, Weight) != 0.0 && NonNegWeights(s) && |s| > 0
    ensures NonDecreasing(PercentGrid(s))
    ensures PercentGrid(s)[|s| - 1] == 100.0
  {
    var g := PercentGrid(s);
    forall i, j | 0 <= i <= j < |s| ensures g[i] <= g[j] {
      PercentGridAt(s, i);
      PercentGridAt(s, j);
      CumShareOrder(s, Weight, i, j);
    }
    PercentGridAt(s, |s| - 1);
    CumShareEndsAtOne(s, Weight);
  }

  /** With positive weights the first grid point is above 0. */
  lemma {:induction false} PercentGridStartsAboveZero(s: seq<Obs>)
    requires SumOf(s, Weight) != 0.0 && PositiveWeights(s) && |s| > 0
    ensures PercentGrid(s)[0] > 0.0
  {
    var total, first := SumOf(s, Weight), SumOf(s[..1], Weight);
    PercentGridAt(s, 0);
    CumShareAt(s, Weight, 0);
    SumOfNonNeg(s, Weight);
    SumOfPrefixStep(s, 0, Weight);
    assert s[..0] == [];
    DivStrict(0.0, first, total);
    assert 0.0 / total == 0.0;
    var share := first / total;
    assert share > 0.0;
  }

  lemma {:induction false} PercentGridAt(s: seq<Obs>, i: nat)
    requires SumOf(s, Weight) != 0.0 && i < |s|
    ensures PercentGrid(s)[i] == CumShareOf(s, Weight)[i] * 100.0
  {
    var c := CumShareOf(s, Weight);
    assert PercentGrid(s)[i] == c[i] * 100.0;
  }

  /** The rows handed to np.interp by the weighted rule. */
  function WeightedRows(x: seq<real>, w: seq<real>): (s: seq<Obs>)
    requires |x| <= |w|
    ensures |s| == |x|
  {
    SortObs(Zip(x, w[..|x|]))
  }

  lemma {:induction false} ZipValues(x: seq<real>, w: seq<real>)
    requires |x| == |w|
    ensures Values(Zip(x, w)) == x
  {
  }

  /** The sorted values run from the smallest to the largest data value. */
  lemma {:induction false} WeightedRowsSpan(x: seq<real>, w: seq<real>)
    requires 0 < |x| <= |w|
    ensures NonDecreasing(Values(WeightedRows(x, w)))
    ensures Values(WeightedRows(x, w))[0] == MinOf(x)
    ensures Values(WeightedRows(x, w))[|x| - 1] == MaxOf(x)
  {
    var o := Zip(x, w[..|x|]);
    SortedValuesAscend(o);
    SortedEnds(o);
    ZipValues(x, w[..|x|]);
  }

  /** A weighted percentile is always one of the values between the smallest and
      the largest data value, whatever the weights. */
  lemma {:induction false} WeightedPercentileWithin(x: seq<real>, p: int, w: seq<real>)
    requires WeightedPercentile(x, p, w).Ok?
    ensures MinOf(x) <= WeightedPercentile(x, p, w).value <= MaxOf(x)
  {
    var s := WeightedRows(x, w);
    WeightedRowsSpan(x, w);
    SumOfSort(Zip(x, w[..|x|]), Weight);
    InterpWithin(p as real, PercentGrid(s), Values(s));
  }

  /** Weighted percentiles never decrease as the percent grows. */
  lemma {:induction false} WeightedPercentileMonotone(x: seq<real>, p: int, q: int, w: seq<real>)
    requires p <= q && WeightedPercentile(x, p, w).Ok?
    ensures WeightedPercentile(x, q, w).Ok?
    ensures WeightedPercentile(x, p, w).value <= WeightedPercentile(x, q, w).value
  {
    var s := WeightedRows(x, w);
    WeightedRowsSpan(x, w);
    SumOfSort(Zip(x, w[..|x|]), Weight);
    InterpMonotone(p as real, q as real, PercentGrid(s), Values(s));
  }

  /** With non-negative weights the 100th percentile is the maximum; with positive
      weights every percent up to 0 gives the minimum. */
  lemma {:induction false} WeightedPercentileEnds(x: seq<real>, p: int, w: seq<real>)
    requires WeightedPercentile(x, p, w).Ok?
    ensures NonNegWeights(Zip(x, w[..|x|])) && p >= 100 ==> WeightedPercentile(x, p, w).value == MaxOf(x)
    ensures PositiveWeights(Zip(x, w[..|x|])) && p <= 0 ==> WeightedPercentile(x, p, w).value == MinOf(x)
  {
    var o := Zip(x, w[..|x|]);
    var s := WeightedRows(x, w);
    WeightedRowsSpan(x, w);
    SumOfSort(o, Weight);
    if NonNegWeights(o) {
      SortKeepsNonNegWeights(o);
      PercentGridIsScaledDistribution(s);
      InterpClamps(p as real, PercentGrid(s), Values(s));
    }
    if PositiveWeights(o) {
      SortKeepsPositiveWeights(o);
      SortKeepsNonNegWeights(o);
      PercentGridIsScaledDistribution(s);
      PercentGridStartsAboveZero(s);
      InterpClamps(p as real, PercentGrid(s), Values(s));
    }
  }

  /* ---------------- np.percentile (linear method) ---------------- */

  /** n unit weights. */
  function Ones(n: nat): (w: seq<real>)
    ensures |w| == n && forall i :: 0 <= i < n ==> w[i] == 1.0
  {
    seq(n, _ => 1.0)
  }

  /** The data in ascending order. */
  function SortedValues(x: seq<real>): (v: seq<real>)
    ensures |v| == |x|
  {
    Values(SortObs(Zip(x, Ones(|x|))))
  }

  lemma {:induction false} SortedValuesSpan(x: seq<real>)
    requires |x| > 0
    ensures NonDecreasing(SortedValues(x))
    ensures SortedValues(x)[0] == MinOf(x) && SortedValues(x)[|x| - 1] == MaxOf(x)
  {
    var o := Zip(x, Ones(|x|));
    SortedValuesAscend(o);
    SortedEnds(o);
    ZipValues(x, Ones(|x|));
  }

  /** Linear interpolation between the order statistics at a fractional rank g. */
  function RankValue(v: seq<real>, g: real): real
    requires |v| > 0 && 0.0 <= g <= (|v| - 1) as real
  {
    var j := g.Floor;
    if j + 1 < |v| then v[j] + (v[j + 1] - v[j]) * (g - j as real) else v[j]
  }

  /** The fractional rank p / 100 * (n - 1) of percent p. */
  function Rank(p: int, n: nat): (g: real)
    requires 0 <= p <= 100 && n > 0
    ensures 0.0 <= g <= (n - 1) as real
  {
    var d, t := (n - 1) as real, p as real / 100.0;
    MulMono(d, 0.0, t);
    MulMono(d, t, 1.0);
    assert d * 0.0 == 0.0 && d * 1.0 == d;
    d * t
  }

  lemma {:induction false} RankMonotone(p: int, q: int, n: nat)
    requires 0 <= p <= q <= 100 && n > 0
    ensures Rank(p, n) <= Rank(q, n)
  {
    var a, b := p as real / 100.0, q as real / 100.0;
    assert a <= b;
    MulMono((n - 1) as real, a, b);
  }

  /** np.percentile(data, p): p must lie in [0, 100] and the data must not be empty. */
  function NumpyPercentile(x: seq<real>, p: int): (r: Result<real>)
    ensures r.Err? <==> p < 0 || p > 100 || |x| == 0
  {
    if p < 0 || p > 100 then Err(PercentOutOfRange)
    else if |x| == 0 then Err(EmptyData)
    else Ok(RankValue(SortedValues(x), Rank(p, |x|)))
  }

  /** Between the order statistics around the rank. */
  lemma {:induction false} RankValueBetween(v: seq<real>, g: real)
    requires |v| > 0 && 0.0 <= g <= (|v| - 1) as real && NonDecreasing(v)
    ensures v[g.Floor] <= RankValue(v, g)
    ensures g.Floor + 1 < |v| ==> RankValue(v, g) <= v[g.Floor + 1]
  {
    var j := g.Floor;
    if j + 1 < |v| {
      var d, t := v[j + 1] - v[j], g - j as real;
      assert 0.0 <= t <= 1.0;
      MulMono(d, 0.0, t);
      MulMono(d, t, 1.0);
      assert d * 0.0 == 0.0 && d * 1.0 == d;
      assert RankValue(v, g) == v[j] + d * t;
    }
  }

  lemma {:induction false} RankValueMonotone(v: seq<real>, g: real, h: real)
    requires |v| > 0 && 0.0 <= g <= h <= (|v| - 1) as real && NonDecreasing(v)
    ensures RankValue(v, g) <= RankValue(v, h)
  {
    var i, j := g.Floor, h.Floor;
    RankValueBetween(v, g);
    RankValueBetween(v, h);
    if i == j {
      if i + 1 < |v| {
        var d := v[i + 1] - v[i];
        MulMono(d, g - i as real, h - i as real);
        assert RankValue(v, g) == v[i] + d * (g - i as real);
        assert RankValue(v, h) == v[i] + d * (h - i as real);
      }
    } else {
      assert v[i + 1] <= v[j];
    }
  }

  /** Every percentile lies between the minimum and the maximum of the data. */
  lemma {:induction false} NumpyPercentileWithin(x: seq<real>, p: int)
    requires NumpyPercentile(x, p).Ok?
    ensures MinOf(x) <= NumpyPercentile(x, p).value <= MaxOf(x)
  {
    var v, g := SortedValues(x), Rank(p, |x|);
    SortedValuesSpan(x);
    RankValueBetween(v, g);
    assert v[0] <= v[g.Floor];
    if g.Floor + 1 < |x| {
      assert v[g.Floor + 1] <= v[|x| - 1];
    }
  }

  /** Percentiles never decrease as the percent grows. */
  lemma {:induction false} NumpyPercentileMonotone(x: seq<real>, p: int, q: int)
    requires p <= q && NumpyPercentile(x, p).Ok? && NumpyPercentile(x, q).Ok?
    ensures NumpyPercentile(x, p).value <= NumpyPercentile(x, q).value
  {
    SortedValuesSpan(x);
    RankMonotone(p, q, |x|);
    RankValueMonotone(SortedValues(x), Rank(p, |x|), Rank(q, |x|));
  }

  /** The 0th percentile is the minimum and the 100th the maximum. */
  lemma {:induction false} NumpyPercentileEnds(x: seq<real>)
    requires |x| > 0
    ensures NumpyPercentile(x, 0) == Ok(MinOf(x))
    ensures NumpyPercentile(x, 100) == Ok(MaxOf(x))
  {
    var v := SortedValues(x);
    SortedValuesSpan(x);
    var lo, hi := Rank(0, |x|), Rank(100, |x|);
    assert lo == 0.0 && lo.Floor == 0;
    assert hi == (|x| - 1) as real && hi.Floor == |x| - 1;
    RankValueAtWholeRank(v, lo);
    RankValueAtWholeRank(v, hi);
  }

  /** At a whole rank the percentile is the order statistic itself. */
  lemma {:induction false} RankValueAtWholeRank(v: seq<real>, g: real)
    requires |v| > 0 && 0.0 <= g <= (|v| - 1) as real && g == g.Floor as real
    ensures RankValue(v, g) == v[g.Floor]
  {
    var j := g.Floor;
    if j + 1 < |v| {
      var d, t := v[j + 1] - v[j], g - j as real;
      assert t == 0.0;
      assert d * t == 0.0;
    }
  }

  /* ---------------- weighted_percentile and box_plotInput ---------------- */

  /** weighted_percentile(data, p, weights). */
  function Percentile(x: seq<real>, p: int, weights: Option<seq<real>>): Result<real>
  {
    match weights
    case None => NumpyPercentile(x, p)
    case Some(w) => WeightedPercentile(x, p, w)
  }

  /** Both rules return a value between the data minimum and maximum, and never
      decrease as the percent grows. */
  lemma {:induction false} PercentileOrdered(x: seq<real>, p: int, q: int, weights: Option<seq<real>>)
    requires p <= q && Percentile(x, p, weights).Ok? && Percentile(x, q, weights).Ok?
    ensures MinOf(x) <= Percentile(x, p, weights).value <= Percentile(x, q, weights).value <= MaxOf(x)
  {
    match weights
    case None =>
      NumpyPercentileWithin(x, p);
      NumpyPercentileWithin(x, q);
      NumpyPercentileMonotone(x, p, q);
    case Some(w) =>
      WeightedPercentileWithin(x, p, w);
      WeightedPercentileWithin(x, q, w);
      WeightedPercentileMonotone(x, p, q, w);
  }

  /** The box-plot input: the requested percentiles by percent, the
      interquartile range and the whiskers. */
  datatype BoxPlotInput = BoxPlotInput(percentiles: map<int, real>, iqr: real, mini: real, maxi: real)

  /** The percentile of each requested percent, in the order requested. */
  function Results(x: seq<real>, ps: seq<int>, weights: Option<seq<real>>): (rs: seq<Result<real>>)
    ensures |rs| == |ps|
    ensures forall i :: 0 <= i < |ps| ==> rs[i] == Percentile(x, ps[i], weights)
  {
    seq(|ps|, i requires 0 <= i < |ps| => Percentile(x, ps[i], weights))
  }

  /** The error of the first failing result, if any. */
  function FirstError(rs: seq<Result<real>>): (e: Option<Error>)
    ensures e.None? <==> forall i :: 0 <= i < |rs| ==> rs[i].Ok?
    ensures e.Some? ==> exists i :: 0 <= i < |rs| && rs[i] == Err(e.value)
  {
    if |rs| == 0 then None
    else if rs[0].Err? then Some(rs[0].error)
    else
      var e := FirstError(rs[1..]);
      assert forall i :: 1 <= i < |rs| ==> rs[i] == rs[1..][i - 1];
      e
  }

  /** The dictionary the loop fills: key ps[i] gets result i, a later equal key
      overwriting an earlier one. */
  function PercentileMap(ps: seq<int>, rs: seq<Result<real>>): (m: map<int, real>)
    requires |ps| == |rs| && forall i :: 0 <= i < |rs| ==> rs[i].Ok?
    ensures forall p :: p in m <==> p in ps
    ensures forall p :: p in m ==> exists i :: 0 <= i < |ps| && ps[i] == p && m[p] == rs[i].value
  {
    if |ps| == 0 then map[]
    else
      var n := |ps| - 1;
      var m := PercentileMap(ps[..n], rs[..n]);
      assert ps == ps[..n] + [ps[n]];
      m[ps[n] := rs[n].value]
  }

  /** The lower whisker p25 - 1.5 iqr, raised to 0 when negative. */
  function LowerWhisker(p25: real, iqr: real): real
  {
    if p25 - 1.5 * iqr < 0.0 then 0.0 else p25 - 1.5 * iqr
  }

  /** The dictionary built from the results: a failing percentile fails the
      call; then 'p75' is looked up before 'p25', so a missing 75 is reported
      first. */
  function Assemble(ps: seq<int>, rs: seq<Result<real>>): Result<BoxPlotInput>
    requires |ps| == |rs|
  {
    var e := FirstError(rs);
    if e.Some? then Err(e.value)
    else
      var m := PercentileMap(ps, rs);
      if 75 !in m then Err(MissingPercentile(75))
      else if 25 !in m then Err(MissingPercentile(25))
      else Ok(Box(m))
  }

  /** iqr = p75 - p25, mini = p25 - 1.5 iqr (0 when negative), maxi = p75 + 1.5 iqr. */
  function Box(m: map<int, real>): BoxPlotInput
    requires 25 in m && 75 in m
  {
    var iqr := m[75] - m[25];
    BoxPlotInput(m, iqr, LowerWhisker(m[25], iqr), m[75] + 1.5 * iqr)
  }

  /** box_plotInput(x, percents, weights). */
  function BoxPlotOf(x: seq<real>, percents: seq<int>, weights: Option<seq<real>>): Result<BoxPlotInput>
  {
    Assemble(percents, Results(x, percents, weights))
  }

  /** Every dictionary entry is the percentile of its key. */
  lemma {:induction false} BoxPlotEntries(x: seq<real>, percents: seq<int>, weights: Option<seq<real>>)
    requires BoxPlotOf(x, percents, weights).Ok?
    ensures forall p :: p in BoxPlotOf(x, percents, weights).value.percentiles <==> p in percents
    ensures forall p :: p in BoxPlotOf(x, percents, weights).value.percentiles ==>
      Percentile(x, p, weights) == Ok(BoxPlotOf(x, percents, weights).value.percentiles[p])
  {
    var rs := Results(x, percents, weights);
    var m := PercentileMap(percents, rs);
    assert BoxPlotOf(x, percents, weights).value.percentiles == m;
    forall p | p in m ensures Percentile(x, p, weights) == Ok(m[p]) {
      var i :| 0 <= i < |percents| && percents[i] == p && m[p] == rs[i].value;
    }
  }

  /** What box_plotInput promises: it succeeds exactly when every requested
      percentile can be computed and both quartiles were requested; otherwise it
      reports the first failing percentile's error, or the missing quartile. The
      interquartile range is never negative, the lower whisker never negative
      and never above a non-negative p25, and the upper whisker at least p75. */
  lemma {:induction false} BoxPlotWhiskers(x: seq<real>, percents: seq<int>, weights: Option<seq<real>>)
    ensures BoxPlotOf(x, percents, weights).Ok? <==>
      (forall i :: 0 <= i < |percents| ==> Percentile(x, percents[i], weights).Ok?) && 25 in percents && 75 in percents
    ensures BoxPlotOf(x, percents, weights).Err? ==>
      BoxPlotOf(x, percents, weights).error in {MissingPercentile(25), MissingPercentile(75)} ||
      exists i :: 0 <= i < |percents| && Percentile(x, percents[i], weights) == Err(BoxPlotOf(x, percents, weights).error)
    ensures var r := BoxPlotOf(x, percents, weights);
      r.Ok? ==>
        && 25 in r.value.percentiles && 75 in r.value.percentiles
        && r.value.iqr == r.value.percentiles[75] - r.value.percentiles[25]
        && r.value.iqr >= 0.0
        && r.value.mini >= 0.0
        && (r.value.percentiles[25] >= 0.0 ==> r.value.mini <= r.value.percentiles[25])
        && r.value.mini >= r.value.percentiles[25] - 1.5 * r.value.iqr
        && r.value.maxi == r.value.percentiles[75] + 1.5 * r.value.iqr
        && r.value.maxi >= r.value.percentiles[75]
  {
    var r := BoxPlotOf(x, percents, weights);
    var rs := Results(x, percents, weights);
    if r.Ok? {
      BoxPlotEntries(x, percents, weights);
      PercentileOrdered(x, 25, 75, weights);
    }
    if FirstError(rs).Some? {
      var i :| 0 <= i < |rs| && rs[i] == Err(FirstError(rs).value);
      assert Percentile(x, percents[i], weights) == Err(r.error);
    }
  }

  lemma {:induction false} FirstErrorStep(rs: seq<Result<real>>, i: nat)
    requires i < |rs|
    ensures rs[i].Err? ==> FirstError(rs[i..]) == Some(rs[i].error)
    ensures rs[i].Ok? ==> FirstError(rs[i..]) == FirstError(rs[i + 1..])
  {
    assert rs[i..][0] == rs[i];
    assert rs[i..][1..] == rs[i + 1..];
  }

  lemma {:induction false} PercentileMapStep(ps: seq<int>, rs: seq<Result<real>>, i: nat)
    requires |ps| == |rs| && i < |rs| && forall k :: 0 <= k <= i ==> rs[k].Ok?
    ensures PercentileMap(ps[..i + 1], rs[..i + 1]) == PercentileMap(ps[..i], rs[..i])[ps[i] := rs[i].value]
  {
    assert ps[..i + 1][..i] == ps[..i];
    assert rs[..i + 1][..i] == rs[..i];
  }

  /** The loop of box_plotInput: one dictionary entry per requested percent,
      stopping at the first percentile that fails. */
  method CollectPercentiles(x: seq<real>, percents: seq<int>, weights: Option<seq<real>>)
    returns (e: Option<Error>, m: map<int, real>)
    ensures e == FirstError(Results(x, percents, weights))
    ensures e.None? ==> m == PercentileMap(percents, Results(x, percents, weights))
  {
    ghost var rs := Results(x, percents, weights);
    m := map[];
    var i := 0;
    while i < |percents|
      invariant 0 <= i <= |percents|
      invariant forall k :: 0 <= k < i ==> rs[k].Ok?
      invariant FirstError(rs) == FirstError(rs[i..])
      invariant m == PercentileMap(percents[..i], rs[..i])
    {
      var v := Percentile(x, percents[i], weights);
      assert v == rs[i];
      FirstErrorStep(rs, i);
      if v.Err? {
        return Some(v.error), m;
      }
      PercentileMapStep(percents, rs, i);
      m := m[percents[i] := v.value];
      i := i + 1;
    }
    assert percents[..i] == percents && rs[..i] == rs;
    assert rs[i..] == [];
    e := None;
  }

  lemma {:induction false} AssembleFrom(ps: seq<int>, rs: seq<Result<real>>, e: Option<Error>, m: map<int, real>)
    requires |ps| == |rs| && e == FirstError(rs) && (e.None? ==> m == PercentileMap(ps, rs))
    ensures e.Some? ==> Assemble(ps, rs) == Err(e.value)
    ensures e.None? && 75 !in m ==> Assemble(ps, rs) == Err(MissingPercentile(75))
    ensures e.None? && 75 in m && 25 !in m ==> Assemble(ps, rs) == Err(MissingPercentile(25))
    ensures e.None? && 75 in m && 25 in m ==> Assemble(ps, rs) == Ok(Box(m))
  {
  }

  /** box_plotInput: the percentiles, then the quartile lookups ('p75' first),
      the interquartile range and the whiskers. */
  method BoxPlotInputOf(x: seq<real>, percents: seq<int>, weights: Option<seq<real>>) returns (r: Result<BoxPlotInput>)
    ensures r == BoxPlotOf(x, percents, weights)
  {
    var e, m := CollectPercentiles(x, percents, weights);
    AssembleFrom(percents, Results(x, percents, weights), e, m);
    if e.Some? {
      return Err(e.value);
    }
    if 75 !in m {
      return Err(MissingPercentile(75));
    }
    if 25 !in m {
      return Err(MissingPercentile(25));
    }
    var b := Whiskers(m);
    r := Ok(b);
  }

  /** The interquartile range and the whiskers, with the lower whisker reset to 0
      when it falls below 0. */
  method Whiskers(m: map<int, real>) returns (b: BoxPlotInput)
    requires 25 in m && 75 in m
    ensures b == Box(m)
  {
    var iqr := m[75] - m[25];
    var mini := m[25] - 1.5 * iqr;
    if mini < 0.0 {
      mini := 0.0;
    }
    b := BoxPlotInput(m, iqr, mini, m[75] + 1.5 * iqr);
  }
}
