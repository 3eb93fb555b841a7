/**
 * `descriptive_stats`: a weighted version of pandas' `describe()`. It returns
 * the row count, the weighted count, the weighted mean, the population
 * variance, the minimum and maximum, the three weighted quartiles and the
 * coefficient of variation. The quartiles use the midpoint-of-step rule
 * F_i = (cumsum(w)_i - w_i / 2) / sum(w) followed by linear interpolation
 * (np.interp). The standard deviation and the coefficient of variation need a
 * square root, so the summary carries the variance and cv squared instead.
 */
module Describe {
  import opened Stats
  import opened Sorting

  /** Rows built from a value column and a weight column of the same length. */
  function Zip(x: seq<real>, w: seq<real>): (o: seq<Obs>)
    requires |x| == |w|
    ensures |o| == |x|
    ensures forall i :: 0 <= i < |x| ==> o[i] == Obs(x[i], w[i])
  {
    seq(|x|, i requires 0 <= i < |x| => Obs(x[i], w[i]))
  }

  /** np.average(x, weights=w). */
  function WeightedMean(o: seq<Obs>): (m: real)
    requires SumOf(o, Weight) != 0.0
    ensures m * SumOf(o, Weight) == SumOf(o, Income)
  {
    SumOf(o, Income) / SumOf(o, Weight)
  }

  /** Weighted sum of squared deviations from m. */
  function SquaredDeviation(o: seq<Obs>, m: real): real
    decreases |o|
  {
    if |o| == 0 then 0.0
    else
      var d := o[|o| - 1];
      SquaredDeviation(o[..|o| - 1], m) + d.w * (d.x - m) * (d.x - m)
  }

  lemma {:induction false} SquaredDeviationNonNeg(o: seq<Obs>, m: real)
    requires NonNegWeights(o)
    ensures SquaredDeviation(o, m) >= 0.0
    decreases |o|
  {
    if |o| > 0 {
      var d := o[|o| - 1];
      SquaredDeviationNonNeg(o[..|o| - 1], m);
      assert (d.x - m) * (d.x - m) >= 0.0;
      assert d.w * ((d.x - m) * (d.x - m)) >= 0.0;
    }
  }

  /** np.average((x - mean)**2, weights=w): the population variance. */
  function WeightedVariance(o: seq<Obs>): (v: real)
    requires SumOf(o, Weight) != 0.0
    ensures v * SumOf(o, Weight) == SquaredDeviation(o, WeightedMean(o))
  {
    SquaredDeviation(o, WeightedMean(o)) / SumOf(o, Weight)
  }

  /** The weighted mean is the ratio of total income to total weight, and lies
      within the range of the values when weights are non-negative. */
  lemma {:induction false} MeanBounds(o: seq<Obs>, lo: real, hi: real)
    requires NonNegWeights(o) && SumOf(o, Weight) != 0.0
    requires forall i :: 0 <= i < |o| ==> lo <= o[i].x <= hi
    ensures WeightedMean(o) * SumOf(o, Weight) == SumOf(o, Income)
    ensures lo <= WeightedMean(o) <= hi
  {
    SumOfNonNeg(o, Weight);
    IncomeBounds(o, lo, hi);
    DivBetween(SumOf(o, Income), SumOf(o, Weight), lo, hi);
  }

  /** With non-negative weights the variance is never negative. */
  lemma {:induction false} VarianceNonNeg(o: seq<Obs>)
    requires NonNegWeights(o) && SumOf(o, Weight) != 0.0
    ensures WeightedVariance(o) >= 0.0
  {
    SquaredDeviationNonNeg(o, WeightedMean(o));
    SumOfNonNeg(o, Weight);
  }

  /** Unit weights: the weighted sums are the plain count and sum. */
  lemma {:induction false} UnitWeightSums(o: seq<Obs>)
    requires forall i :: 0 <= i < |o| ==> o[i].w == 1.0
    ensures SumOf(o, Weight) == |o| as real
    ensures SumOf(o, Income) == SumOf(o, Value)
    decreases |o|
  {
    if |o| > 0 {
      UnitWeightSums(o[..|o| - 1]);
    }
  }

  /** With every weight equal to one the weighted mean is the plain mean,
      which is what pandas' unweighted describe() reports. */
  lemma {:induction false} UnitWeightsMean(o: seq<Obs>)
    requires |o| > 0
    requires forall i :: 0 <= i < |o| ==> o[i].w == 1.0
    ensures SumOf(o, Weight) != 0.0
    ensures WeightedMean(o) == SumOf(o, Value) / |o| as real
  {
    UnitWeightSums(o);
  }

  /** cv squared: (sd / mean)^2 = variance / mean^2. The source divides without
      a guard, so the caller must exclude a zero mean. */
  function CvSquared(variance: real, mean: real): (c: real)
    requires mean != 0.0
    ensures c * (mean * mean) == variance
  {
    variance / (mean * mean)
  }

  /* ---------------- np.interp ---------------- */

  /** Index of the last sample point not above p, or -1 when every point is above p. */
  function LastAtMost(xp: seq<real>, p: real): (j: int)
    ensures -1 <= j < |xp|
    ensures j >= 0 ==> xp[j] <= p
    ensures forall k :: j < k < |xp| ==> xp[k] > p
    decreases |xp|
  {
    if |xp| == 0 then -1
    else if xp[|xp| - 1] <= p then |xp| - 1
    else LastAtMost(xp[..|xp| - 1], p)
  }

  /** np.interp(p, xp, fp): piecewise-linear interpolation through the points
      (xp[i], fp[i]), constant fp[0] to the left and fp[last] to the right. */
  function Interp(p: real, xp: seq<real>, fp: seq<real>): real
    requires |xp| == |fp| > 0
  {
    var j := LastAtMost(xp, p);
    if j < 0 then fp[0]
    else if j == |xp| - 1 || xp[j] == p then fp[j]
    else Lerp(xp[j], xp[j + 1], fp[j], fp[j + 1], p)
  }

  /** The line through (lo, a) and (hi, b), evaluated at p. */
  function Lerp(lo: real, hi: real, a: real, b: real, p: real): real
    requires lo < hi
  {
    (b - a) / (hi - lo) * (p - lo) + a
  }

  /** A point strictly inside a segment interpolates between its end values. */
  lemma {:induction false} SegmentBounds(a: real, b: real, lo: real, hi: real, p: real)
    requires lo <= p < hi && a <= b
    ensures a <= Lerp(lo, hi, a, b, p) <= b
  {
    var slope := (b - a) / (hi - lo);
    DivMono(0.0, b - a, hi - lo);
    assert Lerp(lo, hi, a, b, p) == slope * (p - lo) + a;
    MulMono(slope, 0.0, p - lo);
    MulMono(slope, p - lo, hi - lo);
    assert slope * (hi - lo) == b - a;
  }

  /** Within one segment, interpolation is monotone. */
  lemma {:induction false} SegmentMonotone(a: real, b: real, lo: real, hi: real, p: real, q: real)
    requires lo <= p <= q < hi && a <= b
    ensures Lerp(lo, hi, a, b, p) <= Lerp(lo, hi, a, b, q)
  {
    var slope := (b - a) / (hi - lo);
    DivMono(0.0, b - a, hi - lo);
    MulMono(slope, p - lo, q - lo);
  }

  /** With sorted fp, interpolation never leaves [fp[0], fp[last]], whatever xp is. */
  lemma {:induction false} InterpWithin(p: real, xp: seq<real>, fp: seq<real>)
    requires |xp| == |fp| > 0 && NonDecreasing(fp)
    ensures fp[0] <= Interp(p, xp, fp) <= fp[|fp| - 1]
  {
    var j := LastAtMost(xp, p);
    if j >= 0 && j < |xp| - 1 && xp[j] != p {
      SegmentBounds(fp[j], fp[j + 1], xp[j], xp[j + 1], p);
    }
  }

  lemma {:induction false} LastAtMostMonotone(xp: seq<real>, p: real, q: real)
    requires p <= q
    ensures LastAtMost(xp, p) <= LastAtMost(xp, q)
  {
  }

  /** The interpolated value at p is at most the value at the next grid point. */
  lemma {:induction false} InterpBelowNext(p: real, xp: seq<real>, fp: seq<real>)
    requires |xp| == |fp| > 0 && NonDecreasing(fp)
    requires 0 <= LastAtMost(xp, p) < |xp| - 1
    ensures Interp(p, xp, fp) <= fp[LastAtMost(xp, p) + 1]
  {
    var i := LastAtMost(xp, p);
    if xp[i] != p {
      SegmentBounds(fp[i], fp[i + 1], xp[i], xp[i + 1], p);
    }
  }

  /** The interpolated value at q is at least the value at its grid point. */
  lemma {:induction false} InterpAboveGrid(q: real, xp: seq<real>, fp: seq<real>)
    requires |xp| == |fp| > 0 && NonDecreasing(fp)
    requires 0 <= LastAtMost(xp, q)
    ensures fp[LastAtMost(xp, q)] <= Interp(q, xp, fp)
  {
    var j := LastAtMost(xp, q);
    if j < |xp| - 1 && xp[j] != q {
      SegmentBounds(fp[j], fp[j + 1], xp[j], xp[j + 1], q);
    }
  }

  /** Two points after the same grid point: interpolation is monotone. */
  lemma {:induction false} InterpSameSegment(p: real, q: real, xp: seq<real>, fp: seq<real>)
    requires |xp| == |fp| > 0 && NonDecreasing(fp) && p <= q
    requires 0 <= LastAtMost(xp, p) == LastAtMost(xp, q)
    ensures Interp(p, xp, fp) <= Interp(q, xp, fp)
  {
    var i := LastAtMost(xp, p);
    if i < |xp| - 1 && xp[i] != p {
      assert xp[i] != q;
      SegmentMonotone(fp[i], fp[i + 1], xp[i], xp[i + 1], p, q);
    } else {
      InterpAboveGrid(q, xp, fp);
    }
  }

  /** With sorted fp, interpolation is monotone in p, whatever xp is. */
  lemma {:induction false} InterpMonotone(p: real, q: real, xp: seq<real>, fp: seq<real>)
    requires |xp| == |fp| > 0 && NonDecreasing(fp) && p <= q
    ensures Interp(p, xp, fp) <= Interp(q, xp, fp)
  {
    var i, j := LastAtMost(xp, p), LastAtMost(xp, q);
    LastAtMostMonotone(xp, p, q);
    if i < 0 {
      InterpWithin(q, xp, fp);
    } else if i < j {
      InterpBelowNext(p, xp, fp);
      InterpAboveGrid(q, xp, fp);
      assert fp[i + 1] <= fp[j];
    } else {
      InterpSameSegment(p, q, xp, fp);
    }
  }

  /** On a strictly increasing grid, interpolating at a grid point returns its value. */
  lemma {:induction false} InterpAtGridPoint(xp: seq<real>, fp: seq<real>, k: nat)
    requires |xp| == |fp| && k < |xp| && StrictlyIncreasing(xp)
    ensures Interp(xp[k], xp, fp) == fp[k]
  {
    var j := LastAtMost(xp, xp[k]);
    assert j >= k;
  }

  /** Right of the last grid point the value is fp[last]; left of the first
      point of a sorted grid it is fp[0]. */
  lemma {:induction false} InterpClamps(p: real, xp: seq<real>, fp: seq<real>)
    requires |xp| == |fp| > 0
    ensures p >= xp[|xp| - 1] ==> Interp(p, xp, fp) == fp[|fp| - 1]
    ensures NonDecreasing(xp) && p < xp[0] ==> Interp(p, xp, fp) == fp[0]
  {
  }

  /* ---------------- midpoint quartiles ---------------- */

  /** (cumsum(w) - 0.5 * w) / sum(w) over the sorted rows. */
  function MidpointFractions(o: seq<Obs>): (f: seq<real>)
    requires SumOf(o, Weight) != 0.0
    ensures |f| == |o|
  {
    seq(|o|, i requires 0 <= i < |o| => Midpoint(o, i) / SumOf(o, Weight))
  }

  /** The weight accumulated up to the middle of row i. */
  function Midpoint(o: seq<Obs>, i: nat): real
    requires i < |o|
  {
    SumOf(o[..i + 1], Weight) - 0.5 * o[i].w
  }

  /** Later rows have later midpoints: strictly with positive weights, weakly with
      non-negative ones. */
  lemma {:induction false} MidpointOrder(o: seq<Obs>, i: nat, j: nat)
    requires NonNegWeights(o) && i < j < |o|
    ensures Midpoint(o, i) <= Midpoint(o, j)
    ensures o[i].w > 0.0 || o[j].w > 0.0 ==> Midpoint(o, i) < Midpoint(o, j)
  {
    SumOfPrefixStep(o, i, Weight);
    SumOfPrefixStep(o, j, Weight);
    SumOfPrefixMono(o, i + 1, j, Weight);
  }

  /** Positive weights make the midpoint fractions strictly increasing. */
  lemma {:induction false} MidpointsStrictlyIncreasing(o: seq<Obs>)
    requires PositiveWeights(o) && SumOf(o, Weight) != 0.0
    ensures StrictlyIncreasing(MidpointFractions(o))
  {
    var f := MidpointFractions(o);
    SumOfNonNeg(o, Weight);
    forall i, j | 0 <= i < j < |o| ensures f[i] < f[j] {
      MidpointOrder(o, i, j);
      DivStrict(Midpoint(o, i), Midpoint(o, j), SumOf(o, Weight));
    }
  }

  /** Non-negative weights make the midpoint fractions non-decreasing. */
  lemma {:induction false} MidpointsNonDecreasing(o: seq<Obs>)
    requires NonNegWeights(o) && SumOf(o, Weight) != 0.0
    ensures NonDecreasing(MidpointFractions(o))
  {
    var f := MidpointFractions(o);
    SumOfNonNeg(o, Weight);
    forall i, j | 0 <= i <= j < |o| ensures f[i] <= f[j] {
      if i < j {
        MidpointOrder(o, i, j);
        DivMono(Midpoint(o, i), Midpoint(o, j), SumOf(o, Weight));
      }
    }
  }

  /** The midpoint of row i's step lies between 0 and the total weight. */
  lemma {:induction false} MidpointBounds(o: seq<Obs>, i: nat)
    requires NonNegWeights(o) && i < |o|
    ensures 0.0 <= Midpoint(o, i) <= SumOf(o, Weight)
  {
    SumOfPrefixStep(o, i, Weight);
    PrefixWithinTotal(o, i, Weight);
    PrefixWithinTotal(o, i + 1, Weight);
  }

  /** Non-negative weights keep every midpoint fraction inside [0, 1]. */
  lemma {:induction false} MidpointsInUnit(o: seq<Obs>, i: nat)
    requires NonNegWeights(o) && SumOf(o, Weight) != 0.0 && i < |o|
    ensures 0.0 <= MidpointFractions(o)[i] <= 1.0
  {
    MidpointBounds(o, i);
    ShareInUnit(Midpoint(o, i), SumOf(o, Weight));
  }

  /** Unit weights put the i-th midpoint at (i + 1/2) / n. */
  lemma {:induction false} MidpointsOfUnitWeights(o: seq<Obs>, i: nat)
    requires |o| > 0 && i < |o|
    requires forall k :: 0 <= k < |o| ==> o[k].w == 1.0
    ensures SumOf(o, Weight) != 0.0
    ensures MidpointFractions(o)[i] == (i as real + 0.5) / |o| as real
  {
    UnitWeightSums(o);
    UnitWeightSums(o[..i + 1]);
    assert Midpoint(o, i) == i as real + 0.5;
  }

  /** The weighted quantile of descriptive_stats at fraction p (0.25, 0.5, 0.75). */
  function MidpointQuantile(sorted: seq<Obs>, p: real): real
    requires |sorted| > 0 && SumOf(sorted, Weight) != 0.0
  {
    Interp(p, MidpointFractions(sorted), Values(sorted))
  }

  /** Smallest of a non-empty column (`x.min()`). */
  function MinOf(v: seq<real>): (m: real)
    requires |v| > 0
    ensures m in v
    ensures forall i :: 0 <= i < |v| ==> m <= v[i]
  {
    if |v| == 1 then v[0]
    else
      var m := MinOf(v[1..]);
      assert forall i :: 1 <= i < |v| ==> v[i] == v[1..][i - 1];
      if v[0] <= m then v[0] else m
  }

  /** Largest of a non-empty column (`x.max()`). */
  function MaxOf(v: seq<real>): (m: real)
    requires |v| > 0
    ensures m in v
    ensures forall i :: 0 <= i < |v| ==> v[i] <= m
  {
    if |v| == 1 then v[0]
    else
      var m := MaxOf(v[1..]);
      assert forall i :: 1 <= i < |v| ==> v[i] == v[1..][i - 1];
      if v[0] >= m then v[0] else m
  }

  /** Every row of a sorted permutation is one of the original rows, and back. */
  lemma {:induction false} SortedRowsCorrespond(o: seq<Obs>, i: nat)
    requires i < |o|
    ensures exists k :: 0 <= k < |o| && SortObs(o)[k] == o[i]
    ensures exists k :: 0 <= k < |o| && o[k] == SortObs(o)[i]
  {
    var s := SortObs(o);
    assert o[i] in multiset(s);
    assert s[i] in multiset(o);
  }

  /** The values of a sorted permutation are in ascending order. */
  lemma {:induction false} SortedValuesAscend(o: seq<Obs>)
    ensures NonDecreasing(Values(SortObs(o)))
  {
    var s := SortObs(o);
    forall i, j | 0 <= i <= j < |s| ensures Values(s)[i] <= Values(s)[j] {
      if i < j {
        assert Le(s[i], s[j]);
      }
    }
  }

  /** A sorted permutation of the rows starts at the minimum and ends at the maximum value. */
  lemma {:induction false} SortedEnds(o: seq<Obs>)
    requires |o| > 0
    ensures Values(SortObs(o))[0] == MinOf(Values(o))
    ensures Values(SortObs(o))[|o| - 1] == MaxOf(Values(o))
  {
    var s := SortObs(o);
    var v := Values(o);
    var lo, hi := MinOf(v), MaxOf(v);
    SortedValuesAscend(o);
    var a :| 0 <= a < |v| && v[a] == lo;
    var b :| 0 <= b < |v| && v[b] == hi;
    SortedRowsCorrespond(o, a);
    SortedRowsCorrespond(o, b);
    SortedRowsCorrespond(o, 0);
    SortedRowsCorrespond(o, |o| - 1);
    var ia :| 0 <= ia < |s| && s[ia] == o[a];
    var ib :| 0 <= ib < |s| && s[ib] == o[b];
    var i0 :| 0 <= i0 < |o| && o[i0] == s[0];
    var i1 :| 0 <= i1 < |o| && o[i1] == s[|s| - 1];
    assert Values(s)[0] <= Values(s)[ia];
    assert Values(s)[ib] <= Values(s)[|s| - 1];
    assert v[i0] >= lo && v[i1] <= hi;
  }

  datatype Summary = Summary(
    count: nat,               // number of rows
    countW: real,             // sum of the weights
    mean: real,
    variance: real,           // the source reports its square root
    min: real,
    q25: real,
    q50: real,
    q75: real,
    max: real,
    cvSquared: Option<real>)  // None where the source divides by a zero mean

  /** The predicate characterising a correct summary of the rows o. */
  predicate SummaryOf(s: Summary, x: seq<real>, o: seq<Obs>)
    requires |x| == |o| > 0
  {
    && s.count == |o|
    && s.countW == SumOf(o, Weight)
    && s.countW != 0.0 && s.mean == SumOf(o, Income) / s.countW
    && s.variance == SquaredDeviation(o, s.mean) / s.countW
    && s.min == MinOf(x) && s.max == MaxOf(x)
    && s.min <= s.q25 <= s.q50 <= s.q75 <= s.max
    && (SumOfSort(o, Weight);
        var sorted := SortObs(o);
        && s.q25 == MidpointQuantile(sorted, 0.25)
        && s.q50 == MidpointQuantile(sorted, 0.5)
        && s.q75 == MidpointQuantile(sorted, 0.75))
    && (s.cvSquared.Some? <==> s.mean != 0.0)
    && (s.cvSquared.Some? ==> s.cvSquared.value == CvSquared(s.variance, s.mean))
  }

  /** The three quartiles by the midpoint rule lie in order between the
      smallest and the largest value. */
  lemma {:induction false} QuartilesOrdered(o: seq<Obs>)
    requires |o| > 0 && SumOf(o, Weight) != 0.0
    ensures SumOf(SortObs(o), Weight) != 0.0
    ensures var s := SortObs(o);
      MinOf(Values(o)) <= MidpointQuantile(s, 0.25) <= MidpointQuantile(s, 0.5)
      <= MidpointQuantile(s, 0.75) <= MaxOf(Values(o))
  {
    var s := SortObs(o);
    SumOfSort(o, Weight);
    SortedEnds(o);
    SortedValuesAscend(o);
    var xp, fp := MidpointFractions(s), Values(s);
    InterpMonotone(0.25, 0.5, xp, fp);
    InterpMonotone(0.5, 0.75, xp, fp);
    InterpWithin(0.25, xp, fp);
    InterpWithin(0.75, xp, fp);
  }

  /** The summary of non-empty rows with a non-zero weight total. */
  function Summarize(x: seq<real>, o: seq<Obs>): Summary
    requires |x| == |o| > 0 && SumOf(o, Weight) != 0.0
  {
    var mean := WeightedMean(o);
    var variance := WeightedVariance(o);
    var sorted := SortObs(o);
    SumOfSort(o, Weight);
    Summary(|o|, SumOf(o, Weight), mean, variance, MinOf(x),
      MidpointQuantile(sorted, 0.25), MidpointQuantile(sorted, 0.5), MidpointQuantile(sorted, 0.75),
      MaxOf(x), if mean != 0.0 then Some(CvSquared(variance, mean)) else None)
  }

  lemma {:induction false} SummarizeCorrect(x: seq<real>, w: seq<real>)
    requires |x| == |w| > 0 && SumOf(Zip(x, w), Weight) != 0.0
    ensures SummaryOf(Summarize(x, Zip(x, w)), x, Zip(x, w))
    ensures NonNegWeights(Zip(x, w)) ==>
      var s := Summarize(x, Zip(x, w));
      s.min <= s.mean <= s.max && s.variance >= 0.0
  {
    var o := Zip(x, w);
    var W := SumOf(o, Weight);
    assert Values(o) == x;
    QuartilesOrdered(o);
    var s := Summarize(x, o);
    if NonNegWeights(o) {
      MeanBounds(o, MinOf(x), MaxOf(x));
      VarianceNonNeg(o);
    }
  }

  /** descriptive_stats(x, ponderador). */
  function DescriptiveStats(x: Option<seq<real>>, w: Option<seq<real>>): (r: Result<Summary>)
    ensures x.None? ==> r == Err(MissingValues)
    ensures x.Some? && w.None? ==> r == Err(MissingWeights)
    ensures x.Some? && w.Some? && |x.value| != |w.value| ==> r == Err(ShapeMismatch)
    ensures x.Some? && w.Some? && |x.value| == |w.value| ==>
      (r == Err(ZeroWeightSum) <==> SumOf(Zip(x.value, w.value), Weight) == 0.0)
    ensures r.Ok? ==> x.Some? && w.Some? && |x.value| == |w.value| > 0
    ensures r.Ok? ==> SummaryOf(r.value, x.value, Zip(x.value, w.value))
    ensures r.Ok? && NonNegWeights(Zip(x.value, w.value)) ==>
      r.value.min <= r.value.mean <= r.value.max && r.value.variance >= 0.0
  {
    if x.None? then Err(MissingValues)
    else if w.None? then Err(MissingWeights)
    else if |x.value| != |w.value| then Err(ShapeMismatch)
    else
      var o := Zip(x.value, w.value);
      if SumOf(o, Weight) == 0.0 then Err(ZeroWeightSum)
      else
        SummarizeCorrect(x.value, w.value);
        Ok(Summarize(x.value, o))
  }
}
