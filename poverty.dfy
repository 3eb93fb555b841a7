/**
 * The poverty headcount: a 0/1 indicator of per-capita income below the
 * poverty line, its weighted average (the poverty rate), and the poor
 * population as that rate times the total weight.
 */
module Poverty {
  import opened Stats
  import opened Describe

  /** The poverty line of the notebook's Brazilian example, in reais per month. */
  const PovertyLine: real := 129.883

  /** The indicator column, carrying each row's weight: 1 below the line, 0 at or above it. */
  function Indicator(o: seq<Obs>, line: real): (p: seq<Obs>)
    ensures |p| == |o|
    ensures forall i :: 0 <= i < |o| ==> p[i] == Obs(if o[i].x < line then 1.0 else 0.0, o[i].w)
  {
    seq(|o|, i requires 0 <= i < |o| => Obs(if o[i].x < line then 1.0 else 0.0, o[i].w))
  }

  /** The population below the line: the total weight of the rows under it. */
  function WeightBelow(o: seq<Obs>, line: real): real
    decreases |o|
  {
    if |o| == 0 then 0.0
    else WeightBelow(o[..|o| - 1], line) + (if o[|o| - 1].x < line then o[|o| - 1].w else 0.0)
  }

  /** The indicator keeps the weights, and its weighted sum is the population below the line. */
  lemma {:induction false} IndicatorSums(o: seq<Obs>, line: real)
    ensures SumOf(Indicator(o, line), Weight) == SumOf(o, Weight)
    ensures SumOf(Indicator(o, line), Income) == WeightBelow(o, line)
    decreases |o|
  {
    if |o| > 0 {
      var n := |o| - 1;
      assert Indicator(o, line)[..n] == Indicator(o[..n], line);
      IndicatorSums(o[..n], line);
    }
  }

  /** np.average(pobreza, weights=pondera), which fails when the weights sum to zero. */
  function PovertyRate(o: seq<Obs>, line: real): (r: Result<real>)
    ensures r.Err? <==> SumOf(o, Weight) == 0.0
  {
    if SumOf(o, Weight) == 0.0 then Err(ZeroWeightSum)
    else
      IndicatorSums(o, line);
      Ok(WeightedMean(Indicator(o, line)))
  }

  /** pop_pob: the rate times the total population. */
  function PoorPopulation(rate: real, pop: real): real
  {
    rate * pop
  }

  /** The rate times the population is the weight below the line, so pop_pob
      counts the poor; with non-negative weights the rate is a proportion. */
  lemma {:induction false} PovertyRateMeaning(o: seq<Obs>, line: real)
    requires PovertyRate(o, line).Ok?
    ensures PoorPopulation(PovertyRate(o, line).value, SumOf(o, Weight)) == WeightBelow(o, line)
    ensures NonNegWeights(o) ==> 0.0 <= PovertyRate(o, line).value <= 1.0
  {
    var p := Indicator(o, line);
    IndicatorSums(o, line);
    QuotientTimes(SumOf(p, Income), SumOf(p, Weight), WeightedMean(p));
    if NonNegWeights(o) {
      MeanBounds(p, 0.0, 1.0);
    }
  }

  /** With non-negative weights, no row below the line gives a rate of 0 and
      every row below it a rate of 1. */
  lemma {:induction false} PovertyRateExtremes(o: seq<Obs>, line: real)
    requires PovertyRate(o, line).Ok?
    ensures (forall i :: 0 <= i < |o| ==> o[i].x >= line) ==> PovertyRate(o, line).value == 0.0
    ensures (forall i :: 0 <= i < |o| ==> o[i].x < line) ==> PovertyRate(o, line).value == 1.0
  {
    var p := Indicator(o, line);
    IndicatorSums(o, line);
    if forall i :: 0 <= i < |o| ==> o[i].x >= line {
      WeightBelowNone(o, line);
    }
    if forall i :: 0 <= i < |o| ==> o[i].x < line {
      WeightBelowAll(o, line);
      SelfRatio(SumOf(p, Income), SumOf(p, Weight));
    }
  }

  lemma {:induction false} WeightBelowNone(o: seq<Obs>, line: real)
    requires forall i :: 0 <= i < |o| ==> o[i].x >= line
    ensures WeightBelow(o, line) == 0.0
    decreases |o|
  {
    if |o| > 0 {
      WeightBelowNone(o[..|o| - 1], line);
    }
  }

  lemma {:induction false} WeightBelowAll(o: seq<Obs>, line: real)
    requires forall i :: 0 <= i < |o| ==> o[i].x < line
    ensures WeightBelow(o, line) == SumOf(o, Weight)
    decreases |o|
  {
    if |o| > 0 {
      WeightBelowAll(o[..|o| - 1], line);
    }
  }

  lemma {:induction false} WeightBelowMonotone(o: seq<Obs>, line: real, line2: real)
    requires NonNegWeights(o) && line <= line2
    ensures WeightBelow(o, line) <= WeightBelow(o, line2)
    decreases |o|
  {
    if |o| > 0 {
      WeightBelowMonotone(o[..|o| - 1], line, line2);
    }
  }

  /** With non-negative weights a higher line never gives a lower rate. */
  lemma {:induction false} PovertyRateMonotone(o: seq<Obs>, line: real, line2: real)
    requires NonNegWeights(o) && line <= line2 && PovertyRate(o, line).Ok?
    ensures PovertyRate(o, line).value <= PovertyRate(o, line2).value
  {
    IndicatorSums(o, line);
    IndicatorSums(o, line2);
    WeightBelowMonotone(o, line, line2);
    SumOfNonNeg(o, Weight);
    DivMono(WeightBelow(o, line), WeightBelow(o, line2), SumOf(o, Weight));
  }
}
