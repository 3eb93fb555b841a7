/**
 * Cumulative-share curves over survey rows: the distribution function
 * (cumulative population share over rows sorted by value), the Lorenz curve
 * (population share against income share), the per-region versions used for
 * the Pareto diagram, the regional Lorenz curves and the generalized Lorenz
 * curve. The regional curves are built as in the notebook: a group-wise
 * cumulative sum, then one pass per region that divides the region's rows by
 * the region's largest cumulative value.
 */
module Curves {
  import opened Stats
  import opened Sorting

  /* ---------------- whole-sample cumulative shares ---------------- */

  /** cumsum(f) / sum(f) over the rows in their order. */
  function CumShareOf(o: seq<Obs>, f: Obs -> real): (s: seq<real>)
    requires SumOf(o, f) != 0.0
    ensures |s| == |o|
  {
    seq(|o|, i requires 0 <= i < |o| => SumOf(o[..i + 1], f) / SumOf(o, f))
  }

  /** Entry i of the cumulative share is the prefix total over the total. */
  lemma {:induction false} CumShareAt(o: seq<Obs>, f: Obs -> real, i: nat)
    requires SumOf(o, f) != 0.0 && i < |o|
    ensures CumShareOf(o, f)[i] == SumOf(o[..i + 1], f) / SumOf(o, f)
  {
    var total, upto := SumOf(o, f), SumOf(o[..i + 1], f);
    assert CumShareOf(o, f)[i] == upto / total;
  }

  predicate NonNegTerms(o: seq<Obs>, f: Obs -> real) { forall i :: 0 <= i < |o| ==> f(o[i]) >= 0.0 }

  /** The last cumulative share is exactly 1. */
  lemma {:induction false} CumShareEndsAtOne(o: seq<Obs>, f: Obs -> real)
    requires SumOf(o, f) != 0.0 && |o| > 0
    ensures CumShareOf(o, f)[|o| - 1] == 1.0
  {
    CumShareAt(o, f, |o| - 1);
    assert o[..|o|] == o;
    SelfRatio(SumOf(o, f), SumOf(o, f));
  }

  /** With non-negative terms, cumulative shares of later rows are at least those of
      earlier rows. */
  lemma {:induction false} CumShareOrder(o: seq<Obs>, f: Obs -> real, i: nat, j: nat)
    requires SumOf(o, f) != 0.0 && NonNegTerms(o, f) && i <= j < |o|
    ensures CumShareOf(o, f)[i] <= CumShareOf(o, f)[j]
  {
    CumShareAt(o, f, i);
    CumShareAt(o, f, j);
    SumOfNonNeg(o, f);
    SumOfPrefixMono(o, i + 1, j + 1, f);
    DivMono(SumOf(o[..i + 1], f), SumOf(o[..j + 1], f), SumOf(o, f));
  }

  /** With non-negative terms every cumulative share lies in [0, 1]. */
  lemma {:induction false} CumShareInUnit(o: seq<Obs>, f: Obs -> real, i: nat)
    requires SumOf(o, f) != 0.0 && NonNegTerms(o, f) && i < |o|
    ensures 0.0 <= CumShareOf(o, f)[i] <= 1.0
  {
    CumShareAt(o, f, i);
    SumOfNonNeg(o, f);
    PrefixWithinTotal(o, i + 1, f);
    ShareInUnit(SumOf(o[..i + 1], f), SumOf(o, f));
  }

  /** With non-negative terms the cumulative shares never decrease and stay in [0, 1]. */
  lemma {:induction false} CumShareIsDistribution(o: seq<Obs>, f: Obs -> real)
    requires SumOf(o, f) != 0.0 && NonNegTerms(o, f)
    ensures NonDecreasing(CumShareOf(o, f))
    ensures forall i :: 0 <= i < |o| ==> 0.0 <= CumShareOf(o, f)[i] <= 1.0
  {
    forall i, j | 0 <= i <= j < |o| ensures CumShareOf(o, f)[i] <= CumShareOf(o, f)[j] {
      CumShareOrder(o, f, i, j);
    }
    forall i | 0 <= i < |o| ensures 0.0 <= CumShareOf(o, f)[i] <= 1.0 {
      CumShareInUnit(o, f, i);
    }
  }

  /** The distribution function: the population share of each row once the
      rows are sorted by value. */
  function Shrpop(data: seq<Obs>): (s: seq<real>)
    requires SumOf(data, Weight) != 0.0
    ensures |s| == |data|
  {
    SumOfSort(data, Weight);
    CumShareOf(SortObs(data), Weight)
  }

  /** The distribution function rises from above 0 to exactly 1 and is paired
      with ascending values. */
  lemma {:induction false} ShrpopIsDistribution(data: seq<Obs>)
    requires SumOf(data, Weight) != 0.0 && NonNegWeights(data) && |data| > 0
    ensures NonDecreasing(Shrpop(data))
    ensures Shrpop(data)[|data| - 1] == 1.0
    ensures forall i :: 0 <= i < |data| ==> 0.0 <= Shrpop(data)[i] <= 1.0
    ensures SortedByValue(SortObs(data))
  {
    var s := SortObs(data);
    SumOfSort(data, Weight);
    SortKeepsNonNegWeights(data);
    CumShareIsDistribution(s, Weight);
    CumShareEndsAtOne(s, Weight);
    SortedIsSortedByValue(s);
  }

  /* ---------------- Lorenz curve ---------------- */

  datatype LorenzPoint = LorenzPoint(shrpop: real, shrinc: real)

  /** Rows sorted by (value, weight); cumulative population and income shares. */
  function Lorenz(data: seq<Obs>): seq<LorenzPoint>
    requires SumOf(data, Weight) != 0.0 && SumOf(data, Income) != 0.0
  {
    var s := SortObs(data);
    SumOfSort(data, Weight);
    SumOfSort(data, Income);
    Pair(CumShareOf(s, Weight), CumShareOf(s, Income))
  }

  /** Points (pop[i], inc[i]); its facts are stated by PairAt. */
  function Pair(pop: seq<real>, inc: seq<real>): seq<LorenzPoint>
    requires |pop| == |inc|
  {
    seq(|pop|, i requires 0 <= i < |pop| => LorenzPoint(pop[i], inc[i]))
  }

  /** Pair keeps the length. */
  lemma {:induction false} PairLength(pop: seq<real>, inc: seq<real>)
    requires |pop| == |inc|
    ensures |Pair(pop, inc)| == |pop|
  {
  }

  /** Pair keeps the length and puts pop[i] and inc[i] together at i. */
  lemma {:induction false} PairAt(pop: seq<real>, inc: seq<real>, i: nat)
    requires |pop| == |inc| && i < |pop|
    ensures |Pair(pop, inc)| == |pop|
    ensures Pair(pop, inc)[i] == LorenzPoint(pop[i], inc[i])
  {
  }

  predicate NonNegIncomes(o: seq<Obs>) { NonNegWeights(o) && NonNegValues(o) }

  /** Point i of the Lorenz curve pairs the cumulative shares of the sorted rows. */
  lemma {:induction false} LorenzAt(data: seq<Obs>, i: nat)
    requires SumOf(data, Weight) != 0.0 && SumOf(data, Income) != 0.0 && i < |data|
    ensures SumOf(SortObs(data), Weight) != 0.0 && SumOf(SortObs(data), Income) != 0.0
    ensures |Lorenz(data)| == |data|
    ensures Lorenz(data)[i].shrpop == CumShareOf(SortObs(data), Weight)[i]
    ensures Lorenz(data)[i].shrinc == CumShareOf(SortObs(data), Income)[i]
  {
    SumOfSort(data, Weight);
    SumOfSort(data, Income);
    PairAt(CumShareOf(SortObs(data), Weight), CumShareOf(SortObs(data), Income), i);
  }

  /** The sorted rows of a sample with non-negative weights and values have
      cumulative population and income shares that are distributions ending at 1. */
  lemma {:induction false} SortedSharesAreDistributions(data: seq<Obs>)
    requires SumOf(data, Weight) != 0.0 && SumOf(data, Income) != 0.0 && NonNegIncomes(data)
    ensures SumOf(SortObs(data), Weight) != 0.0 && SumOf(SortObs(data), Income) != 0.0
    ensures NonNegTerms(SortObs(data), Weight) && NonNegTerms(SortObs(data), Income)
    ensures |data| > 0
  {
    var s := SortObs(data);
    SumOfSort(data, Weight);
    SumOfSort(data, Income);
    SortKeepsNonNegWeights(data);
    SortKeepsNonNegValues(data);
    forall i | 0 <= i < |s| ensures Income(s[i]) >= 0.0 {
      IncomeNonNeg(s[i]);
    }
  }

  /** The whole Lorenz curve, point by point: the cumulative shares of the sorted rows. */
  lemma {:induction false} LorenzPoints(data: seq<Obs>)
    requires SumOf(data, Weight) != 0.0 && SumOf(data, Income) != 0.0
    ensures SumOf(SortObs(data), Weight) != 0.0 && SumOf(SortObs(data), Income) != 0.0
    ensures |Lorenz(data)| == |data|
    ensures forall i :: 0 <= i < |data| ==>
      Lorenz(data)[i] == LorenzPoint(CumShareOf(SortObs(data), Weight)[i], CumShareOf(SortObs(data), Income)[i])
  {
    SumOfSort(data, Weight);
    SumOfSort(data, Income);
    var s := SortObs(data);
    PairLength(CumShareOf(s, Weight), CumShareOf(s, Income));
    forall i | 0 <= i < |data|
      ensures Lorenz(data)[i] == LorenzPoint(CumShareOf(s, Weight)[i], CumShareOf(s, Income)[i])
    {
      LorenzAt(data, i);
    }
  }

  /** Both coordinates of the Lorenz curve end at 1, never decrease, and stay in [0, 1]. */
  lemma {:induction false} LorenzIsCurve(data: seq<Obs>)
    requires SumOf(data, Weight) != 0.0 && SumOf(data, Income) != 0.0 && NonNegIncomes(data)
    ensures |Lorenz(data)| == |data| > 0
    ensures var c := Lorenz(data);
      && c[|c| - 1] == LorenzPoint(1.0, 1.0)
      && (forall i, j :: 0 <= i <= j < |c| ==> c[i].shrpop <= c[j].shrpop && c[i].shrinc <= c[j].shrinc)
      && (forall i :: 0 <= i < |c| ==> 0.0 <= c[i].shrpop <= 1.0 && 0.0 <= c[i].shrinc <= 1.0)
  {
    var s := SortObs(data);
    SortedSharesAreDistributions(data);
    LorenzPoints(data);
    CumShareIsDistribution(s, Weight);
    CumShareIsDistribution(s, Income);
    CumShareEndsAtOne(s, Weight);
    CumShareEndsAtOne(s, Income);
  }

  /** The arithmetic core of "the poorest p% hold at most p% of income":
      a prefix whose values are at most c, followed by a suffix whose values
      are at least c. */
  lemma {:induction false} PrefixShareBound(ip: real, iq: real, wp: real, ws: real, c: real, itot: real, wtot: real)
    requires wp >= 0.0 && ws >= 0.0
    requires ip <= c * wp && c * ws <= iq
    requires itot == ip + iq && wtot == wp + ws
    ensures CrossLe(ip, wtot, wp, itot)
  {
    MulMono(ws, ip, c * wp);
    MulMono(wp, c * ws, iq);
    assert ws * (c * wp) == wp * (c * ws);
    assert ip * wtot == ip * wp + ip * ws;
    assert wp * itot == wp * ip + wp * iq;
  }

  /** Rows p all at most c, rows q all at least c: p's income share of p + q is at
      most its population share (cross-multiplied). */
  lemma {:induction false} SplitShareBound(p: seq<Obs>, q: seq<Obs>, c: real)
    requires NonNegWeights(p) && NonNegWeights(q)
    requires forall k :: 0 <= k < |p| ==> p[k].x <= c
    requires forall k :: 0 <= k < |q| ==> c <= q[k].x
    ensures CrossLe(SumOf(p, Income), SumOf(p + q, Weight), SumOf(p, Weight), SumOf(p + q, Income))
  {
    SumOfConcat(p, q, Weight);
    SumOfConcat(p, q, Income);
    IncomeAtMost(p, c);
    IncomeAtLeast(q, c);
    SumOfNonNeg(p, Weight);
    SumOfNonNeg(q, Weight);
    SplitShareArith(p, q, c);
  }

  /** PrefixShareBound instantiated with the sums of p, q and p + q. */
  lemma {:induction false} SplitShareArith(p: seq<Obs>, q: seq<Obs>, c: real)
    requires SumOf(p, Weight) >= 0.0 && SumOf(q, Weight) >= 0.0
    requires SumOf(p, Income) <= c * SumOf(p, Weight) && c * SumOf(q, Weight) <= SumOf(q, Income)
    requires SumOf(p + q, Income) == SumOf(p, Income) + SumOf(q, Income)
    requires SumOf(p + q, Weight) == SumOf(p, Weight) + SumOf(q, Weight)
    ensures CrossLe(SumOf(p, Income), SumOf(p + q, Weight), SumOf(p, Weight), SumOf(p + q, Income))
  {
    PrefixShareBound(SumOf(p, Income), SumOf(q, Income), SumOf(p, Weight), SumOf(q, Weight), c,
      SumOf(p + q, Income), SumOf(p + q, Weight));
  }

  /** In rows sorted by value, a prefix's income share is at most its population share
      (cross-multiplied). */
  lemma {:induction false} PrefixIncomeShareBound(s: seq<Obs>, i: nat)
    requires SortedByValue(s) && NonNegIncomes(s) && i < |s|
    ensures CrossLe(SumOf(s[..i + 1], Income), SumOf(s, Weight), SumOf(s[..i + 1], Weight), SumOf(s, Income))
  {
    var p, q := s[..i + 1], s[i + 1..];
    assert s == p + q;
    SplitShareBound(p, q, s[i].x);
  }

  /** The Lorenz curve lies on or below the line of perfect equality. */
  lemma {:induction false} LorenzBelowDiagonal(data: seq<Obs>, i: nat)
    requires SumOf(data, Weight) != 0.0 && SumOf(data, Income) != 0.0 && NonNegIncomes(data)
    requires i < |data|
    ensures Lorenz(data)[i].shrinc <= Lorenz(data)[i].shrpop
  {
    SumOfSort(data, Weight);
    SumOfSort(data, Income);
    SortKeepsNonNegWeights(data);
    SortKeepsNonNegValues(data);
    SortedIsSortedByValue(SortObs(data));
    SortedSharesBelowDiagonal(SortObs(data), i);
  }

  /** Over rows sorted by value, the income share of every prefix is at most its
      population share. */
  lemma {:induction false} SortedSharesBelowDiagonal(s: seq<Obs>, i: nat)
    requires SumOf(s, Weight) != 0.0 && SumOf(s, Income) != 0.0
    requires SortedByValue(s) && NonNegIncomes(s) && i < |s|
    ensures CumShareOf(s, Income)[i] <= CumShareOf(s, Weight)[i]
  {
    PrefixIncomeShareBound(s, i);
    SumOfNonNeg(s, Weight);
    forall k | 0 <= k < |s| ensures Income(s[k]) >= 0.0 {
      IncomeNonNeg(s[k]);
    }
    SumOfNonNeg(s, Income);
    PrefixShareOrder(s, i);
  }

  /** DivCross instantiated with the prefix and total sums. */
  lemma {:induction false} PrefixShareOrder(s: seq<Obs>, i: nat)
    requires i < |s| && SumOf(s, Weight) > 0.0 && SumOf(s, Income) > 0.0
    requires CrossLe(SumOf(s[..i + 1], Income), SumOf(s, Weight), SumOf(s[..i + 1], Weight), SumOf(s, Income))
    ensures SumOf(s[..i + 1], Income) / SumOf(s, Income) <= SumOf(s[..i + 1], Weight) / SumOf(s, Weight)
  {
    DivCross(SumOf(s[..i + 1], Income), SumOf(s, Income), SumOf(s[..i + 1], Weight), SumOf(s, Weight));
  }

  /** Incomes all equal: every prefix holds exactly its population share of income. */
  lemma {:induction false} IncomeOfEqualValues(o: seq<Obs>, c: real)
    requires forall i :: 0 <= i < |o| ==> o[i].x == c
    ensures Scaled(SumOf(o, Income), c, SumOf(o, Weight))
    decreases |o|
  {
    if |o| > 0 {
      IncomeOfEqualValues(o[..|o| - 1], c);
    }
  }

  /** Perfect equality: with every value equal, the Lorenz curve is the diagonal. */
  lemma {:induction false} LorenzOfEqualIncomes(data: seq<Obs>, c: real, i: nat)
    requires SumOf(data, Weight) != 0.0 && SumOf(data, Income) != 0.0
    requires forall k :: 0 <= k < |data| ==> data[k].x == c
    requires i < |data|
    ensures Lorenz(data)[i].shrinc == Lorenz(data)[i].shrpop
  {
    var s := SortObs(data);
    LorenzAt(data, i);
    forall k | 0 <= k < |s| ensures s[k].x == c {
      SortKeepsRows(data, k);
    }
    SortedEqualShares(s, c, i);
  }

  /** Rows of equal value: each prefix's income share equals its population share. */
  lemma {:induction false} SortedEqualShares(s: seq<Obs>, c: real, i: nat)
    requires SumOf(s, Weight) != 0.0 && SumOf(s, Income) != 0.0
    requires forall k :: 0 <= k < |s| ==> s[k].x == c
    requires i < |s|
    ensures CumShareOf(s, Income)[i] == CumShareOf(s, Weight)[i]
  {
    IncomeOfEqualValues(s, c);
    IncomeOfEqualValues(s[..i + 1], c);
    EqualSharesArith(s, c, i);
    CumSharesEqualAt(s, i);
  }

  /** Equal prefix-over-total quotients are equal cumulative shares. */
  lemma {:induction false} CumSharesEqualAt(s: seq<Obs>, i: nat)
    requires i < |s| && SumOf(s, Weight) != 0.0 && SumOf(s, Income) != 0.0
    requires SumOf(s[..i + 1], Income) / SumOf(s, Income) == SumOf(s[..i + 1], Weight) / SumOf(s, Weight)
    ensures CumShareOf(s, Income)[i] == CumShareOf(s, Weight)[i]
  {
    CumShareAt(s, Income, i);
    CumShareAt(s, Weight, i);
  }

  /** ScaledRatio instantiated with the prefix and total sums. */
  lemma {:induction false} EqualSharesArith(s: seq<Obs>, c: real, i: nat)
    requires i < |s| && SumOf(s, Weight) != 0.0 && SumOf(s, Income) != 0.0
    requires Scaled(SumOf(s, Income), c, SumOf(s, Weight))
    requires Scaled(SumOf(s[..i + 1], Income), c, SumOf(s[..i + 1], Weight))
    ensures SumOf(s[..i + 1], Income) / SumOf(s, Income) == SumOf(s[..i + 1], Weight) / SumOf(s, Weight)
  {
    ScaledRatio(c, SumOf(s[..i + 1], Weight), SumOf(s, Weight), SumOf(s[..i + 1], Income), SumOf(s, Income));
  }

  /** ca == c * a, kept as one named fact. */
  predicate Scaled(ca: real, c: real, a: real) { ca == c * a }

  /** Scaling numerator and denominator by the same non-zero factor keeps the ratio. */
  lemma {:induction false} ScaledRatio(c: real, a: real, b: real, ca: real, cb: real)
    requires b != 0.0 && cb != 0.0 && Scaled(ca, c, a) && Scaled(cb, c, b)
    ensures ca / cb == a / b
  {
  }

  /* ---------------- per-region cumulative sums ---------------- */

  /** groupby(region)[f].cumsum(): the running total of f within each row's region. */
  function GroupCumSum(region: seq<int>, o: seq<Obs>, f: Obs -> real): (c: seq<real>)
    requires |region| == |o|
    ensures |c| == |o|
  {
    seq(|o|, i requires 0 <= i < |o| => LabelSum(o[..i + 1], region[..i + 1], region[i], f))
  }

  /** No later row belongs to row i's region. */
  predicate IsLastOfGroup(region: seq<int>, i: nat)
    requires i < |region|
  {
    forall m :: i < m < |region| ==> region[m] != region[i]
  }

  /** Index of the last row of region g. */
  function LastOfGroup(region: seq<int>, g: int): (l: nat)
    requires g in region
    ensures l < |region| && region[l] == g && IsLastOfGroup(region, l)
    decreases |region|
  {
    var n := |region| - 1;
    if region[n] == g then n
    else
      assert region == region[..n] + [region[n]];
      LastOfGroup(region[..n], g)
  }

  lemma {:induction false} GroupCumWithinTotal(region: seq<int>, o: seq<Obs>, f: Obs -> real, i: nat)
    requires |region| == |o| && i < |o| && NonNegTerms(o, f)
    ensures 0.0 <= GroupCumSum(region, o, f)[i] <= LabelSum(o, region, region[i], f)
  {
    LabelSumNonNeg(o[..i + 1], region[..i + 1], region[i], f);
    LabelSumPrefixMono(o, region, region[i], i + 1, |o|, f);
    assert o[..|o|] == o && region[..|o|] == region;
  }

  lemma {:induction false} GroupCumAtLast(region: seq<int>, o: seq<Obs>, f: Obs -> real, i: nat)
    requires |region| == |o| && i < |o| && IsLastOfGroup(region, i)
    ensures GroupCumSum(region, o, f)[i] == LabelSum(o, region, region[i], f)
  {
    LabelSumPrefixSkip(o, region, region[i], i + 1, |o|, f);
    assert o[..|o|] == o && region[..|o|] == region;
  }

  lemma {:induction false} GroupCumNonDecreasing(region: seq<int>, o: seq<Obs>, f: Obs -> real, i: nat, j: nat)
    requires |region| == |o| && i <= j < |o| && region[i] == region[j] && NonNegTerms(o, f)
    ensures GroupCumSum(region, o, f)[i] <= GroupCumSum(region, o, f)[j]
  {
    LabelSumPrefixMono(o, region, region[i], i + 1, j + 1, f);
  }

  /** With non-negative terms, the largest running total of a region iq the region's total. */
  lemma {:induction false} GroupCumMaxIsTotal(region: seq<int>, o: seq<Obs>, f: Obs -> real, g: int)
    requires |region| == |o| && g in region && NonNegTerms(o, f)
    ensures LabelMax(region, GroupCumSum(region, o, f), g) == LabelSum(o, region, g, f)
  {
    var c := GroupCumSum(region, o, f);
    var l := LastOfGroup(region, g);
    GroupCumAtLast(region, o, f, l);
    var m := LabelMax(region, c, g);
    var k :| 0 <= k < |c| && region[k] == g && c[k] == m;
    GroupCumWithinTotal(region, o, f, k);
  }

  /** Every region's largest value in col iq non-zero (the divisions below are defined). */
  predicate GroupMaxesNonZero(region: seq<int>, col: seq<real>)
    requires |region| == |col|
  {
    forall k :: 0 <= k < |col| ==> LabelMax(region, col, region[k]) != 0.0
  }

  /** Non-negative terms and a positive total in every region. */
  predicate PositiveGroups(region: seq<int>, o: seq<Obs>, f: Obs -> real)
    requires |region| == |o|
  {
    NonNegTerms(o, f) && forall k :: 0 <= k < |o| ==> LabelSum(o, region, region[k], f) > 0.0
  }

  lemma {:induction false} PositiveGroupsHaveMaxes(region: seq<int>, o: seq<Obs>, f: Obs -> real)
    requires |region| == |o| && PositiveGroups(region, o, f)
    ensures GroupMaxesNonZero(region, GroupCumSum(region, o, f))
  {
    forall k | 0 <= k < |o|
      ensures LabelMax(region, GroupCumSum(region, o, f), region[k]) != 0.0
    {
      GroupCumMaxIsTotal(region, o, f, region[k]);
    }
  }

  /** Each row's running total divided by its region's largest running total:
      what the notebook's per-region loop leaves in the column. */
  function GroupShares(region: seq<int>, o: seq<Obs>, f: Obs -> real): (s: seq<real>)
    requires |region| == |o| && GroupMaxesNonZero(region, GroupCumSum(region, o, f))
    ensures |s| == |o|
  {
    var c := GroupCumSum(region, o, f);
    seq(|o|, i requires 0 <= i < |o| => c[i] / LabelMax(region, c, region[i]))
  }

  /** Per region, the shares are the cumulative shares of that region alone:
      in [0, 1], non-decreasing along the region's rows, and 1 at its last row. */
  lemma {:induction false} GroupSharesAreRegionalShares(region: seq<int>, o: seq<Obs>, f: Obs -> real)
    requires |region| == |o| && PositiveGroups(region, o, f)
    ensures GroupMaxesNonZero(region, GroupCumSum(region, o, f))
    ensures forall i :: 0 <= i < |o| ==>
      GroupShares(region, o, f)[i] == GroupCumSum(region, o, f)[i] / LabelSum(o, region, region[i], f)
    ensures forall i :: 0 <= i < |o| ==> 0.0 <= GroupShares(region, o, f)[i] <= 1.0
    ensures forall i, j :: 0 <= i <= j < |o| && region[i] == region[j] ==>
      GroupShares(region, o, f)[i] <= GroupShares(region, o, f)[j]
    ensures forall i :: 0 <= i < |o| && IsLastOfGroup(region, i) ==> GroupShares(region, o, f)[i] == 1.0
  {
    PositiveGroupsHaveMaxes(region, o, f);
    var c := GroupCumSum(region, o, f);
    var s := GroupShares(region, o, f);
    forall i | 0 <= i < |o|
      ensures s[i] == c[i] / LabelSum(o, region, region[i], f)
      ensures 0.0 <= s[i] <= 1.0
      ensures IsLastOfGroup(region, i) ==> s[i] == 1.0
    {
      GroupCumMaxIsTotal(region, o, f, region[i]);
      GroupCumWithinTotal(region, o, f, i);
      ShareInUnit(c[i], LabelSum(o, region, region[i], f));
      if IsLastOfGroup(region, i) {
        GroupCumAtLast(region, o, f, i);
        SelfRatio(c[i], LabelSum(o, region, region[i], f));
      }
    }
    forall i, j | 0 <= i <= j < |o| && region[i] == region[j] ensures s[i] <= s[j] {
      GroupCumNonDecreasing(region, o, f, i, j);
      DivMono(c[i], c[j], LabelSum(o, region, region[i], f));
    }
  }

  /* ---------------- Pareto diagram ---------------- */

  /** 1 - shrpop_region: the share of the region's population with a larger
      value (the notebook plots its logarithm). */
  function ParetoSurvival(region: seq<int>, o: seq<Obs>): (s: seq<real>)
    requires |region| == |o| && GroupMaxesNonZero(region, GroupCumSum(region, o, Weight))
    ensures |s| == |o|
  {
    var shr := GroupShares(region, o, Weight);
    seq(|o|, i requires 0 <= i < |o| => 1.0 - shr[i])
  }

  /** The survival share iq in [0, 1], never increases along a region's rows,
      and iq exactly 0 at the region's last row (where the logarithm diverges). */
  lemma {:induction false} ParetoSurvivalFalls(region: seq<int>, o: seq<Obs>)
    requires |region| == |o| && PositiveGroups(region, o, Weight)
    ensures GroupMaxesNonZero(region, GroupCumSum(region, o, Weight))
    ensures forall i :: 0 <= i < |o| ==> 0.0 <= ParetoSurvival(region, o)[i] <= 1.0
    ensures forall i, j :: 0 <= i <= j < |o| && region[i] == region[j] ==>
      ParetoSurvival(region, o)[j] <= ParetoSurvival(region, o)[i]
    ensures forall i :: 0 <= i < |o| && IsLastOfGroup(region, i) ==> ParetoSurvival(region, o)[i] == 0.0
  {
    GroupSharesAreRegionalShares(region, o, Weight);
  }

  /* ---------------- the per-region normalisation loop ---------------- */

  /** The distinct labels (np.unique, up to order). */
  function Distinct(s: seq<int>): (d: seq<int>)
    ensures forall x :: x in d <==> x in s
    ensures forall i, j :: 0 <= i < j < |d| ==> d[i] != d[j]
    decreases |s|
  {
    if |s| == 0 then []
    else
      var d := Distinct(s[..|s| - 1]);
      assert s == s[..|s| - 1] + [s[|s| - 1]];
      if s[|s| - 1] in d then d else d + [s[|s| - 1]]
  }

  /** Column a after the regions in done have been divided by their largest
      value of scale. */
  ghost function Normalized(region: seq<int>, a: seq<real>, scale: seq<real>, done: seq<int>): (r: seq<real>)
    requires |region| == |a| == |scale| && GroupMaxesNonZero(region, scale)
    ensures |r| == |a|
  {
    seq(|a|, k requires 0 <= k < |a| =>
      if region[k] in done then a[k] / LabelMax(region, scale, region[k]) else a[k])
  }

  /** Dividing region g by its maximum extends the set of normalised regions by g. */
  lemma {:induction false} NormalizedStep(region: seq<int>, a0: seq<real>, scale0: seq<real>, done: seq<int>, g: int,
                       before: seq<real>, after: seq<real>)
    requires |region| == |a0| == |scale0| == |before| == |after| && GroupMaxesNonZero(region, scale0)
    requires g in region && g !in done
    requires before == Normalized(region, a0, scale0, done)
    requires forall m :: 0 <= m < |after| ==>
      after[m] == if region[m] == g then before[m] / LabelMax(region, scale0, g) else before[m]
    ensures after == Normalized(region, a0, scale0, done + [g])
  {
  }

  /** A region not yet normalised still has its original scale values, whether
      the scale column is the column being divided or another one. */
  lemma {:induction false} UntouchedGroupScale(region: seq<int>, a0: seq<real>, scale0: seq<real>, done: seq<int>, g: int,
                            a: seq<real>, scale: seq<real>)
    requires |region| == |a0| == |scale0| == |a| == |scale| && GroupMaxesNonZero(region, scale0)
    requires g !in done && a == Normalized(region, a0, scale0, done)
    requires (scale == a && scale0 == a0) || scale == scale0
    ensures forall m :: 0 <= m < |region| && region[m] == g ==> scale[m] == scale0[m]
  {
  }

  /** Divides column a, region by region, by the largest value of column scale
      within the region (the regions taken in order of first appearance). The
      scale column may be the column being divided. */
  method NormalizeByGroupMax(region: seq<int>, a: array<real>, scale: array<real>)
    requires |region| == a.Length == scale.Length
    requires GroupMaxesNonZero(region, scale[..])
    modifies a
    ensures forall k :: 0 <= k < a.Length ==> a[k] == old(a[k]) / LabelMax(region, old(scale[..]), region[k])
  {
    ghost var a0, scale0 := a[..], scale[..];
    var groups := Distinct(region);
    var gi := 0;
    while gi < |groups|
      invariant 0 <= gi <= |groups|
      invariant a[..] == Normalized(region, a0, scale0, groups[..gi])
      invariant scale == a || scale[..] == scale0
      invariant scale == a ==> scale0 == a0
    {
      var g := groups[gi];
      assert groups[..gi + 1] == groups[..gi] + [g];
      assert g !in groups[..gi];
      NormalizeGroup(region, a, scale, g, a0, scale0, groups[..gi]);
      gi := gi + 1;
    }
    assert groups[..gi] == groups;
    forall k | 0 <= k < a.Length ensures a[k] == a0[k] / LabelMax(region, scale0, region[k]) {
      assert a[..][k] == Normalized(region, a0, scale0, groups)[k];
    }
  }

  /** One pass of the region loop: takes the largest scale value of region g and
      divides the rows of g by it. */
  method NormalizeGroup(region: seq<int>, a: array<real>, scale: array<real>, g: int,
                        ghost a0: seq<real>, ghost scale0: seq<real>, ghost done: seq<int>)
    requires |region| == a.Length == scale.Length == |a0| == |scale0| && GroupMaxesNonZero(region, scale0)
    requires g in region && g !in done
    requires a[..] == Normalized(region, a0, scale0, done)
    requires (scale == a && scale0 == a0) || scale[..] == scale0
    modifies a
    ensures a[..] == Normalized(region, a0, scale0, done + [g])
  {
    UntouchedGroupScale(region, a0, scale0, done, g, a[..], scale[..]);
    LabelMaxOnlyGroup(region, scale[..], scale0, g);
    var aux2 := LabelMax(region, scale[..], g);
    ghost var before := a[..];
    DivideGroup(region, a, g, aux2);
    NormalizedStep(region, a0, scale0, done, g, before, a[..]);
  }

  /** Divides the rows of group g by aux2 and leaves every other row as it was. */
  method DivideGroup(region: seq<int>, a: array<real>, g: int, aux2: real)
    requires |region| == a.Length && aux2 != 0.0
    modifies a
    ensures forall m :: 0 <= m < a.Length ==>
      a[m] == if region[m] == g then old(a[m]) / aux2 else old(a[m])
  {
    var k := 0;
    while k < a.Length
      invariant 0 <= k <= a.Length
      invariant forall m :: 0 <= m < a.Length ==>
        a[m] == if m < k && region[m] == g then old(a[m]) / aux2 else old(a[m])
    {
      if region[k] == g {
        a[k] := a[k] / aux2;
      }
      k := k + 1;
    }
  }

  /** A fresh array holding the sequence c. */
  method ToArray(c: seq<real>) returns (a: array<real>)
    ensures fresh(a) && a[..] == c
  {
    a := new real[|c|](i requires 0 <= i < |c| => c[i]);
  }

  /** Regional Lorenz curves: per-region population and income shares. */
  method RegionalLorenz(region: seq<int>, o: seq<Obs>) returns (shrpop: array<real>, shrinc: array<real>)
    requires |region| == |o|
    requires GroupMaxesNonZero(region, GroupCumSum(region, o, Weight))
    requires GroupMaxesNonZero(region, GroupCumSum(region, o, Income))
    ensures shrpop[..] == GroupShares(region, o, Weight)
    ensures shrinc[..] == GroupShares(region, o, Income)
  {
    shrpop := ToArray(GroupCumSum(region, o, Weight));
    NormalizeByGroupMax(region, shrpop, shrpop);
    shrinc := ToArray(GroupCumSum(region, o, Income));
    NormalizeByGroupMax(region, shrinc, shrinc);
  }

  /** Cumulative income of each row's region divided by the region's largest
      cumulative weight. */
  function GeneralizedLorenzCurve(region: seq<int>, o: seq<Obs>): (g: seq<real>)
    requires |region| == |o| && GroupMaxesNonZero(region, GroupCumSum(region, o, Weight))
    ensures |g| == |o|
  {
    var inc, pop := GroupCumSum(region, o, Income), GroupCumSum(region, o, Weight);
    seq(|o|, i requires 0 <= i < |o| => inc[i] / LabelMax(region, pop, region[i]))
  }

  /** The generalized Lorenz curve ends, in each region, at the region's weighted mean. */
  lemma {:induction false} GeneralizedLorenzEndsAtMean(region: seq<int>, o: seq<Obs>, i: nat)
    requires |region| == |o| && PositiveGroups(region, o, Weight)
    requires i < |o| && IsLastOfGroup(region, i)
    ensures GroupMaxesNonZero(region, GroupCumSum(region, o, Weight))
    ensures GeneralizedLorenzCurve(region, o)[i]
         == LabelSum(o, region, region[i], Income) / LabelSum(o, region, region[i], Weight)
  {
    PositiveGroupsHaveMaxes(region, o, Weight);
    GroupCumMaxIsTotal(region, o, Weight, region[i]);
    GroupCumAtLast(region, o, Income, i);
  }

  /** The generalized Lorenz block: shrpop normalised per region, pop kept as
      the unnormalised running weight, glorenz divided by pop's regional maximum. */
  method GeneralizedLorenz(region: seq<int>, o: seq<Obs>)
    returns (shrpop: array<real>, pop: array<real>, glorenz: array<real>)
    requires |region| == |o|
    requires GroupMaxesNonZero(region, GroupCumSum(region, o, Weight))
    ensures shrpop[..] == GroupShares(region, o, Weight)
    ensures pop[..] == GroupCumSum(region, o, Weight)
    ensures glorenz[..] == GeneralizedLorenzCurve(region, o)
  {
    shrpop := ToArray(GroupCumSum(region, o, Weight));
    pop := ToArray(GroupCumSum(region, o, Weight));
    NormalizeByGroupMax(region, shrpop, shrpop);
    glorenz := ToArray(GroupCumSum(region, o, Income));
    NormalizeByGroupMax(region, glorenz, pop);
  }
}
