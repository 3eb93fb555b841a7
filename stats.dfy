/**
 * Shared vocabulary of the weighted-statistics toolkit: a survey observation
 * (a value and its expansion factor), the error outcomes of the notebook
 * routines, and sums over sequences of rows, in total, by prefix and by label
 * (a tile, a region or a household id).
 */
module Stats {

  datatype Option<T> = None | Some(value: T)

  /** The failures the notebook routines raise, or the non-finite value they
      would silently produce (a pandas/NumPy division by zero), made explicit. */
  datatype Error =
    | MissingValues            // `x` not given: ValueError
    | MissingWeights           // `ponderador` not given: ValueError
    | EmptyData                // `data.empty`, or no sample points for np.interp / np.percentile
    | ShapeMismatch            // values and weights of different lengths
    | ZeroWeightSum            // np.average: weights sum to zero (ZeroDivisionError), or a 0/0 share
    | ZeroIncomeSum            // a share whose denominator (total income) is zero
    | ZeroMean                 // ratq51: the first quintile's mean is zero, so Q5/Q1 is not finite
    | NonIntegerCount          // gcuan: int(num) != num
    | ZeroCount                // gcuan: 1/num with num == 0
    | RangeOfFloat             // gcuan: range(1, num + 1) with a float num (TypeError)
    | PercentOutOfRange        // np.percentile: percent outside [0, 100]
    | MissingPercentile(p: int)  // box_plotInput: KeyError on 'p25' / 'p75'

  datatype Result<T> = Ok(value: T) | Err(error: Error)

  /** One survey row: a value (per-capita family income, ipcf) and its weight (pondera). */
  datatype Obs = Obs(x: real, w: real)

  function Weight(o: Obs): real { o.w }
  function Income(o: Obs): real { o.w * o.x }
  function Value(o: Obs): real { o.x }
  function Unit(o: Obs): real { 1.0 }
  function Id(r: real): real { r }

  predicate NonNegWeights(s: seq<Obs>) { forall i :: 0 <= i < |s| ==> s[i].w >= 0.0 }
  predicate PositiveWeights(s: seq<Obs>) { forall i :: 0 <= i < |s| ==> s[i].w > 0.0 }
  predicate NonNegValues(s: seq<Obs>) { forall i :: 0 <= i < |s| ==> s[i].x >= 0.0 }

  predicate NonDecreasing(s: seq<real>) { forall i, j :: 0 <= i <= j < |s| ==> s[i] <= s[j] }

  predicate StrictlyIncreasing(s: seq<real>) { forall i, j :: 0 <= i < j < |s| ==> s[i] < s[j] }

  /** Sum of f over the rows, accumulated from the front (the order of cumsum). */
  function SumOf<T>(s: seq<T>, f: T -> real): real
    decreases |s|
  {
    if |s| == 0 then 0.0 else SumOf(s[..|s| - 1], f) + f(s[|s| - 1])
  }

  lemma {:induction false} SumOfAppend<T>(s: seq<T>, a: T, f: T -> real)
    ensures SumOf(s + [a], f) == SumOf(s, f) + f(a)
  {
    assert (s + [a])[..|s|] == s;
  }

  lemma {:induction false} SumOfPrefixStep<T>(s: seq<T>, i: nat, f: T -> real)
    requires i < |s|
    ensures SumOf(s[..i + 1], f) == SumOf(s[..i], f) + f(s[i])
  {
    assert s[..i + 1][..i] == s[..i];
  }

  lemma {:induction false} SumOfConcat<T>(a: seq<T>, b: seq<T>, f: T -> real)
    ensures SumOf(a + b, f) == SumOf(a, f) + SumOf(b, f)
    decreases |b|
  {
    if |b| == 0 {
      assert a + b == a;
    } else {
      var b' := b[..|b| - 1];
      assert b == b' + [b[|b| - 1]];
      assert a + b == (a + b') + [b[|b| - 1]];
      SumOfAppend(a + b', b[|b| - 1], f);
      SumOfConcat(a, b', f);
      SumOfAppend(b', b[|b| - 1], f);
    }
  }

  lemma {:induction false} SumOfCons<T>(a: T, s: seq<T>, f: T -> real)
    ensures SumOf([a] + s, f) == f(a) + SumOf(s, f)
  {
    SumOfConcat([a], s, f);
    assert [a][..0] == [];
  }

  lemma {:induction false} SumOfNonNeg<T>(s: seq<T>, f: T -> real)
    requires forall i :: 0 <= i < |s| ==> f(s[i]) >= 0.0
    ensures SumOf(s, f) >= 0.0
    decreases |s|
  {
    if |s| > 0 {
      SumOfNonNeg(s[..|s| - 1], f);
    }
  }

  /** With non-negative terms, a longer prefix never has a smaller sum. */
  lemma {:induction false} SumOfPrefixMono<T>(s: seq<T>, i: nat, j: nat, f: T -> real)
    requires i <= j <= |s|
    requires forall k :: 0 <= k < |s| ==> f(s[k]) >= 0.0
    ensures SumOf(s[..i], f) <= SumOf(s[..j], f)
    decreases j - i
  {
    if i < j {
      SumOfPrefixMono(s, i, j - 1, f);
      SumOfPrefixStep(s, j - 1, f);
    }
  }

  /** With non-negative terms, every prefix sum lies between 0 and the total. */
  lemma {:induction false} PrefixWithinTotal<T>(s: seq<T>, i: nat, f: T -> real)
    requires i <= |s|
    requires forall k :: 0 <= k < |s| ==> f(s[k]) >= 0.0
    ensures 0.0 <= SumOf(s[..i], f) <= SumOf(s, f)
  {
    SumOfPrefixMono(s, 0, i, f);
    SumOfPrefixMono(s, i, |s|, f);
    assert s[..0] == [];
    assert s[..|s|] == s;
  }

  /** With positive terms, the prefix sums are strictly increasing. */
  lemma {:induction false} SumOfPrefixStrict<T>(s: seq<T>, i: nat, j: nat, f: T -> real)
    requires i < j <= |s|
    requires forall k :: 0 <= k < |s| ==> f(s[k]) > 0.0
    ensures SumOf(s[..i], f) < SumOf(s[..j], f)
    decreases j - i
  {
    SumOfPrefixStep(s, j - 1, f);
    if i < j - 1 {
      SumOfPrefixStrict(s, i, j - 1, f);
    }
  }

  /** If every value lies in [lo, hi] and weights are non-negative, the
      weighted income lies between lo and hi times the total weight. */
  lemma {:induction false} IncomeBounds(s: seq<Obs>, lo: real, hi: real)
    requires NonNegWeights(s)
    requires forall i :: 0 <= i < |s| ==> lo <= s[i].x <= hi
    ensures lo * SumOf(s, Weight) <= SumOf(s, Income) <= hi * SumOf(s, Weight)
    decreases |s|
  {
    if |s| > 0 {
      var a := s[|s| - 1];
      IncomeBounds(s[..|s| - 1], lo, hi);
      assert a.w * (a.x - lo) >= 0.0 && a.w * (hi - a.x) >= 0.0;
    }
  }

  /** The upper half of IncomeBounds, with no lower bound on the values. */
  lemma {:induction false} IncomeAtMost(s: seq<Obs>, hi: real)
    requires NonNegWeights(s)
    requires forall i :: 0 <= i < |s| ==> s[i].x <= hi
    ensures SumOf(s, Income) <= hi * SumOf(s, Weight)
    decreases |s|
  {
    if |s| > 0 {
      var a := s[|s| - 1];
      IncomeAtMost(s[..|s| - 1], hi);
      assert a.w * (hi - a.x) >= 0.0;
    }
  }

  /** The lower half of IncomeBounds, with no upper bound on the values. */
  lemma {:induction false} IncomeAtLeast(s: seq<Obs>, lo: real)
    requires NonNegWeights(s)
    requires forall i :: 0 <= i < |s| ==> lo <= s[i].x
    ensures lo * SumOf(s, Weight) <= SumOf(s, Income)
    decreases |s|
  {
    if |s| > 0 {
      var a := s[|s| - 1];
      IncomeAtLeast(s[..|s| - 1], lo);
      assert a.w * (a.x - lo) >= 0.0;
    }
  }

  /* ---------------- sums by label ---------------- */

  /** Sum of f over the rows whose label t[i] equals k (a groupby-sum). */
  function LabelSum<T>(s: seq<T>, t: seq<int>, k: int, f: T -> real): real
    requires |s| == |t|
    decreases |s|
  {
    if |s| == 0 then 0.0
    else LabelSum(s[..|s| - 1], t[..|t| - 1], k, f) + (if t[|t| - 1] == k then f(s[|s| - 1]) else 0.0)
  }

  lemma {:induction false} LabelSumAppend<T>(s: seq<T>, t: seq<int>, a: T, l: int, k: int, f: T -> real)
    requires |s| == |t|
    ensures LabelSum(s + [a], t + [l], k, f) == LabelSum(s, t, k, f) + (if l == k then f(a) else 0.0)
  {
    assert (s + [a])[..|s|] == s;
    assert (t + [l])[..|t|] == t;
  }

  lemma {:induction false} LabelSumPrefixStep<T>(s: seq<T>, t: seq<int>, i: nat, k: int, f: T -> real)
    requires |s| == |t| && i < |s|
    ensures LabelSum(s[..i + 1], t[..i + 1], k, f)
         == LabelSum(s[..i], t[..i], k, f) + (if t[i] == k then f(s[i]) else 0.0)
  {
    assert s[..i + 1][..i] == s[..i];
    assert t[..i + 1][..i] == t[..i];
  }

  lemma {:induction false} LabelSumNonNeg<T>(s: seq<T>, t: seq<int>, k: int, f: T -> real)
    requires |s| == |t|
    requires forall i :: 0 <= i < |s| ==> f(s[i]) >= 0.0
    ensures LabelSum(s, t, k, f) >= 0.0
    decreases |s|
  {
    if |s| > 0 {
      LabelSumNonNeg(s[..|s| - 1], t[..|t| - 1], k, f);
    }
  }

  /** No row carries the label: the label sum is zero. */
  lemma {:induction false} LabelSumAbsent<T>(s: seq<T>, t: seq<int>, k: int, f: T -> real)
    requires |s| == |t|
    requires forall i :: 0 <= i < |t| ==> t[i] != k
    ensures LabelSum(s, t, k, f) == 0.0
    decreases |s|
  {
    if |s| > 0 {
      LabelSumAbsent(s[..|s| - 1], t[..|t| - 1], k, f);
    }
  }

  /** A labelled row with a positive term makes the label sum positive. */
  lemma {:induction false} LabelSumPositive<T>(s: seq<T>, t: seq<int>, k: int, f: T -> real, j: nat)
    requires |s| == |t| && j < |s| && t[j] == k && f(s[j]) > 0.0
    requires forall i :: 0 <= i < |s| ==> f(s[i]) >= 0.0
    ensures LabelSum(s, t, k, f) > 0.0
    decreases |s|
  {
    if j < |s| - 1 {
      LabelSumPositive(s[..|s| - 1], t[..|t| - 1], k, f, j);
    } else {
      LabelSumNonNeg(s[..|s| - 1], t[..|t| - 1], k, f);
    }
  }

  /** Label-wise version of IncomeBounds. */
  lemma {:induction false} LabelIncomeBounds(s: seq<Obs>, t: seq<int>, k: int, lo: real, hi: real)
    requires |s| == |t| && NonNegWeights(s)
    requires forall i :: 0 <= i < |s| && t[i] == k ==> lo <= s[i].x <= hi
    ensures lo * LabelSum(s, t, k, Weight) <= LabelSum(s, t, k, Income) <= hi * LabelSum(s, t, k, Weight)
    decreases |s|
  {
    if |s| > 0 {
      var a := s[|s| - 1];
      LabelIncomeBounds(s[..|s| - 1], t[..|t| - 1], k, lo, hi);
      if t[|t| - 1] == k {
        assert a.w * (a.x - lo) >= 0.0 && a.w * (hi - a.x) >= 0.0;
      }
    }
  }

  /** Sum over the labels lo .. hi-1 of the label sums. */
  function LabelSumRange<T>(s: seq<T>, t: seq<int>, lo: int, hi: int, f: T -> real): real
    requires |s| == |t|
    decreases hi - lo
  {
    if hi <= lo then 0.0 else LabelSumRange(s, t, lo, hi - 1, f) + LabelSum(s, t, hi - 1, f)
  }

  lemma {:induction false} LabelSumRangeAppend<T>(s: seq<T>, t: seq<int>, a: T, l: int, lo: int, hi: int, f: T -> real)
    requires |s| == |t|
    ensures LabelSumRange(s + [a], t + [l], lo, hi, f)
         == LabelSumRange(s, t, lo, hi, f) + (if lo <= l < hi then f(a) else 0.0)
    decreases hi - lo
  {
    if hi > lo {
      LabelSumRangeAppend(s, t, a, l, lo, hi - 1, f);
      LabelSumAppend(s, t, a, l, hi - 1, f);
    }
  }

  /** When every label lies in [lo, hi), the label sums over that range add up
      to the total: the labelled groups partition the rows. */
  lemma {:induction false} LabelSumRangeTotal<T>(s: seq<T>, t: seq<int>, lo: int, hi: int, f: T -> real)
    requires |s| == |t|
    requires forall i :: 0 <= i < |t| ==> lo <= t[i] < hi
    ensures LabelSumRange(s, t, lo, hi, f) == SumOf(s, f)
    decreases |s|
  {
    if |s| == 0 {
      LabelSumRangeEmpty(s, t, lo, hi, f);
    } else {
      var n := |s| - 1;
      LabelSumRangeTotal(s[..n], t[..n], lo, hi, f);
      assert s == s[..n] + [s[n]];
      assert t == t[..n] + [t[n]];
      LabelSumRangeAppend(s[..n], t[..n], s[n], t[n], lo, hi, f);
    }
  }

  lemma {:induction false} LabelSumRangeEmpty<T>(s: seq<T>, t: seq<int>, lo: int, hi: int, f: T -> real)
    requires |s| == |t| == 0
    ensures LabelSumRange(s, t, lo, hi, f) == 0.0
    decreases hi - lo
  {
    if hi > lo {
      LabelSumRangeEmpty(s, t, lo, hi - 1, f);
    }
  }

  /** With non-negative terms, the label sum over a prefix grows with the prefix. */
  lemma {:induction false} LabelSumPrefixMono<T>(s: seq<T>, t: seq<int>, k: int, i: nat, j: nat, f: T -> real)
    requires |s| == |t| && i <= j <= |s|
    requires forall m :: 0 <= m < |s| ==> f(s[m]) >= 0.0
    ensures LabelSum(s[..i], t[..i], k, f) <= LabelSum(s[..j], t[..j], k, f)
    decreases j - i
  {
    if i < j {
      LabelSumPrefixMono(s, t, k, i, j - 1, f);
      LabelSumPrefixStep(s, t, j - 1, k, f);
    }
  }

  /** Rows in [i, j) without the label do not change the label sum of the prefix. */
  lemma {:induction false} LabelSumPrefixSkip<T>(s: seq<T>, t: seq<int>, k: int, i: nat, j: nat, f: T -> real)
    requires |s| == |t| && i <= j <= |s|
    requires forall m :: i <= m < j ==> t[m] != k
    ensures LabelSum(s[..i], t[..i], k, f) == LabelSum(s[..j], t[..j], k, f)
    decreases j - i
  {
    if i < j {
      LabelSumPrefixSkip(s, t, k, i, j - 1, f);
      LabelSumPrefixStep(s, t, j - 1, k, f);
    }
  }

  /** Positive values with positive total weight give a positive weighted income. */
  lemma {:induction false} LabelIncomePositive(s: seq<Obs>, t: seq<int>, k: int)
    requires |s| == |t| && NonNegWeights(s)
    requires forall i :: 0 <= i < |s| ==> s[i].x > 0.0
    requires LabelSum(s, t, k, Weight) > 0.0
    ensures LabelSum(s, t, k, Income) > 0.0
    decreases |s|
  {
    var n := |s| - 1;
    var a := s[n];
    assert a.w * a.x >= 0.0;
    if LabelSum(s[..n], t[..n], k, Weight) > 0.0 {
      LabelIncomePositive(s[..n], t[..n], k);
    } else {
      LabelSumNonNeg(s[..n], t[..n], k, Income);
      assert t[n] == k && a.w > 0.0;
      assert a.w * a.x > 0.0;
    }
  }

  /** Largest entry of col among the rows labelled k (pandas `.max()` on a group). */
  function LabelMax(t: seq<int>, col: seq<real>, k: int): (m: real)
    requires |t| == |col| && k in t
    ensures exists i :: 0 <= i < |col| && t[i] == k && col[i] == m
    ensures forall i :: 0 <= i < |col| && t[i] == k ==> col[i] <= m
    decreases |t|
  {
    var n := |t| - 1;
    assert t == t[..n] + [t[n]];
    if k !in t[..n] then col[n]
    else
      var m := LabelMax(t[..n], col[..n], k);
      if t[n] == k && col[n] > m then col[n] else m
  }

  /** Smallest entry of col among the rows labelled k. */
  function LabelMin(t: seq<int>, col: seq<real>, k: int): (m: real)
    requires |t| == |col| && k in t
    ensures exists i :: 0 <= i < |col| && t[i] == k && col[i] == m
    ensures forall i :: 0 <= i < |col| && t[i] == k ==> m <= col[i]
    decreases |t|
  {
    var n := |t| - 1;
    assert t == t[..n] + [t[n]];
    if k !in t[..n] then col[n]
    else
      var m := LabelMin(t[..n], col[..n], k);
      if t[n] == k && col[n] < m then col[n] else m
  }

  /** The group maximum only depends on the rows of that group. */
  lemma {:induction false} LabelMaxOnlyGroup(t: seq<int>, c1: seq<real>, c2: seq<real>, k: int)
    requires |t| == |c1| == |c2| && k in t
    requires forall i :: 0 <= i < |t| && t[i] == k ==> c1[i] == c2[i]
    ensures LabelMax(t, c1, k) == LabelMax(t, c2, k)
  {
    var m1, m2 := LabelMax(t, c1, k), LabelMax(t, c2, k);
    var i1 :| 0 <= i1 < |t| && t[i1] == k && c1[i1] == m1;
    var i2 :| 0 <= i2 < |t| && t[i2] == k && c2[i2] == m2;
    assert c1[i2] <= m1 && c2[i1] <= m2;
  }

  /** Values of the rows, in order. */
  function Values(o: seq<Obs>): (v: seq<real>)
    ensures |v| == |o|
    ensures forall i :: 0 <= i < |o| ==> v[i] == o[i].x
  {
    seq(|o|, i requires 0 <= i < |o| => o[i].x)
  }

  /** Pointwise smaller terms give a smaller sum. */
  lemma {:induction false} SumOfMono<T>(s: seq<T>, f: T -> real, g: T -> real)
    requires forall i :: 0 <= i < |s| ==> f(s[i]) <= g(s[i])
    ensures SumOf(s, f) <= SumOf(s, g)
    decreases |s|
  {
    if |s| > 0 {
      SumOfMono(s[..|s| - 1], f, g);
    }
  }

  /* ---------------- real arithmetic used by the shares and means ---------------- */

  lemma {:induction false} DivMono(a: real, b: real, d: real)
    requires d > 0.0 && a <= b
    ensures a / d <= b / d
  {
  }

  lemma {:induction false} DivStrict(a: real, b: real, d: real)
    requires d > 0.0 && a < b
    ensures a / d < b / d
  {
  }

  /** lo * d <= n <= hi * d with d > 0 puts n / d in [lo, hi]. */
  lemma {:induction false} DivBetween(n: real, d: real, lo: real, hi: real)
    requires d > 0.0 && lo * d <= n <= hi * d
    ensures lo <= n / d <= hi
  {
    assert lo * d / d == lo;
    assert hi * d / d == hi;
    DivMono(lo * d, n, d);
    DivMono(n, hi * d, d);
  }

  /** 0 <= n <= d gives a share in [0, 1]. */
  lemma {:induction false} ShareInUnit(n: real, d: real)
    requires 0.0 <= n <= d && d > 0.0
    ensures 0.0 <= n / d <= 1.0
  {
    DivBetween(n, d, 0.0, 1.0);
  }

  /** a * d <= c * b, kept as one named fact so that callers can pass it along
      without re-deriving a product of sums. */
  predicate CrossLe(a: real, d: real, c: real, b: real) { a * d <= c * b }

  /** Cross-multiplication: a * d <= c * b with positive b, d gives a / b <= c / d. */
  lemma {:induction false} DivCross(a: real, b: real, c: real, d: real)
    requires b > 0.0 && d > 0.0 && CrossLe(a, d, c, b)
    ensures a / b <= c / d
  {
    var x, y := a / b, c / d;
    assert a == x * b;
    assert c == y * d;
    assert x * b * d <= y * d * b;
    assert (x - y) * (b * d) <= 0.0;
    assert b * d > 0.0;
  }

  lemma {:induction false} ProductPositive(a: real, b: real)
    requires a > 0.0 && b > 0.0
    ensures a * b > 0.0
  {
  }

  lemma {:induction false} MulMono(s: real, x: real, y: real)
    requires s >= 0.0 && x <= y
    ensures s * x <= s * y
  {
    assert s * y - s * x == s * (y - x);
  }

  /** q = n / d undone: q * d == n. */
  lemma {:induction false} QuotientTimes(n: real, d: real, q: real)
    requires d != 0.0 && q == n / d
    ensures q * d == n
  {
  }

  lemma {:induction false} IncomeNonNeg(o: Obs)
    requires o.w >= 0.0 && o.x >= 0.0
    ensures Income(o) >= 0.0
  {
    MulMono(o.w, 0.0, o.x);
  }

  /** Quotients over one denominator add up. */
  lemma {:induction false} QuotientSum(a: real, b: real, d: real)
    requires d != 0.0
    ensures a / d + b / d == (a + b) / d
  {
  }

  /** Scaled quotients over one denominator add up. */
  lemma {:induction false} ScaledSum(a: real, b: real, d: real, k: real)
    requires d != 0.0
    ensures a / d * k + b / d * k == (a + b) / d * k
  {
    QuotientSum(a, b, d);
  }

  lemma {:induction false} SelfRatio(a: real, b: real)
    requires a == b && b != 0.0
    ensures a / b == 1.0
  {
  }
}
