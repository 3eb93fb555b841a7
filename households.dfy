/**
 * Household regrouping in chapter 3. Rows carry a household id; the first
 * row of each id (groupby('id').cumcount() == 0) is the household head.
 * The size classification gives the head the number of members, truncated
 * at 6, and every other row 0; the weight of the heads per size class,
 * over the total, gives the size distribution. The intra-household
 * redistribution taxes every member's per-capita income at rate ty and
 * hands the household's whole collection to its head.
 */
module Households {
  import opened Stats
  import opened Tiles
  import opened Quantiles

  /* ---------------- heads ---------------- */

  /** Row i is the first row of its household. */
  predicate IsHead(ids: seq<int>, i: nat)
    requires i < |ids|
  {
    ids[i] !in ids[..i]
  }

  /** Every row's household has a head at or before it. */
  lemma {:induction false} HeadExists(ids: seq<int>, j: nat) returns (i: nat)
    requires j < |ids|
    ensures i <= j && ids[i] == ids[j] && IsHead(ids, i)
    decreases j
  {
    if IsHead(ids, j) {
      i := j;
    } else {
      var k :| 0 <= k < j && ids[..j][k] == ids[j];
      i := HeadExists(ids, k);
    }
  }

  /** No row before a head shares its household. */
  lemma {:induction false} HeadFirst(ids: seq<int>, i: nat, j: nat)
    requires i < j < |ids| && IsHead(ids, j)
    ensures ids[i] != ids[j]
  {
    assert ids[..j][i] == ids[i];
  }

  /* ---------------- household size ---------------- */

  /** The number of rows with the household id of row i (the transform(sum)
      of a column of ones). */
  function Members(ids: seq<int>, i: nat): (m: nat)
    requires i < |ids|
    ensures m >= 1
  {
    multiset(ids)[ids[i]]
  }

  /** The size class of row i: members truncated at 6 for the head, 0 for
      every other row. */
  function SizeClass(ids: seq<int>, i: nat): (c: int)
    requires i < |ids|
    ensures 0 <= c <= 6
  {
    if !IsHead(ids, i) then 0
    else if Members(ids, i) >= 6 then 6
    else Members(ids, i)
  }

  /** The mask for size class c: the head of a household with c members, or
      with at least 6 for c = 6. */
  function SizeMask(ids: seq<int>, c: int): (m: seq<bool>)
    ensures |m| == |ids|
    ensures forall i :: 0 <= i < |ids| ==>
      m[i] == (IsHead(ids, i) && if c == 6 then Members(ids, i) >= 6 else Members(ids, i) == c)
  {
    seq(|ids|, i requires 0 <= i < |ids| =>
      IsHead(ids, i) && if c == 6 then Members(ids, i) >= 6 else Members(ids, i) == c)
  }

  /** The size column after the masks 1 .. c. */
  function SizeUpTo(ids: seq<int>, i: nat, c: int): int
    requires i < |ids|
  {
    if SizeClass(ids, i) <= c then SizeClass(ids, i) else 0
  }

  /** The classification cell: a column of zeros, then the six masks. */
  method HouseholdSizes(ids: seq<int>) returns (tamanio: array<int>)
    ensures fresh(tamanio) && tamanio.Length == |ids|
    ensures forall i :: 0 <= i < |ids| ==> tamanio[i] == SizeClass(ids, i)
  {
    tamanio := new int[|ids|](_ => 0);
    var c := 1;
    while c <= 6
      invariant 1 <= c <= 7
      invariant forall i :: 0 <= i < |ids| ==> tamanio[i] == SizeUpTo(ids, i, c - 1)
    {
      Mark(tamanio, SizeMask(ids, c), c);
      c := c + 1;
    }
  }

  /** Each household gets exactly one non-zero size: its head's, which is its
      member count truncated at 6. */
  lemma {:induction false} SizeClassMeaning(ids: seq<int>, j: nat)
    requires j < |ids|
    ensures exists i :: 0 <= i < |ids| && ids[i] == ids[j] && SizeClass(ids, i) != 0
    ensures forall i :: 0 <= i < |ids| && ids[i] == ids[j] && SizeClass(ids, i) != 0 ==>
      IsHead(ids, i) && SizeClass(ids, i) == (if Members(ids, j) >= 6 then 6 else Members(ids, j))
    ensures forall i, k ::
      (0 <= i < |ids| && 0 <= k < |ids| && ids[i] == ids[j] && ids[k] == ids[j] &&
       SizeClass(ids, i) != 0 && SizeClass(ids, k) != 0) ==> i == k
  {
    var h := HeadExists(ids, j);
    assert SizeClass(ids, h) != 0;
    forall i, k | 0 <= i < k < |ids| && IsHead(ids, k) ensures ids[i] != ids[k] {
      HeadFirst(ids, i, k);
    }
  }

  /* ---------------- size distribution ---------------- */

  /** The weight of the rows in class c (heads only, since other rows are 0). */
  function ClassWeight(t: seq<int>, w: seq<real>, c: int): real
    requires |t| == |w|
  {
    LabelSum(w, t, c, Id)
  }

  /** The percentage of each size class present: its weight over the weight
      of all classes 1 .. 6, times 100. With a zero total the percentages are
      NaN: None. */
  function SizeShares(t: seq<int>, w: seq<real>): (r: Option<map<int, real>>)
    requires |t| == |w|
    ensures r.None? <==> LabelSumRange(w, t, 1, 7, Id) == 0.0
    ensures r.Some? ==> r.value.Keys == set c | c in Labels(t) && 1 <= c <= 6
  {
    var total := LabelSumRange(w, t, 1, 7, Id);
    if total == 0.0 then None
    else Some(map c | c in Labels(t) && 1 <= c <= 6 :: ClassWeight(t, w, c) / total * 100.0)
  }

  /** The sum of the percentage column over the classes lo .. hi - 1. */
  function PercentTotal(m: map<int, real>, lo: int, hi: int): real
    decreases hi - lo
  {
    if hi <= lo then 0.0 else PercentTotal(m, lo, hi - 1) + (if hi - 1 in m then m[hi - 1] else 0.0)
  }

  lemma {:induction false} PercentTotalStep(t: seq<int>, w: seq<real>, hi: int)
    requires |t| == |w| && SizeShares(t, w).Some? && 1 <= hi <= 7
    ensures PercentTotal(SizeShares(t, w).value, 1, hi)
         == LabelSumRange(w, t, 1, hi, Id) / LabelSumRange(w, t, 1, 7, Id) * 100.0
    decreases hi
  {
    var m := SizeShares(t, w).value;
    var total := LabelSumRange(w, t, 1, 7, Id);
    if hi > 1 {
      var c := hi - 1;
      PercentTotalStep(t, w, c);
      var a, b := LabelSumRange(w, t, 1, c, Id), ClassWeight(t, w, c);
      assert LabelSumRange(w, t, 1, hi, Id) == a + b;
      var entry := if c in m then m[c] else 0.0;
      assert entry == b / total * 100.0 by {
        if c !in Labels(t) {
          forall i | 0 <= i < |t| ensures t[i] != c {
            assert t[i] in Labels(t);
          }
          LabelSumAbsent(w, t, c, Id);
          assert 0.0 / total == 0.0;
        }
      }
      assert PercentTotal(m, 1, hi) == PercentTotal(m, 1, c) + entry;
      ScaledSum(a, b, total, 100.0);
    } else {
      assert 0.0 / total == 0.0;
    }
  }

  /** The percentages of the size classes add up to 100. */
  lemma {:induction false} SizeSharesSumTo100(t: seq<int>, w: seq<real>)
    requires |t| == |w| && SizeShares(t, w).Some?
    ensures PercentTotal(SizeShares(t, w).value, 1, 7) == 100.0
  {
    PercentTotalStep(t, w, 7);
    var total := LabelSumRange(w, t, 1, 7, Id);
    SelfRatio(total, total);
  }

  /** The size cell for one survey: classify, then take the distribution. */
  method SizeDistribution(ids: seq<int>, w: seq<real>) returns (r: Option<map<int, real>>)
    requires |ids| == |w|
    ensures r == SizeShares(SizeColumn(ids), w)
  {
    var tamanio := HouseholdSizes(ids);
    assert tamanio[..] == SizeColumn(ids);
    r := SizeShares(tamanio[..], w);
  }

  function SizeColumn(ids: seq<int>): (t: seq<int>)
    ensures |t| == |ids| && forall i :: 0 <= i < |ids| ==> t[i] == SizeClass(ids, i)
  {
    seq(|ids|, i requires 0 <= i < |ids| => SizeClass(ids, i))
  }

  /* ---------------- intra-household redistribution ---------------- */

  /** The total of a column over household h (groupby('id').transform('sum')). */
  function HouseholdTotal(ids: seq<int>, v: seq<real>, h: int): real
    requires |ids| == |v|
  {
    LabelSum(v, ids, h, Id)
  }

  /** impuesto: every member pays ty times their per-capita income. */
  function Taxes(ipcf: seq<real>, ty: real): (tax: seq<real>)
    ensures |tax| == |ipcf| && forall i :: 0 <= i < |ipcf| ==> tax[i] == ipcf[i] * ty
  {
    seq(|ipcf|, i requires 0 <= i < |ipcf| => ipcf[i] * ty)
  }

  /** subsidio: the household's whole tax for the head, 0 for the others. */
  function Subsidies(ids: seq<int>, tax: seq<real>): (sub: seq<real>)
    requires |ids| == |tax|
    ensures |sub| == |ids|
    ensures forall i :: 0 <= i < |ids| ==> sub[i] == if IsHead(ids, i) then HouseholdTotal(ids, tax, ids[i]) else 0.0
  {
    seq(|ids|, i requires 0 <= i < |ids| => if IsHead(ids, i) then HouseholdTotal(ids, tax, ids[i]) else 0.0)
  }

  /** ipcf_star = ipcf - impuesto + subsidio. */
  function Redistributed(ids: seq<int>, ipcf: seq<real>, ty: real): (star: seq<real>)
    requires |ids| == |ipcf|
    ensures |star| == |ipcf|
    ensures forall i :: 0 <= i < |ipcf| ==>
      star[i] == ipcf[i] - Taxes(ipcf, ty)[i] + Subsidies(ids, Taxes(ipcf, ty))[i]
  {
    var tax := Taxes(ipcf, ty);
    var sub := Subsidies(ids, tax);
    seq(|ipcf|, i requires 0 <= i < |ipcf| => ipcf[i] - tax[i] + sub[i])
  }

  /** subsidio as written: every row gets its household's total tax, then
      the rows other than the head are set to 0. */
  method HeadSubsidies(ids: seq<int>, impuesto: seq<real>) returns (subsidio: array<real>)
    requires |ids| == |impuesto|
    ensures fresh(subsidio) && subsidio[..] == Subsidies(ids, impuesto)
  {
    subsidio := new real[|ids|](i requires 0 <= i < |ids| => HouseholdTotal(ids, impuesto, ids[i]));
    var i := 0;
    while i < |ids|
      invariant 0 <= i <= |ids|
      invariant forall k :: 0 <= k < |ids| ==>
        subsidio[k] == if k < i && !IsHead(ids, k) then 0.0 else HouseholdTotal(ids, impuesto, ids[k])
    {
      if !IsHead(ids, i) {
        subsidio[i] := 0.0;
      }
      i := i + 1;
    }
    assert subsidio[..] == Subsidies(ids, impuesto);
  }

  /** The cell as written: the tax column, the subsidy column, then the new
      income. */
  method Redistribute(ids: seq<int>, ipcf: seq<real>, ty: real) returns (star: array<real>)
    requires |ids| == |ipcf|
    ensures fresh(star) && star[..] == Redistributed(ids, ipcf, ty)
  {
    var impuesto := Taxes(ipcf, ty);
    var subsidio := HeadSubsidies(ids, impuesto);
    var sub := subsidio[..];
    star := new real[|ids|];
    var k := 0;
    while k < |ids|
      invariant 0 <= k <= |ids|
      invariant forall m :: 0 <= m < k ==> star[m] == ipcf[m] - impuesto[m] + sub[m]
    {
      star[k] := ipcf[k] - impuesto[k] + sub[k];
      k := k + 1;
    }
    assert star[..] == Redistributed(ids, ipcf, ty);
  }

  /** Household sums are additive over columns. */
  lemma {:induction false} HouseholdTotalCombine(ids: seq<int>, a: seq<real>, b: seq<real>, c: seq<real>, d: seq<real>, h: int)
    requires |ids| == |a| == |b| == |c| == |d|
    requires forall i :: 0 <= i < |ids| ==> d[i] == a[i] - b[i] + c[i]
    ensures HouseholdTotal(ids, d, h) == HouseholdTotal(ids, a, h) - HouseholdTotal(ids, b, h) + HouseholdTotal(ids, c, h)
    decreases |ids|
  {
    if |ids| > 0 {
      var n := |ids| - 1;
      HouseholdTotalCombine(ids[..n], a[..n], b[..n], c[..n], d[..n], h);
    }
  }

  /** Over the first n rows, the subsidies of household h add up to its whole
      tax once its head has been passed, and to 0 before. */
  lemma {:induction false} SubsidyPrefix(ids: seq<int>, tax: seq<real>, h: int, n: nat)
    requires |ids| == |tax| && n <= |ids|
    ensures HouseholdTotal(ids[..n], Subsidies(ids, tax)[..n], h)
         == if h in ids[..n] then HouseholdTotal(ids, tax, h) else 0.0
    decreases n
  {
    var sub := Subsidies(ids, tax);
    if n > 0 {
      var m := n - 1;
      SubsidyPrefix(ids, tax, h, m);
      assert ids[..n][..m] == ids[..m];
      assert sub[..n][..m] == sub[..m];
      assert ids[..n] == ids[..m] + [ids[m]];
      assert ids[..m] == ids[..n][..m];
    }
  }

  /** The redistribution keeps every household's total income: what its
      members pay, its head receives. */
  lemma {:induction false} HouseholdIncomeKept(ids: seq<int>, ipcf: seq<real>, ty: real, h: int)
    requires |ids| == |ipcf|
    ensures HouseholdTotal(ids, Redistributed(ids, ipcf, ty), h) == HouseholdTotal(ids, ipcf, h)
  {
    var tax := Taxes(ipcf, ty);
    var sub := Subsidies(ids, tax);
    HouseholdTotalCombine(ids, ipcf, tax, sub, Redistributed(ids, ipcf, ty), h);
    SubsidyPrefix(ids, tax, h, |ids|);
    assert ids[..|ids|] == ids && sub[..|ids|] == sub;
    if h !in ids {
      forall i | 0 <= i < |ids| ensures ids[i] != h {
        assert ids[i] in ids;
      }
      LabelSumAbsent(tax, ids, h, Id);
    }
  }

  /** A zero rate leaves every income as it was. */
  lemma {:induction false} ZeroRateNeutral(ids: seq<int>, ipcf: seq<real>)
    requires |ids| == |ipcf|
    ensures Redistributed(ids, ipcf, 0.0) == ipcf
  {
    var tax := Taxes(ipcf, 0.0);
    forall h ensures HouseholdTotal(ids, tax, h) == 0.0 {
      ZeroColumn(ids, tax, h);
    }
    assert forall i :: 0 <= i < |ipcf| ==> Redistributed(ids, ipcf, 0.0)[i] == ipcf[i];
  }

  lemma {:induction false} ZeroColumn(ids: seq<int>, v: seq<real>, h: int)
    requires |ids| == |v| && forall i :: 0 <= i < |v| ==> v[i] == 0.0
    ensures HouseholdTotal(ids, v, h) == 0.0
    decreases |ids|
  {
    if |ids| > 0 {
      ZeroColumn(ids[..|ids| - 1], v[..|v| - 1], h);
    }
  }

  /** The simulation cell: ratq51 on the redistributed income. */
  function RatioAfterTax(ids: seq<int>, ipcf: seq<real>, w: seq<real>, ty: real): Result<real>
    requires |ids| == |ipcf| == |w|
  {
    Q5OverQ1(Some(Redistributed(ids, ipcf, ty)), w)
  }

  /** At rate 0 the simulated ratio is the ratio of the original incomes. */
  lemma {:induction false} RatioAtZeroRate(ids: seq<int>, ipcf: seq<real>, w: seq<real>)
    requires |ids| == |ipcf| == |w|
    ensures RatioAfterTax(ids, ipcf, w, 0.0) == Q5OverQ1(Some(ipcf), w)
  {
    ZeroRateNeutral(ids, ipcf);
  }
}
