/**
 * Income by source: labour (ila), pensions (ijubi), capital (icap),
 * transfers (itran) and other non-labour income (ionl). A row's total income
 * itot counts a missing source as 0; each source's weighted sum skips missing
 * values the same way; and the shares reported are labour, capital, and
 * pensions plus transfers, each over the weighted total.
 */
module Sources {
  import opened Stats

  /** One survey row: the five sources (None where missing) and the weight. */
  datatype SourceRow = SourceRow(
    ila: Option<real>,
    ijubi: Option<real>,
    icap: Option<real>,
    itran: Option<real>,
    ionl: Option<real>,
    w: real)

  /** fillna(0). */
  function Fill(v: Option<real>): real
  {
    if v.Some? then v.value else 0.0
  }

  /** itot of one row: the five sources with missing ones counted as 0. */
  function RowTotal(r: SourceRow): real
  {
    Fill(r.ila) + Fill(r.ijubi) + Fill(r.icap) + Fill(r.itran) + Fill(r.ionl)
  }

  /** The weighted terms of each source and of itot. */
  function Labor(r: SourceRow): real { r.w * Fill(r.ila) }
  function Pension(r: SourceRow): real { r.w * Fill(r.ijubi) }
  function Capital(r: SourceRow): real { r.w * Fill(r.icap) }
  function Transfer(r: SourceRow): real { r.w * Fill(r.itran) }
  function Other(r: SourceRow): real { r.w * Fill(r.ionl) }
  function Total(r: SourceRow): real { r.w * RowTotal(r) }

  /** The three columns of the results table. */
  datatype SourceShares = SourceShares(labor: real, capital: real, transfers: real)

  /** ila / itot, icap / itot and (ijubi + itran) / itot; a zero itot makes
      every share NaN or infinite. */
  function Shares(rows: seq<SourceRow>): (r: Result<SourceShares>)
    ensures r.Err? <==> SumOf(rows, Total) == 0.0
    ensures r.Err? ==> r.error == ZeroIncomeSum
  {
    var itot := SumOf(rows, Total);
    if itot == 0.0 then Err(ZeroIncomeSum)
    else Ok(SourceShares(
      SumOf(rows, Labor) / itot,
      SumOf(rows, Capital) / itot,
      (SumOf(rows, Pension) + SumOf(rows, Transfer)) / itot))
  }

  /** The weighted total is the sum of the five weighted source totals. */
  lemma {:induction false} TotalIsSumOfSources(rows: seq<SourceRow>)
    ensures SumOf(rows, Total) == SumOf(rows, Labor) + SumOf(rows, Pension) + SumOf(rows, Capital)
                                + SumOf(rows, Transfer) + SumOf(rows, Other)
    decreases |rows|
  {
    if |rows| > 0 {
      var n := |rows| - 1;
      var r := rows[n];
      TotalIsSumOfSources(rows[..n]);
      assert Total(r) == Labor(r) + Pension(r) + Capital(r) + Transfer(r) + Other(r);
    }
  }

  /** The three shares and the share of other non-labour income add up to 1. */
  lemma {:induction false} SharesAddUp(rows: seq<SourceRow>)
    requires Shares(rows).Ok?
    ensures var s := Shares(rows).value;
      s.labor + s.capital + s.transfers + SumOf(rows, Other) / SumOf(rows, Total) == 1.0
  {
    var itot := SumOf(rows, Total);
    TotalIsSumOfSources(rows);
    var l, p, c, t, o := SumOf(rows, Labor), SumOf(rows, Pension), SumOf(rows, Capital), SumOf(rows, Transfer), SumOf(rows, Other);
    QuotientSum(l, c, itot);
    QuotientSum(l + c, p + t, itot);
    QuotientSum(l + c + (p + t), o, itot);
    SelfRatio(l + c + (p + t) + o, itot);
  }

  /** Every source of every row, and every weight, is non-negative. */
  predicate NonNegSources(rows: seq<SourceRow>)
  {
    forall i :: 0 <= i < |rows| ==>
      rows[i].w >= 0.0 && Fill(rows[i].ila) >= 0.0 && Fill(rows[i].ijubi) >= 0.0 &&
      Fill(rows[i].icap) >= 0.0 && Fill(rows[i].itran) >= 0.0 && Fill(rows[i].ionl) >= 0.0
  }

  /** A weighted term of non-negative factors is non-negative. */
  lemma {:induction false} WeightedNonNeg(w: real, v: real)
    requires w >= 0.0 && v >= 0.0
    ensures w * v >= 0.0
  {
    MulMono(w, 0.0, v);
  }

  lemma {:induction false} SourceSumsNonNeg(rows: seq<SourceRow>)
    requires NonNegSources(rows)
    ensures SumOf(rows, Labor) >= 0.0 && SumOf(rows, Pension) >= 0.0 && SumOf(rows, Capital) >= 0.0
    ensures SumOf(rows, Transfer) >= 0.0 && SumOf(rows, Other) >= 0.0
  {
    forall i | 0 <= i < |rows|
      ensures Labor(rows[i]) >= 0.0 && Pension(rows[i]) >= 0.0 && Capital(rows[i]) >= 0.0
      ensures Transfer(rows[i]) >= 0.0 && Other(rows[i]) >= 0.0
    {
      var r := rows[i];
      WeightedNonNeg(r.w, Fill(r.ila));
      WeightedNonNeg(r.w, Fill(r.ijubi));
      WeightedNonNeg(r.w, Fill(r.icap));
      WeightedNonNeg(r.w, Fill(r.itran));
      WeightedNonNeg(r.w, Fill(r.ionl));
    }
    SumOfNonNeg(rows, Labor);
    SumOfNonNeg(rows, Pension);
    SumOfNonNeg(rows, Capital);
    SumOfNonNeg(rows, Transfer);
    SumOfNonNeg(rows, Other);
  }

  /** With non-negative sources and weights every share lies in [0, 1], and
      the three reported shares leave the share of other income, 1 minus
      their sum, non-negative. */
  lemma {:induction false} SharesBounded(rows: seq<SourceRow>)
    requires NonNegSources(rows) && Shares(rows).Ok?
    ensures var s := Shares(rows).value;
      0.0 <= s.labor <= 1.0 && 0.0 <= s.capital <= 1.0 && 0.0 <= s.transfers <= 1.0 &&
      s.labor + s.capital + s.transfers <= 1.0
  {
    var itot := SumOf(rows, Total);
    TotalIsSumOfSources(rows);
    SourceSumsNonNeg(rows);
    var l, p, c, t, o := SumOf(rows, Labor), SumOf(rows, Pension), SumOf(rows, Capital), SumOf(rows, Transfer), SumOf(rows, Other);
    ShareInUnit(l, itot);
    ShareInUnit(c, itot);
    ShareInUnit(p + t, itot);
    ShareInUnit(l + c + (p + t), itot);
    QuotientSum(l, c, itot);
    QuotientSum(l + c, p + t, itot);
  }
}
