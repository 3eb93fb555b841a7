/**
 * N-tile bucketing of a cumulative population share. Every bucketing loop of
 * the notebooks (quintiles, gcuan's N-tiles, the growth-incidence
 * percentiles) starts from a column of "no bucket" and, for i = 1 .. last,
 * writes i into the rows whose share s satisfies (i - 1)/n < s <= i/n. The
 * model writes "no bucket" (pandas' 0 or NaN) as 0.
 */
module Tiles {
  import opened Stats

  /** The smallest integer not below r. */
  function Ceil(r: real): (c: int)
    ensures (c - 1) as real < r <= c as real
  {
    -((-r).Floor)
  }

  lemma {:induction false} CeilUnique(r: real, c: int)
    requires (c - 1) as real < r <= c as real
    ensures Ceil(r) == c
  {
  }

  /** a / n < s exactly when a < s * n, for n > 0. */
  lemma {:induction false} ScaleLt(a: real, s: real, n: real)
    requires n > 0.0
    ensures a / n < s <==> a < s * n
  {
    var q := a / n;
    assert a == q * n;
    assert s * n - q * n == (s - q) * n;
    if q < s {
      ProductPositive(s - q, n);
    } else {
      MulMono(n, s, q);
    }
  }

  /** s <= b / n exactly when s * n <= b, for n > 0. */
  lemma {:induction false} ScaleLe(s: real, b: real, n: real)
    requires n > 0.0
    ensures s <= b / n <==> s * n <= b
  {
    var q := b / n;
    assert b == q * n;
    assert q * n - s * n == (q - s) * n;
    if s <= q {
      MulMono(n, s, q);
    } else {
      ProductPositive(s - q, n);
    }
  }

  /** Bucket i of n: (i - 1)/n < s <= i/n. */
  predicate InTile(s: real, i: int, n: int)
    requires n >= 1
  {
    (i - 1) as real / n as real < s <= i as real / n as real
  }

  /** The bucket of a share among n equal buckets: ceil(s * n) for 0 < s <= 1,
      and no bucket otherwise. */
  function TileOf(s: real, n: int): (t: int)
    ensures 0 <= t && (n >= 1 ==> t <= n)
    ensures t == 0 <==> n < 1 || s <= 0.0 || s > 1.0
  {
    if n >= 1 && 0.0 < s <= 1.0 then
      var N := n as real;
      MulMono(N, s, 1.0);
      ProductPositive(s, N);
      Ceil(s * N)
    else 0
  }

  /** The defining property of the bucket: a share gets bucket i exactly when it
      lies in ((i - 1)/n, i/n]. */
  lemma {:induction false} TileOfInterval(s: real, n: int, i: int)
    requires 1 <= i <= n
    ensures TileOf(s, n) == i <==> InTile(s, i, n)
  {
    var N := n as real;
    ScaleLt((i - 1) as real, s, N);
    ScaleLe(s, i as real, N);
    if InTile(s, i, n) {
      DivMono(0.0, (i - 1) as real, N);
      assert 0.0 / N == 0.0;
      DivMono(i as real, N, N);
      SelfRatio(N, N);
      CeilUnique(s * N, i);
    }
  }

  /** Over shares up to 1, a larger share never gets a smaller bucket. */
  lemma {:induction false} TileOfMonotone(s: real, s2: real, n: int)
    requires s <= s2 <= 1.0
    ensures TileOf(s, n) <= TileOf(s2, n)
  {
    if TileOf(s, n) != 0 {
      MulMono(n as real, s, s2);
    }
  }

  /** The column left by the masks i = 1 .. last: the bucket when it is among the
      first last buckets, 0 otherwise. */
  function TileUpTo(s: real, n: int, last: int): (t: int)
    ensures 0 <= t && (t > 0 ==> t <= last && TileOf(s, n) == t)
  {
    var t := TileOf(s, n);
    if t <= last then t else 0
  }

  /** Mask i moves a row into bucket i exactly when its share lies in bucket i. */
  lemma {:induction false} TileUpToStep(s: real, n: int, i: int)
    requires 1 <= i <= n
    ensures TileUpTo(s, n, i) == if InTile(s, i, n) then i else TileUpTo(s, n, i - 1)
  {
    TileOfInterval(s, n, i);
  }

  /** The boolean mask of the rows whose share lies in bucket i of n. */
  function TileMask(shr: seq<real>, i: int, n: int): (m: seq<bool>)
    requires n >= 1
    ensures |m| == |shr| && forall k :: 0 <= k < |shr| ==> m[k] == InTile(shr[k], i, n)
  {
    seq(|shr|, k requires 0 <= k < |shr| => InTile(shr[k], i, n))
  }

  /** A masked assignment: writes v into the selected rows and leaves the others. */
  method Mark(col: array<int>, mask: seq<bool>, v: int)
    requires |mask| == col.Length
    modifies col
    ensures forall k :: 0 <= k < col.Length ==> col[k] == if mask[k] then v else old(col[k])
  {
    var k := 0;
    while k < col.Length
      invariant 0 <= k <= col.Length
      invariant forall m :: 0 <= m < col.Length ==> col[m] == if m < k && mask[m] then v else old(col[m])
    {
      if mask[k] {
        col[k] := v;
      }
      k := k + 1;
    }
  }

  /** The bucketing loop: a column of zeros, then for i = 1 .. last the rows with
      (i - 1)/n < share <= i/n get i. gcuan runs it with last = n; the
      growth-incidence percentiles with n = 100 and last = 99. */
  method AssignTiles(shr: seq<real>, n: int, last: int) returns (t: array<int>)
    requires last <= n
    ensures fresh(t) && t.Length == |shr|
    ensures forall k :: 0 <= k < |shr| ==> t[k] == TileUpTo(shr[k], n, last)
  {
    t := new int[|shr|](_ => 0);
    var i := 1;
    while i <= last
      invariant if last >= 1 then 1 <= i <= last + 1 else i == 1
      invariant forall k :: 0 <= k < |shr| ==> t[k] == TileUpTo(shr[k], n, i - 1)
    {
      Mark(t, TileMask(shr, i, n), i);
      forall k | 0 <= k < |shr| ensures t[k] == TileUpTo(shr[k], n, i) {
        TileUpToStep(shr[k], n, i);
      }
      i := i + 1;
    }
    forall k | 0 <= k < |shr| ensures TileUpTo(shr[k], n, i - 1) == TileUpTo(shr[k], n, last) {
    }
  }

  /* ---------------- quintiles ---------------- */

  /** The first quintile mask differs between the notebook's copies of the
      quintile block: in one the precedence of `&` over `>=` turns it into
      "share at least 0"; in ratq51 it is "share in [0, 0.2]"; in the others
      it is "share at most 0.2". */
  datatype FirstMask = AtLeastZero | ZeroToFifth | UpToFifth

  predicate FirstMaskHolds(f: FirstMask, s: real)
  {
    match f
    case AtLeastZero => s >= 0.0
    case ZeroToFifth => 0.0 <= s <= 0.2
    case UpToFifth => s <= 0.2
  }

  /** The quintile column after the five masks, each later mask overwriting the
      earlier ones. */
  function QuintileOf(s: real, f: FirstMask): (q: int)
    ensures 0 <= q <= 5
  {
    if InTile(s, 5, 5) then 5
    else if InTile(s, 4, 5) then 4
    else if InTile(s, 3, 5) then 3
    else if InTile(s, 2, 5) then 2
    else if FirstMaskHolds(f, s) then 1
    else 0
  }

  /** On shares in [0, 1] all three copies agree with the N-tile rule for n = 5,
      except that a share of exactly 0 falls in quintile 1. */
  lemma {:induction false} QuintileRule(s: real, f: FirstMask)
    requires 0.0 <= s <= 1.0
    ensures QuintileOf(s, f) == if s == 0.0 then 1 else TileOf(s, 5)
  {
    if s > 0.0 {
      var c := TileOf(s, 5);
      TileOfInterval(s, 5, 1);
      TileOfInterval(s, 5, 2);
      TileOfInterval(s, 5, 3);
      TileOfInterval(s, 5, 4);
      TileOfInterval(s, 5, 5);
    }
  }

  /** Over shares in [0, 1] a larger share never gets a lower quintile. */
  lemma {:induction false} QuintileMonotone(s: real, s2: real, f: FirstMask)
    requires 0.0 <= s <= s2 <= 1.0
    ensures QuintileOf(s, f) <= QuintileOf(s2, f)
  {
    QuintileRule(s, f);
    QuintileRule(s2, f);
    TileOfMonotone(s, s2, 5);
  }

  /** Outside [0, 1] the copies differ: above 1 only the precedence-parsed mask
      assigns quintile 1; below 0 ratq51's copy assigns nothing. */
  lemma {:induction false} QuintileOutside(s: real)
    ensures s > 1.0 ==> QuintileOf(s, AtLeastZero) == 1 && QuintileOf(s, ZeroToFifth) == 0 && QuintileOf(s, UpToFifth) == 0
    ensures s < 0.0 ==> QuintileOf(s, AtLeastZero) == 0 && QuintileOf(s, ZeroToFifth) == 0 && QuintileOf(s, UpToFifth) == 1
  {
  }

  /** The quintile block: the first mask, then the masks for quintiles 2 .. 5. */
  method AssignQuintiles(shr: seq<real>, f: FirstMask) returns (q: array<int>)
    ensures fresh(q) && q.Length == |shr|
    ensures forall k :: 0 <= k < |shr| ==> q[k] == QuintileOf(shr[k], f)
  {
    q := new int[|shr|](_ => 0);
    Mark(q, seq(|shr|, k requires 0 <= k < |shr| => FirstMaskHolds(f, shr[k])), 1);
    Mark(q, TileMask(shr, 2, 5), 2);
    Mark(q, TileMask(shr, 3, 5), 3);
    Mark(q, TileMask(shr, 4, 5), 4);
    Mark(q, TileMask(shr, 5, 5), 5);
  }
}
