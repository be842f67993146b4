/** Broadcast offset tables (`dgl/src/bcast.cc`).  Axes are numbered from the last one; axis
    0 is the fastest.  The first axis of an operand is its batch and is never broadcast. */
module Bcast {
  import opened Arith

  // ---------------------------------------------------------------- row-major positions

  /** The size of axis j from the back; missing axes count as 1. */
  function Axis(shape: seq<nat>, j: nat): nat {
    if |shape| < j + 2 then 1 else shape[|shape| - 1 - j]
  }

  /** The axes that the tables are about: from axis j up to axis n. */
  function Axes(shape: seq<nat>, j: nat, n: nat): (d: seq<nat>)
    requires j <= n
    ensures |d| == n - j && forall t | 0 <= t < |d| :: d[t] == Axis(shape, j + t)
    decreases n - j
  {
    if j == n then [] else [Axis(shape, j)] + Axes(shape, j + 1, n)
  }

  function Max(a: nat, b: nat): nat { if a >= b then a else b }

  function Outer(a: seq<nat>, b: seq<nat>): (o: seq<nat>)
    requires |a| == |b|
    ensures |o| == |a| && forall t | 0 <= t < |o| :: o[t] == Max(a[t], b[t])
  {
    seq(|a|, t requires 0 <= t < |a| => Max(a[t], b[t]))
  }

  /** The number of positions that the first t axes span. */
  function Prod(d: seq<nat>, t: nat): nat
    requires t <= |d|
  {
    if t == 0 then 1 else Prod(d, t - 1) * d[t - 1]
  }

  /** The row-major position of multi-index x in an array of axes d, from axis i on. */
  function RowMajor(d: seq<nat>, x: seq<nat>, i: nat): nat
    requires |x| == |d| && i <= |d|
    decreases |d| - i
  {
    if i == |d| then 0 else x[i] + d[i] * RowMajor(d, x, i + 1)
  }

  ghost predicate Within(d: seq<nat>, x: seq<nat>) {
    |x| == |d| && forall t | 0 <= t < |d| :: x[t] < d[t]
  }

  /** A multi-index of the output as an operand sees it: its broadcast axes stay at 0. */
  function Mask(d: seq<nat>, x: seq<nat>): (r: seq<nat>)
    requires |x| == |d|
    ensures |r| == |d| && forall t | 0 <= t < |d| :: r[t] == if d[t] == 1 then 0 else x[t]
  {
    seq(|d|, t requires 0 <= t < |d| => if d[t] == 1 then 0 else x[t])
  }

  predicate PositiveTo(d: seq<nat>, n: nat)
    requires n <= |d|
  {
    forall t | 0 <= t < n :: d[t] >= 1
  }

  predicate Positive(d: seq<nat>) { PositiveTo(d, |d|) }

  /** Operand axes d broadcast to output axes o. */
  predicate Broadcasts(d: seq<nat>, o: seq<nat>) {
    |d| == |o| && forall t | 0 <= t < |d| :: 1 <= d[t] && (d[t] == o[t] || d[t] == 1)
  }

  // ---- sums, which grow at the slow end as the tables do

  function Sum(d: seq<nat>, x: seq<nat>, t: nat): nat
    requires |x| == |d| && t <= |d|
  {
    if t == 0 then 0 else Sum(d, x, t - 1) + x[t - 1] * Prod(d, t - 1)
  }

  lemma {:induction false} SumThenRowMajor(d: seq<nat>, x: seq<nat>, t: nat)
    requires |x| == |d| && t <= |d|
    ensures RowMajor(d, x, 0) == Sum(d, x, t) + Prod(d, t) * RowMajor(d, x, t)
  {
    if t > 0 {
      SumThenRowMajor(d, x, t - 1);
      assert RowMajor(d, x, t - 1) == x[t - 1] + d[t - 1] * RowMajor(d, x, t);
      OneAxisOver(Prod(d, t - 1), x[t - 1], d[t - 1], RowMajor(d, x, t));
      assert Prod(d, t) == Prod(d, t - 1) * d[t - 1];
      hide Prod, RowMajor;
    }
  }

  lemma OneAxisOver(p: nat, x: nat, n: nat, r: nat)
    ensures p * (x + n * r) == x * p + (p * n) * r
  {
    MulDistributes(x, n * r, p);
    MulAssoc(p, n, r);
    assert p * (x + n * r) == (x + n * r) * p && (n * r) * p == p * (n * r);
  }

  lemma SumIsRowMajor(d: seq<nat>, x: seq<nat>)
    requires |x| == |d|
    ensures Sum(d, x, |d|) == RowMajor(d, x, 0)
  {
    SumThenRowMajor(d, x, |d|);
  }

  lemma {:induction false} SumBelow(d: seq<nat>, x: seq<nat>, t: nat)
    requires Within(d, x) && t <= |d|
    ensures Sum(d, x, t) < Prod(d, t)
  {
    if t > 0 {
      SumBelow(d, x, t - 1);
      MulMono(x[t - 1], d[t - 1], Prod(d, t - 1));
    }
  }

  // ---------------------------------------------------------------- what the loop computes

  /** Entry k of an operand's table over the first t axes. */
  function Offset(d: seq<nat>, o: seq<nat>, t: nat, k: nat): nat
    requires |d| == |o| && t <= |o| && Prod(o, t) > k
  {
    if t == 0 then 0
    else
      var p := Prod(o, t - 1);
      Split(p, o[t - 1], k);
      Offset(d, o, t - 1, k % p) + Shift(k / p, d[t - 1], Prod(d, t - 1))
  }

  /** How far step i along an axis of size n and stride s moves an operand. */
  function Shift(i: nat, n: nat, s: nat): nat {
    if i < n then i * s else 0
  }

  lemma Split(p: nat, n: nat, k: nat)
    requires k < p * n
    ensures p > 0 && k % p < p && k / p < n
  {
    DivMod(k, p);
    MulLe(n, k / p, p);
    assert p * n == n * p;
  }

  /** The table holds, at the row-major position of each output index, the operand's row-major
      position of that index with broadcast axes zeroed. */
  lemma {:induction false} OffsetOfSum(d: seq<nat>, o: seq<nat>, x: seq<nat>, t: nat)
    requires Broadcasts(d, o) && Within(o, x) && t <= |o|
    ensures Sum(o, x, t) < Prod(o, t) && Offset(d, o, t, Sum(o, x, t)) == Sum(d, Mask(d, x), t)
  {
    SumBelow(o, x, t);
    if t > 0 {
      OffsetOfSum(d, o, x, t - 1);
      ModUnique(Sum(o, x, t), x[t - 1], Prod(o, t - 1), Sum(o, x, t - 1));
    }
  }

  lemma OffsetIsBroadcast(d: seq<nat>, o: seq<nat>, x: seq<nat>)
    requires Broadcasts(d, o) && Within(o, x)
    ensures RowMajor(o, x, 0) < Prod(o, |o|)
    ensures Offset(d, o, |o|, RowMajor(o, x, 0)) == RowMajor(d, Mask(d, x), 0)
  {
    SumIsRowMajor(o, x);
    SumIsRowMajor(d, Mask(d, x));
    OffsetOfSum(d, o, x, |o|);
  }

  /** Every output position is that of one output index. */
  function Unravel(o: seq<nat>, t: nat, k: nat): (x: seq<nat>)
    requires t <= |o| && k < Prod(o, t)
    ensures |x| == t && forall i | 0 <= i < t :: x[i] < o[i]
  {
    if t == 0 then []
    else
      var p := Prod(o, t - 1);
      Split(p, o[t - 1], k);
      Unravel(o, t - 1, k % p) + [k / p]
  }

  lemma {:induction false} SumOfUnravel(o: seq<nat>, t: nat, k: nat, x: seq<nat>)
    requires t <= |o| == |x| && k < Prod(o, t) && x[..t] == Unravel(o, t, k)
    ensures Sum(o, x, t) == k
  {
    if t > 0 {
      var p := Prod(o, t - 1);
      Split(p, o[t - 1], k);
      assert x[..t - 1] == x[..t][..t - 1] == Unravel(o, t - 1, k % p);
      SumOfUnravel(o, t - 1, k % p, x);
      DivMod(k, p);
      assert x[..t][t - 1] == k / p;
    }
  }

  lemma PositionsAreCovered(o: seq<nat>, k: nat)
    requires k < Prod(o, |o|)
    ensures Within(o, Unravel(o, |o|, k)) && RowMajor(o, Unravel(o, |o|, k), 0) == k
  {
    var x := Unravel(o, |o|, k);
    assert x[..|o|] == x;
    SumOfUnravel(o, |o|, k, x);
    SumIsRowMajor(o, x);
  }

  /** Without broadcasting the table would be the identity. */
  lemma {:induction false} OffsetIdentity(o: seq<nat>, t: nat, k: nat)
    requires t <= |o| && k < Prod(o, t)
    ensures Offset(o, o, t, k) == k
  {
    if t > 0 {
      var p := Prod(o, t - 1);
      Split(p, o[t - 1], k);
      OffsetIdentity(o, t - 1, k % p);
      DivMod(k, p);
    }
  }

  // ---------------------------------------------------------------- the code

  datatype BcastOff = BcastOff(
    lhsOffset: seq<nat>,
    rhsOffset: seq<nat>,
    useBcast: bool,
    lhsLen: nat,
    rhsLen: nat,
    outLen: nat,
    reduceSize: nat)

  predicate Copies(op: string) { op == "copy_lhs" || op == "copy_rhs" }

  /** `UseBcast`: false exactly for copies and for operands of equal feature shapes. */
  method UseBcast(op: string, lhs: seq<nat>, rhs: seq<nat>) returns (b: bool)
    requires |lhs| >= 1 && |rhs| >= 1
    ensures b <==> !Copies(op) && lhs[1..] != rhs[1..]
  {
    if op == "copy_lhs" || op == "copy_rhs" { return false; }
    if |lhs| != |rhs| {
      assert |lhs[1..]| != |rhs[1..]|;
      return true;
    }
    var i := 1;
    while i < |lhs|
      invariant 1 <= i <= |lhs|
      invariant forall k | 1 <= k < i :: lhs[k] == rhs[k]
    {
      if lhs[i] != rhs[i] {
        assert lhs[1..][i - 1] != rhs[1..][i - 1];
        return true;
      }
      i := i + 1;
    }
    return false;
  }

  /** The product of all axes but the batch. */
  method Length(shape: seq<nat>) returns (n: nat)
    requires |shape| >= 1
    ensures n == Prod(shape[1..], |shape| - 1)
  {
    n := 1;
    var i := 1;
    while i < |shape|
      invariant 1 <= i <= |shape| && n == Prod(shape[1..], i - 1)
    {
      n := n * shape[i];
      i := i + 1;
    }
  }

  /** `ts[..]` are the first entries of an operand's table. */
  ghost predicate TableIs(ts: seq<nat>, d: seq<nat>, o: seq<nat>, t: nat) {
    |d| == |o| && t <= |o| && forall k: nat {:trigger ts[k]} | k < |ts| :: k < Prod(o, t) && ts[k] == Offset(d, o, t, k)
  }

  /** One more axis leaves the entries that are there. */
  lemma TableGoesOn(ts: seq<nat>, d: seq<nat>, o: seq<nat>, t: nat)
    requires TableIs(ts, d, o, t) && t < |o| && o[t] >= 1 && |ts| == Prod(o, t)
    ensures TableIs(ts, d, o, t + 1)
  {
    var p := Prod(o, t);
    MulGe(o[t], p);
    forall k: nat | k < |ts| ensures k < Prod(o, t + 1) && ts[k] == Offset(d, o, t + 1, k) {
      assert k < Prod(o, t + 1);
      ModUnique(k, 0, p, k);
    }
  }

  /** The entry that step i, k of the loop appends. */
  lemma TableGrows(first: seq<nat>, ts: seq<nat>, d: seq<nat>, o: seq<nat>, t: nat, i: nat, k: nat)
    requires TableIs(ts, d, o, t + 1) && t < |o| && i < o[t] && k < Prod(o, t) && |ts| == i * Prod(o, t) + k && i >= 1
    requires TableIs(first, d, o, t) && |first| == Prod(o, t) && k < |ts| && ts[k] == first[k]
    ensures TableIs(ts + [ts[k] + Shift(i, d[t], Prod(d, t))], d, o, t + 1)
  {
    var p := Prod(o, t);
    MulMono(i, o[t], p);
    ModUnique(|ts|, i, p, k);
  }

  // ---- the axes of an operation

  /** `dot` leaves its last axis out of the tables and reduces over it. */
  function FirstAxis(op: string): nat { if op == "dot" then 1 else 0 }

  function Rank(lhs: seq<nat>, rhs: seq<nat>): nat
    requires |lhs| >= 1 && |rhs| >= 1
  {
    Max(|lhs|, |rhs|) - 1
  }

  predicate Operands(op: string, lhs: seq<nat>, rhs: seq<nat>) {
    |lhs| >= 1 && |rhs| >= 1 && FirstAxis(op) <= Rank(lhs, rhs)
  }

  function OutAxes(op: string, lhs: seq<nat>, rhs: seq<nat>): (o: seq<nat>)
    requires Operands(op, lhs, rhs)
    ensures |o| == Rank(lhs, rhs) - FirstAxis(op)
    ensures forall t | 0 <= t < |o| :: o[t] >= Axes(lhs, FirstAxis(op), Rank(lhs, rhs))[t]
  {
    Outer(Axes(lhs, FirstAxis(op), Rank(lhs, rhs)), Axes(rhs, FirstAxis(op), Rank(lhs, rhs)))
  }

  /** The two inner loops of `CalcBcastOff`: one axis, of size dl and dr. */
  method AppendAxis(lsIn: seq<nat>, rsIn: seq<nat>, ghost dls: seq<nat>, ghost drs: seq<nat>, ghost o: seq<nat>,
          ghost t: nat, outLen: nat, dl: nat, dr: nat, strideL: nat, strideR: nat)
    returns (ls: seq<nat>, rs: seq<nat>)
    requires |lsIn| == |rsIn| && outLen <= |lsIn| && |dls| == |drs| == |o| && t < |o|
    requires outLen == Prod(o, t) && dl == dls[t] && dr == drs[t] && o[t] == Max(dl, dr)
    requires strideL == Prod(dls, t) && strideR == Prod(drs, t)
    ensures |ls| == |rs|
    ensures outLen == 0 || o[t] == 0 ==> ls == lsIn && rs == rsIn
    ensures |lsIn| == outLen && o[t] >= 1 ==> |ls| == Prod(o, t + 1)
    ensures |lsIn| == outLen && o[t] >= 1 && TableIs(lsIn, dls, o, t) ==> TableIs(ls, dls, o, t + 1)
    ensures |lsIn| == outLen && o[t] >= 1 && TableIs(rsIn, drs, o, t) ==> TableIs(rs, drs, o, t + 1)
  {
    hide TableIs, Shift;
    ls, rs := lsIn, rsIn;
    ghost var n := Max(dl, dr);
    ghost var growing := |lsIn| == outLen && n >= 1;
    ghost var left, right := growing && TableIs(lsIn, dls, o, t), growing && TableIs(rsIn, drs, o, t);
    if left { TableGoesOn(ls, dls, o, t); }
    if right { TableGoesOn(rs, drs, o, t); }
    var i := 1;
    while i < Max(dl, dr)
      invariant 1 <= i && (growing ==> i <= n) && |ls| == |rs| >= |lsIn|
      invariant outLen == 0 || n == 0 ==> ls == lsIn && rs == rsIn
      invariant growing ==> |ls| == i * outLen
      invariant forall x | 0 <= x < |lsIn| :: ls[x] == lsIn[x] && rs[x] == rsIn[x]
      invariant (left ==> TableIs(ls, dls, o, t + 1)) && (right ==> TableIs(rs, drs, o, t + 1))
    {
      var k := 0;
      while k < outLen
        invariant 0 <= k <= outLen && |ls| == |rs| >= |lsIn|
        invariant outLen == 0 ==> ls == lsIn && rs == rsIn
        invariant growing ==> |ls| == i * outLen + k
        invariant forall x | 0 <= x < |lsIn| :: ls[x] == lsIn[x] && rs[x] == rsIn[x]
        invariant (left ==> TableIs(ls, dls, o, t + 1)) && (right ==> TableIs(rs, drs, o, t + 1))
      {
        if left { TableGrows(lsIn, ls, dls, o, t, i, k); }
        if right { TableGrows(rsIn, rs, drs, o, t, i, k); }
        ls := ls + [ls[k] + Shift(i, dl, strideL)];
        rs := rs + [rs[k] + Shift(i, dr, strideR)];
        k := k + 1;
      }
      MulDistributes(i, 1, outLen);
      i := i + 1;
    }
  }

  lemma ProdStep(d: seq<nat>, t: nat)
    requires t < |d|
    ensures Prod(d, t + 1) == Prod(d, t) * d[t]
    ensures PositiveTo(d, t + 1) <==> PositiveTo(d, t) && d[t] >= 1
  {}

  lemma NoAxes(d: seq<nat>, o: seq<nat>)
    requires |d| == |o|
    ensures Prod(d, 0) == Prod(o, 0) == 1 && PositiveTo(o, 0) && TableIs([0], d, o, 0)
  {}

  /** The loops of `CalcBcastOff`. */
  method Tables(op: string, lhs: seq<nat>, rhs: seq<nat>) returns (outLen: nat, ls: seq<nat>, rs: seq<nat>)
    requires Operands(op, lhs, rhs)
    ensures var o := OutAxes(op, lhs, rhs);
      && outLen == Prod(o, |o|) && |ls| == |rs|
      && (|ls| == outLen <==> Positive(o))
      && (Positive(o) ==>
            && TableIs(ls, Axes(lhs, FirstAxis(op), Rank(lhs, rhs)), o, |o|)
            && TableIs(rs, Axes(rhs, FirstAxis(op), Rank(lhs, rhs)), o, |o|))
  {
    hide TableIs, Prod, PositiveTo;
    var maxNdim := Max(|lhs|, |rhs|) - 1;
    outLen := 1;
    var j := if op == "dot" then 1 else 0;
    var strideL, strideR := 1, 1;
    ls, rs := [0], [0];
    ghost var j0 := j;
    ghost var dls, drs, o := Axes(lhs, j0, maxNdim), Axes(rhs, j0, maxNdim), OutAxes(op, lhs, rhs);
    NoAxes(dls, o);
    NoAxes(drs, o);
    while j < maxNdim
      invariant j0 <= j <= maxNdim && |ls| == |rs| >= 1
      invariant outLen == Prod(o, j - j0) && strideL == Prod(dls, j - j0) && strideR == Prod(drs, j - j0)
      invariant |ls| == outLen <==> PositiveTo(o, j - j0)
      invariant |ls| != outLen ==> outLen == 0
      invariant |ls| == outLen ==> TableIs(ls, dls, o, j - j0) && TableIs(rs, drs, o, j - j0)
    {
      var dl := if |lhs| < j + 2 then 1 else lhs[|lhs| - 1 - j];
      var dr := if |rhs| < j + 2 then 1 else rhs[|rhs| - 1 - j];
      ghost var t := j - j0;
      ProdStep(o, t);
      ProdStep(dls, t);
      ProdStep(drs, t);
      assert dl == dls[t] && dr == drs[t] && o[t] == Max(dl, dr);
      ls, rs := AppendAxis(ls, rs, dls, drs, o, t, outLen, dl, dr, strideL, strideR);
      outLen := outLen * Max(dl, dr);
      strideL := strideL * dl;
      strideR := strideR * dr;
      j := j + 1;
    }
  }

  // ---------------------------------------------------------------- lengths

  /** The product of the feature axes does not depend on the direction. */
  lemma {:induction false} LengthFromBack(shape: seq<nat>, t: nat)
    requires |shape| >= 1 && t <= |shape| - 1
    ensures var f, d := shape[1..], Axes(shape, 0, |shape| - 1); Prod(f, |f|) == Prod(f, |f| - t) * Prod(d, t)
  {
    var f, d := shape[1..], Axes(shape, 0, |shape| - 1);
    if t > 0 {
      LengthFromBack(shape, t - 1);
      assert d[t - 1] == f[|f| - t];
      ProdEnds(f, d, t);
    } else { assert Prod(d, 0) == 1; }
  }

  /** One axis goes from the one product to the other. */
  lemma ProdEnds(f: seq<nat>, d: seq<nat>, t: nat)
    requires 1 <= t <= |f| && t <= |d| && d[t - 1] == f[|f| - t]
    ensures Prod(f, |f| - t + 1) * Prod(d, t - 1) == Prod(f, |f| - t) * Prod(d, t)
  {
    var p, q, x := Prod(f, |f| - t), Prod(d, t - 1), d[t - 1];
    assert Prod(f, |f| - t + 1) == p * x && Prod(d, t) == q * x;
    hide Prod;
    MulAssoc(p, x, q);
    assert x * q == q * x;
  }

  /** Leaving out the last axis divides the product by it. */
  lemma {:induction false} WithoutLastAxis(shape: seq<nat>, n: nat, t: nat)
    requires 1 <= t <= n
    ensures Prod(Axes(shape, 0, n), t) == Axis(shape, 0) * Prod(Axes(shape, 1, n), t - 1)
  {
    var d, e := Axes(shape, 0, n), Axes(shape, 1, n);
    if t > 1 {
      WithoutLastAxis(shape, n, t - 1);
      assert d[t - 1] == e[t - 2];
      MulAssoc(Axis(shape, 0), Prod(e, t - 2), e[t - 2]);
    }
  }

  // ---------------------------------------------------------------- the whole

  /** Where the kernels read an operand for output position k. */
  function At(useBcast: bool, table: seq<nat>, k: nat): nat
    requires useBcast ==> k < |table|
  {
    if useBcast then table[k] else k
  }

  ghost predicate Reads(useBcast: bool, table: seq<nat>, d: seq<nat>, o: seq<nat>) {
    && |d| == |o| && (useBcast ==> |table| == Prod(o, |o|))
    && forall x: seq<nat> | Within(o, x) ::
         RowMajor(o, x, 0) < Prod(o, |o|) && At(useBcast, table, RowMajor(o, x, 0)) == RowMajor(d, Mask(d, x), 0)
  }

  lemma TableReads(table: seq<nat>, d: seq<nat>, o: seq<nat>)
    requires |d| == |o| && TableIs(table, d, o, |o|) && |table| == Prod(o, |o|) && Broadcasts(d, o)
    ensures Reads(true, table, d, o)
  {
    forall x: seq<nat> | Within(o, x)
      ensures RowMajor(o, x, 0) < Prod(o, |o|) && At(true, table, RowMajor(o, x, 0)) == RowMajor(d, Mask(d, x), 0)
    {
      OffsetIsBroadcast(d, o, x);
    }
  }

  lemma IdentityReads(table: seq<nat>, o: seq<nat>)
    requires Broadcasts(o, o)
    ensures Reads(false, table, o, o)
  {
    forall x: seq<nat> | Within(o, x)
      ensures RowMajor(o, x, 0) < Prod(o, |o|) && RowMajor(o, x, 0) == RowMajor(o, Mask(o, x), 0)
    {
      OffsetIsBroadcast(o, o, x);
      OffsetIdentity(o, |o|, RowMajor(o, x, 0));
    }
  }

  /** The result serves the operation: its length is the output's, and both operands are read
      at the broadcast position of every output index. */
  ghost predicate Serves(r: BcastOff, op: string, lhs: seq<nat>, rhs: seq<nat>)
    requires Operands(op, lhs, rhs)
  {
    var o := OutAxes(op, lhs, rhs);
    && r.outLen == Prod(o, |o|)
    && Reads(r.useBcast, r.lhsOffset, Axes(lhs, FirstAxis(op), Rank(lhs, rhs)), o)
    && Reads(r.useBcast, r.rhsOffset, Axes(rhs, FirstAxis(op), Rank(lhs, rhs)), o)
  }

  predicate Compatible(op: string, lhs: seq<nat>, rhs: seq<nat>)
    requires Operands(op, lhs, rhs)
  {
    var o := OutAxes(op, lhs, rhs);
    && Broadcasts(Axes(lhs, FirstAxis(op), Rank(lhs, rhs)), o)
    && Broadcasts(Axes(rhs, FirstAxis(op), Rank(lhs, rhs)), o)
  }

  /** Two axes go together if they are equal or one of them is 1. */
  predicate Agree(a: nat, b: nat) { a >= 1 && b >= 1 && (a == b || a == 1 || b == 1) }

  lemma OuterAgrees(a: seq<nat>, b: seq<nat>)
    requires |a| == |b|
    ensures Broadcasts(a, Outer(a, b)) && Broadcasts(b, Outer(a, b)) <==> forall t | 0 <= t < |a| :: Agree(a[t], b[t])
    ensures forall t | 0 <= t < |a| && Agree(a[t], b[t]) :: Outer(a, b)[t] == if a[t] == 1 then b[t] else a[t]
  {
    var o := Outer(a, b);
    if Broadcasts(a, o) && Broadcasts(b, o) {
      forall t | 0 <= t < |a| ensures Agree(a[t], b[t]) { assert o[t] == Max(a[t], b[t]); }
    }
  }

  predicate AgreeAt(lhs: seq<nat>, rhs: seq<nat>, j: nat) { Agree(Axis(lhs, j), Axis(rhs, j)) }

  /** The usual rule of broadcasting: aligned from the last one on, all axes must go together,
      and the output has of each two the one that is not 1. */
  lemma CompatibleExactly(op: string, lhs: seq<nat>, rhs: seq<nat>)
    requires Operands(op, lhs, rhs)
    ensures Compatible(op, lhs, rhs) <==> forall j | FirstAxis(op) <= j < Rank(lhs, rhs) :: AgreeAt(lhs, rhs, j)
    ensures forall j | FirstAxis(op) <= j < Rank(lhs, rhs) && AgreeAt(lhs, rhs, j) ::
      OutAxes(op, lhs, rhs)[j - FirstAxis(op)] == if Axis(lhs, j) == 1 then Axis(rhs, j) else Axis(lhs, j)
  {
    var f, n := FirstAxis(op), Rank(lhs, rhs);
    var dl, dr := Axes(lhs, f, n), Axes(rhs, f, n);
    OuterAgrees(dl, dr);
    forall j | f <= j < n ensures AgreeAt(lhs, rhs, j) == Agree(dl[j - f], dr[j - f]) {}
    hide Broadcasts, Outer, Agree, Axis, Axes, AgreeAt, FirstAxis, Rank;
    if forall j | f <= j < n :: AgreeAt(lhs, rhs, j) {
      forall t | 0 <= t < n - f ensures Agree(dl[t], dr[t]) { assert AgreeAt(lhs, rhs, f + t) == Agree(dl[f + t - f], dr[f + t - f]); }
    }
  }

  /** The loop's output length without broadcasting. */
  lemma PlainLength(shape: seq<nat>, j: nat)
    requires |shape| >= 1 && j <= 1 && j <= |shape| - 1 && (j == 1 ==> shape[|shape| - 1] >= 1)
    ensures var f, o := shape[1..], Axes(shape, j, |shape| - 1);
      Prod(o, |o|) == if j == 1 then Prod(f, |f|) / shape[|shape| - 1] else Prod(f, |f|)
  {
    var f, n := shape[1..], |shape| - 1;
    LengthFromBack(shape, n);
    assert Prod(f, 0) == 1;
    assert Prod(f, n) == Prod(Axes(shape, 0, n), n);
    if j == 1 {
      WithoutLastAxis(shape, n, n);
      var last, p := shape[n], Prod(Axes(shape, 1, n), n - 1);
      assert last * p == p * last;
      ModUnique(Prod(f, n), p, last, 0);
    }
  }

  lemma EqualAxes(lhs: seq<nat>, rhs: seq<nat>, j: nat)
    requires |lhs| >= 1 && |rhs| >= 1 && lhs[1..] == rhs[1..] && j <= |lhs| - 1
    ensures |lhs| == |rhs| && Axes(lhs, j, |lhs| - 1) == Axes(rhs, j, |lhs| - 1)
  {
    assert |lhs[1..]| == |rhs[1..]|;
    var n := |lhs| - 1;
    forall i: nat | i < n ensures Axis(lhs, i) == Axis(rhs, i) {
      assert lhs[n - i] == lhs[1..][n - 1 - i] && rhs[n - i] == rhs[1..][n - 1 - i];
    }
  }

  lemma EqualShapes(op: string, lhs: seq<nat>, rhs: seq<nat>)
    requires Operands(op, lhs, rhs) && lhs[1..] == rhs[1..] && (op == "dot" ==> lhs[|lhs| - 1] >= 1)
    ensures var o := OutAxes(op, lhs, rhs); var f := lhs[1..];
      && Axes(lhs, FirstAxis(op), Rank(lhs, rhs)) == Axes(rhs, FirstAxis(op), Rank(lhs, rhs)) == o
      && Prod(o, |o|) == if op == "dot" then Prod(f, |f|) / lhs[|lhs| - 1] else Prod(f, |f|)
  {
    hide Prod, Axes;
    assert |lhs[1..]| == |rhs[1..]|;
    EqualAxes(lhs, rhs, FirstAxis(op));
    PlainLength(lhs, FirstAxis(op));
    assert OutAxes(op, lhs, rhs) == Axes(lhs, FirstAxis(op), |lhs| - 1);
  }

  /** `CalcBcastOff`. */
  method CalcBcastOff(op: string, lhs: seq<nat>, rhs: seq<nat>) returns (r: BcastOff)
    requires Operands(op, lhs, rhs) && (op == "dot" && lhs[1..] == rhs[1..] ==> lhs[|lhs| - 1] >= 1)
    ensures r.lhsLen == Prod(lhs[1..], |lhs| - 1) && r.rhsLen == Prod(rhs[1..], |rhs| - 1)
    ensures r.useBcast <==> !Copies(op) && lhs[1..] != rhs[1..]
    ensures r.reduceSize == if op == "dot" then lhs[|lhs| - 1] else 1
    ensures Copies(op) ==> r.outLen == if op == "copy_rhs" then r.rhsLen else r.lhsLen
    ensures r.useBcast ==> |r.lhsOffset| == |r.rhsOffset| && (|r.lhsOffset| == r.outLen <==> Positive(OutAxes(op, lhs, rhs)))
    ensures !Copies(op) && Compatible(op, lhs, rhs) ==> Serves(r, op, lhs, rhs)
  {
    hide Prod, TableIs, Reads, Broadcasts, OutAxes, Axes;
    var lhsLen := Length(lhs);
    var rhsLen := Length(rhs);
    var useBcast := UseBcast(op, lhs, rhs);
    ghost var dl, dr, o := Axes(lhs, FirstAxis(op), Rank(lhs, rhs)), Axes(rhs, FirstAxis(op), Rank(lhs, rhs)), OutAxes(op, lhs, rhs);
    if useBcast {
      var reduceSize := if op == "dot" then lhs[|lhs| - 1] else 1;
      var outLen, ls, rs := Tables(op, lhs, rhs);
      r := BcastOff(ls, rs, true, lhsLen, rhsLen, outLen, reduceSize);
      if Compatible(op, lhs, rhs) {
        BroadcastsArePositive(dl, o);
        TableReads(ls, dl, o);
        TableReads(rs, dr, o);
      }
    } else {
      var outLen := if op == "copy_rhs" then rhsLen else lhsLen;
      var reduceSize := 1;
      if op == "dot" {
        reduceSize := lhs[|lhs| - 1];
        outLen := outLen / reduceSize;
      }
      r := BcastOff([], [], false, lhsLen, rhsLen, outLen, reduceSize);
      if !Copies(op) && Compatible(op, lhs, rhs) {
        EqualShapes(op, lhs, rhs);
        IdentityReads([], o);
      }
    }
  }

  lemma BroadcastsArePositive(d: seq<nat>, o: seq<nat>)
    requires Broadcasts(d, o) && forall t | 0 <= t < |o| :: o[t] >= d[t]
    ensures Positive(o)
  {}
}
