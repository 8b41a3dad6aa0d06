/** fillvector: the training-vector source used when an ALN is trained
    without a fixed data array.  A TRfile row is drawn at random; when the
    average ALN is being trained the inputs are jittered within each axis'
    tolerance and the output is replaced by the mean of the ensemble at the
    jittered point.  The random values are inputs, in the order drawn. */
module FillVector {
  import opened Tables

  /** `(long)floor(r * nRowsTR)`. */
  function RowIndex(r: real, nRowsTR: int): (row: int)
    requires 0.0 <= r < 1.0 && nRowsTR >= 1
    ensures 0 <= row < nRowsTR
  {
    var y := r * nRowsTR as real;
    assert y < nRowsTR as real;
    y.Floor
  }

  /** `ens(0, x) + … + ens(n-1, x)`, accumulated in ensemble order. */
  function EnsembleSum(ens: (nat, seq<real>) -> real, n: nat, x: seq<real>): real {
    if n == 0 then 0.0 else EnsembleSum(ens, n - 1, x) + ens(n - 1, x)
  }

  /** The bagged value at `x`: the arithmetic mean of the `n` ALNs. */
  function Mean(ens: (nat, seq<real>) -> real, n: nat, x: seq<real>): real
    requires n >= 1
  {
    EnsembleSum(ens, n, x) / n as real
  }

  /** How many random values one call draws: one for the row, and two per
      input axis when averaging. */
  function Draws(nDim: nat, averaging: bool): nat
    requires nDim >= 1
  {
    if averaging then 1 + 2 * (nDim - 1) else 1
  }

  /** The jitter loop: input `i` of `row` moves by
      `(rands[1+2i] - rands[2+2i])·eps[i]`; the output coordinate is kept. */
  method Jitter(row: Row, nDim: nat, eps: seq<real>, rands: seq<real>) returns (x: seq<real>)
    requires nDim >= 1 && |row| == nDim && |eps| >= nDim - 1
    requires |rands| >= 1 + 2 * (nDim - 1)
    requires forall k :: 0 <= k < |rands| ==> 0.0 <= rands[k] < 1.0
    ensures |x| == nDim && x[nDim - 1] == row[nDim - 1]
    ensures forall i :: 0 <= i < nDim - 1 ==> x[i] == row[i] + (rands[1 + 2 * i] - rands[2 + 2 * i]) * eps[i]
    ensures forall i :: 0 <= i < nDim - 1 && eps[i] > 0.0 ==> -eps[i] < x[i] - row[i] < eps[i]
  {
    x := row;
    var next := 1;
    var i := 0;
    while i < nDim - 1
      invariant 0 <= i <= nDim - 1 && |x| == nDim && next == 1 + 2 * i
      invariant forall k :: 0 <= k < i ==> x[k] == row[k] + (rands[1 + 2 * k] - rands[2 + 2 * k]) * eps[k]
      invariant forall k :: 0 <= k < i && eps[k] > 0.0 ==> -eps[k] < x[k] - row[k] < eps[k]
      invariant forall k :: i <= k < nDim ==> x[k] == row[k]
    {
      var r1 := rands[next];
      var r2 := rands[next + 1];
      next := next + 2;
      ghost var x0 := x;
      var e := eps[i];
      var d := (r1 - r2) * e;
      if e > 0.0 {
        JitterInsideBox(r1, r2, e, d);
      }
      x := x[i := x[i] + d];
      assert x[i] - row[i] == d;
      assert forall k :: 0 <= k < i ==> x[k] == x0[k];
      i := i + 1;
    }
  }

  /** The averaging loop: the sum of the `nALNs` evaluations at `x`, over
      nALNs. */
  method EnsembleMean(ens: (nat, seq<real>) -> real, nALNs: int, x: seq<real>) returns (mean: real)
    requires nALNs >= 1
    ensures mean == Mean(ens, nALNs, x)
  {
    var sum := 0.0;
    var n := 0;
    while n < nALNs
      invariant 0 <= n <= nALNs
      invariant sum == EnsembleSum(ens, n, x)
    {
      sum := sum + ens(n, x);
      n := n + 1;
    }
    mean := sum / nALNs as real;
  }

  /** fillvector.  The row is `RowIndex(rands[0], nRowsTR)`.  Without
      averaging the vector is that TRfile row unchanged.  With averaging,
      input `i` moves by `(rands[1+2i] - rands[2+2i])·eps[i]`, strictly less
      than the tolerance, and the output becomes the ensemble mean at the
      jittered point (whose output coordinate is still the row's). */
  method FillVector(tr: Table, nRowsTR: int, nDim: nat, averaging: bool, eps: seq<real>,
                    nALNs: int, ens: (nat, seq<real>) -> real, rands: seq<real>)
    returns (x: seq<real>, row: int)
    requires nDim >= 1 && Shaped(tr, nDim) && 1 <= nRowsTR <= |tr|
    requires |rands| >= Draws(nDim, averaging)
    requires forall k :: 0 <= k < |rands| ==> 0.0 <= rands[k] < 1.0
    requires averaging ==> nALNs >= 1 && |eps| >= nDim - 1
    ensures row == RowIndex(rands[0], nRowsTR) && 0 <= row < nRowsTR
    ensures |x| == nDim
    ensures !averaging ==> x == tr[row]
    ensures averaging ==>
      && (forall i :: 0 <= i < nDim - 1 ==> x[i] == tr[row][i] + (rands[1 + 2 * i] - rands[2 + 2 * i]) * eps[i])
      && (forall i :: 0 <= i < nDim - 1 && eps[i] > 0.0 ==> -eps[i] < x[i] - tr[row][i] < eps[i])
      && x[nDim - 1] == Mean(ens, nALNs, x[..nDim - 1] + [tr[row][nDim - 1]])
  {
    row := RowIndex(rands[0], nRowsTR);
    x := seq(nDim, _ => 0.0);
    var i := 0;
    while i < nDim
      invariant 0 <= i <= nDim && |x| == nDim
      invariant forall k :: 0 <= k < i ==> x[k] == tr[row][k]
    {
      x := x[i := tr[row][i]];
      i := i + 1;
    }
    if averaging {
      x := Jitter(x, nDim, eps, rands);
      var mean := EnsembleMean(ens, nALNs, x);
      assert x == x[..nDim - 1] + [tr[row][nDim - 1]];
      x := x[nDim - 1 := mean];
    }
  }

  /** The jitter of an input axis stays strictly inside the tolerance box
      `(-eps, eps)`, for random values in [0, 1). */
  lemma JitterInsideBox(r1: real, r2: real, eps: real, d: real)
    requires 0.0 <= r1 < 1.0 && 0.0 <= r2 < 1.0 && eps > 0.0
    requires d == (r1 - r2) * eps
    ensures -eps < d && d < eps
  {
    var a := r1 - r2;
    assert 0.0 < 1.0 - a && 0.0 < 1.0 + a;
    assert (1.0 - a) * eps > 0.0 && (1.0 + a) * eps > 0.0;
    assert (1.0 - a) * eps == eps - d;
    assert (1.0 + a) * eps == eps + d;
  }

  /** The ensemble sum lies between `n` times the smallest and `n` times the
      largest member value. */
  lemma {:induction false} EnsembleSumBounds(ens: (nat, seq<real>) -> real, n: nat, x: seq<real>, lo: real, hi: real)
    requires forall k :: 0 <= k < n ==> lo <= ens(k, x) <= hi
    ensures n as real * lo <= EnsembleSum(ens, n, x) <= n as real * hi
  {
    if n > 0 {
      EnsembleSumBounds(ens, n - 1, x, lo, hi);
    }
  }

  /** The bagged target lies between the smallest and the largest member
      value; when every member agrees on a value, that value is the target. */
  lemma MeanBetweenMembers(ens: (nat, seq<real>) -> real, n: nat, x: seq<real>, lo: real, hi: real)
    requires n >= 1
    requires forall k :: 0 <= k < n ==> lo <= ens(k, x) <= hi
    ensures lo <= Mean(ens, n, x) <= hi
  {
    EnsembleSumBounds(ens, n, x, lo, hi);
  }

  /** When all members agree at `x`, the bagged target is their common value. */
  lemma MeanOfAgreeingMembers(ens: (nat, seq<real>) -> real, n: nat, x: seq<real>, v: real)
    requires n >= 1
    requires forall k :: 0 <= k < n ==> ens(k, x) == v
    ensures Mean(ens, n, x) == v
  {
    MeanBetweenMembers(ens, n, x, v, v);
  }
}
