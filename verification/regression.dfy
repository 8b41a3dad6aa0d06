/** The hand-over from the linear-regression phase (doLinearRegression):
    the single leaf's weights and centroids are copied out, the centroids are
    folded into the bias, and the output weight is fixed at -1. */
module Regression {
  import opened LeafEval

  /** Coordinate-wise difference `x[m] - c[m]` over the first `n` axes. */
  function Diff(x: seq<real>, c: seq<real>, n: nat): (d: seq<real>)
    requires n <= |x| && n <= |c|
    ensures |d| == n
    ensures forall m :: 0 <= m < n ==> d[m] == x[m] - c[m]
  {
    seq(n, m requires 0 <= m < n => x[m] - c[m])
  }

  /** Copies the linear-regression leaf into the arrays adblLRW (weights) and
      adblLRC (centroids) and folds the centroid terms into the bias:
      `lrw[0] = c[nDim-1] - Σ w[m+1]·c[m]` over the inputs, `lrw[nDim] = -1`. */
  method ExtractRegression(leaf: Node, nDim: nat) returns (lrw: seq<real>, lrc: seq<real>)
    requires WellFormedLeaf(leaf) && leaf.vdim == nDim && nDim >= 1
    ensures |lrw| == nDim + 1 && |lrc| == nDim
    ensures lrc == leaf.c
    ensures forall m :: 1 <= m < nDim ==> lrw[m] == leaf.w[m]
    ensures lrw[nDim] == -1.0
    ensures lrw[0] == leaf.c[nDim - 1] - WeightedSum(leaf.w, leaf.c, nDim - 1)
  {
    lrw := seq(nDim + 1, _ => 0.0);
    lrc := seq(nDim, _ => 0.0);
    var m := 0;
    while m < nDim - 1
      invariant 0 <= m <= nDim - 1
      invariant |lrw| == nDim + 1 && |lrc| == nDim
      invariant forall k :: 0 <= k < m ==> lrc[k] == leaf.c[k]
      invariant forall k :: 1 <= k <= m ==> lrw[k] == leaf.w[k]
    {
      lrc := lrc[m := leaf.c[m]];
      lrw := lrw[m + 1 := leaf.w[m + 1]];
      m := m + 1;
    }
    lrc := lrc[nDim - 1 := leaf.c[nDim - 1]];
    var bias := leaf.c[nDim - 1];
    m := 0;
    while m < nDim - 1
      invariant 0 <= m <= nDim - 1
      invariant bias == leaf.c[nDim - 1] - WeightedSum(lrw, lrc, m)
    {
      bias := bias - lrw[m + 1] * lrc[m];
      m := m + 1;
    }
    WeightedSumAgree(lrw, lrc, leaf.w, leaf.c, nDim - 1);
    lrw := lrw[0 := bias];
    lrw := lrw[nDim := -1.0];
  }

  /** The weighted sum is linear in the point: the difference of the sums at
      `x` and at `c` is the sum at `x - c`. */
  lemma {:induction false} WeightedSumDifference(w: seq<real>, x: seq<real>, c: seq<real>, n: nat)
    requires n < |w| && n <= |x| && n <= |c|
    ensures WeightedSum(w, x, n) - WeightedSum(w, c, n) == WeightedSum(w, Diff(x, c, n), n)
  {
    if n > 0 {
      WeightedSumDifference(w, x, c, n - 1);
      var d := Diff(x, c, n);
      var d' := Diff(x, c, n - 1);
      WeightedSumAgree(w, d, w, d', n - 1);
    }
  }

  /** Folding the centroids into the bias does not change the piece: for
      every point, `lrw[0] + Σ lrw[m+1]·x[m]` equals
      `c[nDim-1] + Σ w[m+1]·(x[m] - c[m])`, the centred form the leaf was
      trained in; at the centroid itself the value is `c[nDim-1]`. */
  lemma FoldedBiasIsCentredForm(leaf: Node, nDim: nat, lrw: seq<real>, x: seq<real>)
    requires WellFormedLeaf(leaf) && leaf.vdim == nDim && nDim >= 1
    requires |lrw| == nDim + 1
    requires forall m :: 1 <= m < nDim ==> lrw[m] == leaf.w[m]
    requires lrw[0] == leaf.c[nDim - 1] - WeightedSum(leaf.w, leaf.c, nDim - 1)
    requires nDim - 1 <= |x|
    ensures lrw[0] + WeightedSum(lrw, x, nDim - 1)
         == leaf.c[nDim - 1] + WeightedSum(leaf.w, Diff(x, leaf.c, nDim - 1), nDim - 1)
    ensures (forall m :: 0 <= m < nDim - 1 ==> x[m] == leaf.c[m]) ==>
              lrw[0] + WeightedSum(lrw, x, nDim - 1) == leaf.c[nDim - 1]
  {
    WeightedSumAgree(lrw, x, leaf.w, x, nDim - 1);
    WeightedSumDifference(leaf.w, x, leaf.c, nDim - 1);
    if forall m :: 0 <= m < nDim - 1 ==> x[m] == leaf.c[m] {
      WeightedSumAgree(leaf.w, x, leaf.w, leaf.c, nDim - 1);
    }
  }

  /** Evaluating the folded weight vector as a leaf, at a point whose inputs
      are the centroid's and whose output coordinate is 0 (the program zeroes
      it before evaluating), gives back the centroid's output value. */
  lemma FoldedLeafAtCentroid(leaf: Node, nDim: nat, lrw: seq<real>, x: seq<real>)
    requires WellFormedLeaf(leaf) && leaf.vdim == nDim && nDim >= 1
    requires |lrw| == nDim + 1
    requires forall m :: 1 <= m < nDim ==> lrw[m] == leaf.w[m]
    requires lrw[0] == leaf.c[nDim - 1] - WeightedSum(leaf.w, leaf.c, nDim - 1)
    requires |x| == nDim && x[nDim - 1] == 0.0
    requires forall m :: 0 <= m < nDim - 1 ==> x[m] == leaf.c[m]
    ensures LeafValue(lrw, x, nDim) == leaf.c[nDim - 1]
  {
    OutputAxisZero(lrw, x, nDim);
    FoldedBiasIsCentredForm(leaf, nDim, lrw, x);
  }
}
