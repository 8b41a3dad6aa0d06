/** Evaluation of one linear piece (an LFN leaf) of an ALN, as done by
    AdaptEvalLFN: the value of the affine function at a point, with the
    side effects the adaptive routines rely on (the leaf becomes the active
    leaf, its eval flag is raised and the value is cached as its distance). */
module LeafEval {

  /** The NF_EVAL bit of a node's flag word.  Its numeric value is defined in
      aln.h, which is not part of this model; nothing here depends on which
      single bit it is. */
  const NF_EVAL: bv32 := 0x0000_0008

  /** A node of the ALN tree, stored in an arena and addressed by index.
      An LFN holds its weight vector `w` (bias first, then one weight per
      axis, the output axis last) and its centroid `c`; a MIN/MAX node holds
      the indices of its children. */
  datatype Node =
    | Lfn(flags: bv32, distance: real, vdim: nat, hasVarMap: bool, w: seq<real>, c: seq<real>)
    | MinMax(flags: bv32, distance: real, isMin: bool, children: seq<nat>)

  /** `NODE_FLAGS(pNode) |= NF_EVAL`: the eval bit is raised and every other
      bit of the flag word is kept. */
  function WithEvalFlag(flags: bv32): (r: bv32)
    ensures r & NF_EVAL == NF_EVAL
    ensures r & !NF_EVAL == flags & !NF_EVAL
  {
    flags | NF_EVAL
  }

  /** An LFN whose weight and centroid arrays have the lengths its vector
      dimension calls for. */
  predicate WellFormedLeaf(n: Node) {
    n.Lfn? && |n.w| == n.vdim + 1 && |n.c| == n.vdim
  }

  /** `w[1]·x[0] + … + w[n]·x[n-1]`, accumulated in increasing index order. */
  function WeightedSum(w: seq<real>, x: seq<real>, n: nat): real
    requires n < |w| && n <= |x|
  {
    if n == 0 then 0.0 else WeightedSum(w, x, n - 1) + w[n] * x[n - 1]
  }

  /** The value of the affine piece with weights `w` over the first `nDim`
      coordinates of `x`. */
  function LeafValue(w: seq<real>, x: seq<real>, nDim: nat): real
    requires nDim < |w| && nDim <= |x|
  {
    w[0] + WeightedSum(w, x, nDim)
  }

  /** Evaluates leaf `p` of the arena at `x` for an ALN of dimension `nDim`.
      The value is returned, the leaf is reported as the active one, and in
      the returned arena the leaf has its NF_EVAL bit set and its distance set
      to the value; nothing else changes. */
  method AdaptEvalLFN(nodes: seq<Node>, p: nat, nDim: nat, x: seq<real>)
    returns (value: real, nodes': seq<Node>, active: nat)
    requires p < |nodes| && WellFormedLeaf(nodes[p])
    requires !nodes[p].hasVarMap
    requires nodes[p].vdim == nDim
    requires nDim <= |x|
    ensures active == p
    ensures value == LeafValue(nodes[p].w, x, nDim)
    ensures |nodes'| == |nodes|
    ensures forall q :: 0 <= q < |nodes| && q != p ==> nodes'[q] == nodes[q]
    ensures nodes'[p] == Lfn(WithEvalFlag(nodes[p].flags), value, nodes[p].vdim, nodes[p].hasVarMap,
                             nodes[p].w, nodes[p].c)
  {
    active := p;
    var node := nodes[p];
    var flags := WithEvalFlag(node.flags);
    var w := node.w;
    var a := w[0];
    var i := 0;
    while i < nDim
      invariant 0 <= i <= nDim
      invariant a == w[0] + WeightedSum(w, x, i)
    {
      a := a + w[i + 1] * x[i];
      i := i + 1;
    }
    value := a;
    nodes' := nodes[p := Lfn(flags, a, node.vdim, node.hasVarMap, w, node.c)];
  }

  /** Changing one coordinate `x[i]` by `d` changes the weighted sum by
      `d·w[i+1]` when the coordinate is among the first `n`, and not at all
      otherwise. */
  lemma {:induction false} WeightedSumShift(w: seq<real>, x: seq<real>, n: nat, i: nat, d: real)
    requires n < |w| && n <= |x| && i < |x|
    ensures WeightedSum(w, x[i := x[i] + d], n)
         == WeightedSum(w, x, n) + (if i < n then d * w[i + 1] else 0.0)
  {
    if n > 0 {
      WeightedSumShift(w, x, n - 1, i, d);
    }
  }

  /** The piece is affine in every coordinate it reads: moving `x[i]` by `d`
      moves the value by exactly `d·w[i+1]`. */
  lemma LeafValueAffine(w: seq<real>, x: seq<real>, nDim: nat, i: nat, d: real)
    requires nDim < |w| && nDim <= |x| && i < nDim
    ensures LeafValue(w, x[i := x[i] + d], nDim) == LeafValue(w, x, nDim) + d * w[i + 1]
  {
    WeightedSumShift(w, x, nDim, i, d);
  }

  /** Coordinates at or beyond `nDim` are never read. */
  lemma LeafValueIgnoresTail(w: seq<real>, x: seq<real>, nDim: nat, i: nat, d: real)
    requires nDim < |w| && nDim <= |x| && nDim <= i < |x|
    ensures LeafValue(w, x[i := x[i] + d], nDim) == LeafValue(w, x, nDim)
  {
    WeightedSumShift(w, x, nDim, i, d);
  }

  /** The weighted sum reads only the weights `w[1..n]` and the coordinates
      `x[..n]`. */
  lemma {:induction false} WeightedSumAgree(w: seq<real>, x: seq<real>, w': seq<real>, x': seq<real>, n: nat)
    requires n < |w| && n <= |x| && n < |w'| && n <= |x'|
    requires forall k :: 1 <= k <= n ==> w[k] == w'[k]
    requires forall k :: 0 <= k < n ==> x[k] == x'[k]
    ensures WeightedSum(w, x, n) == WeightedSum(w', x', n)
  {
    if n > 0 {
      WeightedSumAgree(w, x, w', x', n - 1);
    }
  }

  /** With the output coordinate `x[nDim-1]` set to 0, as doLinearRegression
      does before evaluating each training row, the output weight contributes
      nothing and the value is the prediction from the inputs alone. */
  lemma OutputAxisZero(w: seq<real>, x: seq<real>, nDim: nat)
    requires 1 <= nDim < |w| && nDim <= |x|
    requires x[nDim - 1] == 0.0
    ensures LeafValue(w, x, nDim) == w[0] + WeightedSum(w, x, nDim - 1)
  {
  }

  /** With the output weight fixed at -1, the value at a point is the piece's
      prediction from the inputs minus the point's output coordinate: zero
      exactly when the point lies on the piece. */
  lemma OutputWeightMinusOne(w: seq<real>, x: seq<real>, nDim: nat)
    requires 1 <= nDim < |w| && nDim <= |x|
    requires w[nDim] == -1.0
    ensures LeafValue(w, x, nDim) == w[0] + WeightedSum(w, x, nDim - 1) - x[nDim - 1]
    ensures LeafValue(w, x, nDim) == 0.0 <==> x[nDim - 1] == w[0] + WeightedSum(w, x, nDim - 1)
  {
  }
}
