/** prepareQuickStart: per-axis tolerances, domain bounds and weight bounds
    for a new ALN, and, for a growable ALN, a root leaf seeded with the
    linear-regression weights and centroids. */
module QuickStart {
  import opened Faults
  import opened LeafEval
  import Regression

  /** The constraint the ALN keeps for one axis: tolerance, domain bounds and
      weight bounds. */
  datatype AxisConstraint = AxisConstraint(epsilon: real, min: real, max: real, wmin: real, wmax: real)

  /** Statistics of the training data, one entry per variable (the output
      variable last), and the a-priori weight bounds per input axis. */
  datatype DataStats = DataStats(
    epsilon: seq<real>, minVar: seq<real>, maxVar: seq<real>, stdevVar: seq<real>,
    minWeight: seq<real>, maxWeight: seq<real>)

  predicate StatsFor(s: DataStats, nDim: nat) {
    && |s.epsilon| == nDim && |s.minVar| == nDim && |s.maxVar| == nDim && |s.stdevVar| == nDim
    && |s.minWeight| >= nDim - 1 && |s.maxWeight| >= nDim - 1
  }

  /** The state of the ALN that prepareQuickStart writes: one constraint per
      variable, the smoothing epsilon of region 0 and the root node. */
  datatype AlnSetup = AlnSetup(constraints: seq<AxisConstraint>, smoothEpsilon: real, root: Node)

  /** The constraint of input axis `m`.  The domain is widened by a tenth of
      the axis' standard deviation on each side.  Outside overtraining the
      weight bounds are ±√3·σ_out/ε, tightened to the a-priori bounds where
      those are tighter; during overtraining the weight bounds are left as
      they were. */
  function AxisSetup(prev: AxisConstraint, s: DataStats, nDim: nat, m: nat, overtrain: bool, sqrt3: real)
    : (r: AxisConstraint)
    requires StatsFor(s, nDim) && m < nDim - 1
    requires s.epsilon[m] != 0.0
    ensures r.epsilon == s.epsilon[m]
    ensures r.min == s.minVar[m] - 0.1 * s.stdevVar[m]
    ensures r.max == s.maxVar[m] + 0.1 * s.stdevVar[m]
    ensures overtrain ==> r.wmin == prev.wmin && r.wmax == prev.wmax
    ensures !overtrain ==>
      var bound := sqrt3 * s.stdevVar[nDim - 1] / s.epsilon[m];
      && r.wmin >= -bound && r.wmin >= s.minWeight[m] && (r.wmin == -bound || r.wmin == s.minWeight[m])
      && r.wmax <= bound && r.wmax <= s.maxWeight[m] && (r.wmax == bound || r.wmax == s.maxWeight[m])
  {
    var eps := s.epsilon[m];
    var lo := s.minVar[m] - 0.1 * s.stdevVar[m];
    var hi := s.maxVar[m] + 0.1 * s.stdevVar[m];
    if overtrain then
      AxisConstraint(eps, lo, hi, prev.wmin, prev.wmax)
    else
      var bound := sqrt3 * s.stdevVar[nDim - 1] / eps;
      // SetWeightMin(-bound), then replaced by the a-priori bound when that is larger
      var wmin := if s.minWeight[m] > -bound then s.minWeight[m] else -bound;
      var wmax := if s.maxWeight[m] < bound then s.maxWeight[m] else bound;
      AxisConstraint(eps, lo, hi, wmin, wmax)
  }

  /** The root leaf after seeding: centroids from adblLRC, weights from
      adblLRW with the output weight fixed at -1; its other fields are kept. */
  function SeedRoot(root: Node, lrw: seq<real>, lrc: seq<real>, nDim: nat): (r: Node)
    requires WellFormedLeaf(root) && root.vdim == nDim && nDim >= 1
    requires |lrw| >= nDim + 1 && |lrc| >= nDim
    ensures WellFormedLeaf(r) && r.vdim == nDim
    ensures r.flags == root.flags && r.distance == root.distance && r.hasVarMap == root.hasVarMap
    ensures r.c == lrc[..nDim]
    ensures r.w[0] == lrw[0] && r.w[nDim] == -1.0
    ensures forall m :: 1 <= m < nDim ==> r.w[m] == lrw[m]
  {
    root.(w := lrw[..nDim] + [-1.0], c := lrc[..nDim])
  }

  /** No input axis has tolerance 0. */
  predicate NoConstantInput(s: DataStats, nDim: nat)
    requires StatsFor(s, nDim)
  {
    forall m :: 0 <= m < nDim - 1 ==> s.epsilon[m] != 0.0
  }

  /** prepareQuickStart.  The axes are visited in order and the first input
      axis whose tolerance is 0 stops the program; otherwise every input
      axis gets its AxisSetup constraint, the output axis' constraint is
      untouched, and a growable ALN gets smoothing σ_out/100 and the seeded
      root, while a non-growable one keeps both. */
  method PrepareQuickStart(aln: AlnSetup, s: DataStats, nDim: nat, overtrain: bool, growable: bool,
                           sqrt3: real, lrw: seq<real>, lrc: seq<real>)
    returns (r: Result<AlnSetup>)
    requires nDim >= 1 && StatsFor(s, nDim) && |aln.constraints| == nDim
    requires WellFormedLeaf(aln.root) && aln.root.vdim == nDim
    requires |lrw| >= nDim + 1 && |lrc| >= nDim
    ensures r.Fail? <==> !NoConstantInput(s, nDim)
    ensures r.Fail? ==> r.fault.ConstantInput? && r.fault.axis < nDim - 1
                        && s.epsilon[r.fault.axis] == 0.0
                        && forall m :: 0 <= m < r.fault.axis ==> s.epsilon[m] != 0.0
    ensures r.Ok? ==>
      && |r.value.constraints| == nDim
      && (forall m :: 0 <= m < nDim - 1 ==>
            r.value.constraints[m] == AxisSetup(aln.constraints[m], s, nDim, m, overtrain, sqrt3))
      && r.value.constraints[nDim - 1] == aln.constraints[nDim - 1]
      && (growable ==> r.value.smoothEpsilon == s.stdevVar[nDim - 1] / 100.0
                       && r.value.root == SeedRoot(aln.root, lrw, lrc, nDim))
      && (!growable ==> r.value.smoothEpsilon == aln.smoothEpsilon && r.value.root == aln.root)
  {
    var cs := aln.constraints;
    var m := 0;
    while m < nDim - 1
      invariant 0 <= m <= nDim - 1
      invariant |cs| == nDim
      invariant forall k :: 0 <= k < m ==> s.epsilon[k] != 0.0
      invariant forall k :: 0 <= k < m ==> cs[k] == AxisSetup(aln.constraints[k], s, nDim, k, overtrain, sqrt3)
      invariant forall k :: m <= k < nDim ==> cs[k] == aln.constraints[k]
    {
      if s.epsilon[m] == 0.0 {
        return Fail(ConstantInput(m));
      }
      cs := cs[m := AxisSetup(cs[m], s, nDim, m, overtrain, sqrt3)];
      m := m + 1;
    }
    var smooth := aln.smoothEpsilon;
    var root := aln.root;
    if growable {
      smooth := s.stdevVar[nDim - 1] / 100.0;
      root := SeedRoot(root, lrw, lrc, nDim);
    }
    r := Ok(AlnSetup(cs, smooth, root));
  }

  /** The widened domain contains every data value of the axis when the
      standard deviation is nonnegative. */
  lemma DomainCoversData(prev: AxisConstraint, s: DataStats, nDim: nat, m: nat, overtrain: bool, sqrt3: real)
    requires StatsFor(s, nDim) && m < nDim - 1 && s.epsilon[m] != 0.0
    requires s.stdevVar[m] >= 0.0
    ensures AxisSetup(prev, s, nDim, m, overtrain, sqrt3).min <= s.minVar[m]
    ensures s.maxVar[m] <= AxisSetup(prev, s, nDim, m, overtrain, sqrt3).max
  {
  }

  /** Outside overtraining, with a positive tolerance, a nonnegative output
      deviation and a-priori bounds that admit 0, the weight interval admits
      the flat weight 0 and never exceeds the a-priori bounds. */
  lemma WeightBoundsAdmitZero(prev: AxisConstraint, s: DataStats, nDim: nat, m: nat, sqrt3: real)
    requires StatsFor(s, nDim) && m < nDim - 1
    requires s.epsilon[m] > 0.0 && s.stdevVar[nDim - 1] >= 0.0 && sqrt3 > 0.0
    requires s.minWeight[m] <= 0.0 <= s.maxWeight[m]
    ensures var r := AxisSetup(prev, s, nDim, m, false, sqrt3);
      r.wmin <= 0.0 <= r.wmax && s.minWeight[m] <= r.wmin && r.wmax <= s.maxWeight[m]
  {
    var bound := sqrt3 * s.stdevVar[nDim - 1] / s.epsilon[m];
    assert sqrt3 * s.stdevVar[nDim - 1] >= 0.0;
    assert bound >= 0.0;
  }

  /** A root seeded from an ExtractRegression result evaluates, at the
      regression centroid with the output coordinate zeroed, to the
      centroid's output value. */
  lemma SeededRootAtCentroid(leaf: Node, root: Node, nDim: nat, lrw: seq<real>, x: seq<real>)
    requires WellFormedLeaf(leaf) && leaf.vdim == nDim && nDim >= 1
    requires WellFormedLeaf(root) && root.vdim == nDim
    requires |lrw| == nDim + 1
    requires forall m :: 1 <= m < nDim ==> lrw[m] == leaf.w[m]
    requires lrw[0] == leaf.c[nDim - 1] - WeightedSum(leaf.w, leaf.c, nDim - 1)
    requires |x| == nDim && x[nDim - 1] == 0.0
    requires forall m :: 0 <= m < nDim - 1 ==> x[m] == leaf.c[m]
    ensures LeafValue(SeedRoot(root, lrw, leaf.c, nDim).w, x, nDim) == leaf.c[nDim - 1]
  {
    var w := SeedRoot(root, lrw, leaf.c, nDim).w;
    OutputAxisZero(w, x, nDim);
    WeightedSumAgree(w, x, lrw, x, nDim - 1);
    Regression.FoldedBiasIsCentredForm(leaf, nDim, lrw, x);
  }
}
