/** createTR_VARfiles: the set-up of the training file TRfile, the noise
    variance file VARfile and the two halves TRfile1 / TRfile2 from the
    training-and-variance file TVfile, in the five modes the program uses. */
module DataFiles {
  import opened Tables
  import opened Faults

  const LINEAR_REGRESSION: int := 0
  const OVERTRAINING1: int := 1
  const OVERTRAINING2: int := 2
  const APPROXIMATION: int := 3
  const BAGGING: int := 4

  /** The coin flip of OVERTRAINING1: a random value below 0.5 sends the row
      to the back of TRfile, any other value to the front. */
  predicate ToFront(r: real) {
    !(r < 0.5)
  }

  /** How many of the first `i` rows go to the front. */
  function CountFront(rands: seq<real>, i: nat): (k: nat)
    requires i <= |rands|
    ensures k <= i
  {
    if i == 0 then 0 else CountFront(rands, i - 1) + (if ToFront(rands[i - 1]) then 1 else 0)
  }

  /** The rows among the first `i` that go to the front, in TVfile order. */
  function FrontRows(tv: Table, rands: seq<real>, i: nat): (f: Table)
    requires i <= |tv| && i <= |rands|
    ensures |f| == CountFront(rands, i)
  {
    if i == 0 then []
    else FrontRows(tv, rands, i - 1) + (if ToFront(rands[i - 1]) then [tv[i - 1]] else [])
  }

  /** The rows among the first `i` that go to the back, in TVfile order. */
  function BackRows(tv: Table, rands: seq<real>, i: nat): (b: Table)
    requires i <= |tv| && i <= |rands|
    ensures |b| == i - CountFront(rands, i)
  {
    if i == 0 then []
    else BackRows(tv, rands, i - 1) + (if ToFront(rands[i - 1]) then [] else [tv[i - 1]])
  }

  function Reverse(s: Table): (r: Table)
    ensures |r| == |s|
    ensures forall k :: 0 <= k < |s| ==> r[k] == s[|s| - 1 - k]
  {
    if s == [] then [] else Reverse(s[1..]) + [s[0]]
  }

  /** The reordered TRfile: the front rows in order, then the back rows in
      reverse order (the back is filled downwards from the last row). */
  function Placed(tv: Table, rands: seq<real>): (p: Table)
    requires |rands| == |tv|
    ensures |p| == |tv|
  {
    FrontRows(tv, rands, |tv|) + Reverse(BackRows(tv, rands, |tv|))
  }

  /** The slot of TRfile that row `i` of TVfile is written to. */
  function Slot(rands: seq<real>, i: nat): int
    requires i < |rands|
  {
    if ToFront(rands[i]) then CountFront(rands, i)
    else |rands| - 1 - (i - CountFront(rands, i))
  }

  /** The state of a table after the first `i` TVfile rows have been placed,
      `tmp0` of them at the front: the first `tmp0` rows are the front rows so
      far, and the last `i - tmp0` rows, read upwards, the back rows so far. */
  ghost predicate PartlyPlaced(t: Table, tv: Table, rands: seq<real>, i: nat, tmp0: nat)
    requires i <= |tv| && i <= |rands|
  {
    && tmp0 <= |t| && i - tmp0 <= |t|
    && t[..tmp0] == FrontRows(tv, rands, i)
    && forall k :: 0 <= k < i - tmp0 ==> t[|t| - 1 - k] == BackRows(tv, rands, i)[k]
  }

  /** A front row of the OVERTRAINING1 loop keeps a table partly placed. */
  lemma FrontStep(t: Table, tv: Table, rands: seq<real>, i: nat, tmp0: nat)
    requires |rands| == |tv| && |t| == |tv| && i < |tv| && ToFront(rands[i])
    requires tmp0 == CountFront(rands, i)
    requires PartlyPlaced(t, tv, rands, i, tmp0)
    ensures tmp0 < |t| && PartlyPlaced(t[tmp0 := tv[i]], tv, rands, i + 1, tmp0 + 1)
  {
    var n := |t|;
    var b := BackRows(tv, rands, i);
    var t' := t[tmp0 := tv[i]];
    assert FrontRows(tv, rands, i + 1) == FrontRows(tv, rands, i) + [tv[i]];
    assert BackRows(tv, rands, i + 1) == b;
    assert t'[..tmp0 + 1] == t[..tmp0] + [tv[i]];
    forall k | 0 <= k < i + 1 - (tmp0 + 1)
      ensures t'[n - 1 - k] == b[k]
    {
      assert t[n - 1 - k] == b[k];
    }
  }

  /** A back row of the OVERTRAINING1 loop, written to slot
      `tmp1 = |t| - 1 - (i - tmp0)`, keeps a table partly placed. */
  lemma BackStep(t: Table, tv: Table, rands: seq<real>, i: nat, tmp0: nat, tmp1: int)
    requires |rands| == |tv| && |t| == |tv| && i < |tv| && !ToFront(rands[i])
    requires tmp0 == CountFront(rands, i) && tmp1 == |t| - 1 - (i - tmp0)
    requires PartlyPlaced(t, tv, rands, i, tmp0)
    ensures tmp0 <= tmp1 < |t| && PartlyPlaced(t[tmp1 := tv[i]], tv, rands, i + 1, tmp0)
  {
    var n := |t|;
    var b := BackRows(tv, rands, i);
    var t' := t[tmp1 := tv[i]];
    assert FrontRows(tv, rands, i + 1) == FrontRows(tv, rands, i);
    var b' := BackRows(tv, rands, i + 1);
    assert b' == b + [tv[i]];
    assert t'[..tmp0] == t[..tmp0];
    forall k | 0 <= k < i + 1 - tmp0
      ensures t'[n - 1 - k] == b'[k]
    {
      if k < i - tmp0 {
        assert t[n - 1 - k] == b[k];
      }
    }
  }

  /** The OVERTRAINING1 loop.  Each TVfile row goes to slot `tmp0` (front)
      or `tmp1` (back) of both TRfile and VARfile, and at the end
      `tmp1 == tmp0 - 1`: every slot has been filled, and both files hold the
      reordered table. */
  method PartitionRows(tv: Table, tr: Table, vfile: Table, nRowsTR: int, rands: seq<real>)
    returns (tr': Table, vfile': Table, tmp0: int, tmp1: int)
    requires |rands| == |tv| && nRowsTR == |tv|
    requires |tr| == nRowsTR && |vfile| == |tv|
    ensures tmp1 == tmp0 - 1
    ensures tmp0 == CountFront(rands, |tv|)
    ensures tr' == Placed(tv, rands)
    ensures vfile' == Placed(tv, rands)
  {
    var n := |tv|;
    tr', vfile' := tr, vfile;
    tmp0, tmp1 := 0, nRowsTR - 1;
    var i := 0;
    while i < n
      invariant 0 <= i <= n
      invariant tmp0 == CountFront(rands, i)
      invariant tmp1 == n - 1 - (i - tmp0)
      invariant |tr'| == n && |vfile'| == n
      invariant PartlyPlaced(tr', tv, rands, i, tmp0)
      invariant PartlyPlaced(vfile', tv, rands, i, tmp0)
    {
      if !(rands[i] < 0.5) {
        FrontStep(tr', tv, rands, i, tmp0);
        FrontStep(vfile', tv, rands, i, tmp0);
        tr' := tr'[tmp0 := tv[i]];
        vfile' := vfile'[tmp0 := tv[i]];
        tmp0 := tmp0 + 1;
      } else {
        BackStep(tr', tv, rands, i, tmp0, tmp1);
        BackStep(vfile', tv, rands, i, tmp0, tmp1);
        tr' := tr'[tmp1 := tv[i]];
        vfile' := vfile'[tmp1 := tv[i]];
        tmp1 := tmp1 - 1;
      }
      i := i + 1;
    }
    PlacedFromHalves(tr', tv, rands, tmp0);
    PlacedFromHalves(vfile', tv, rands, tmp0);
  }

  /** A table of `|tv|` rows in which all rows have been placed is the
      reordered table. */
  lemma PlacedFromHalves(t: Table, tv: Table, rands: seq<real>, tmp0: nat)
    requires |rands| == |tv| && |t| == |tv|
    requires tmp0 == CountFront(rands, |tv|)
    requires PartlyPlaced(t, tv, rands, |tv|, tmp0)
    ensures t == Placed(tv, rands)
  {
    var b := BackRows(tv, rands, |tv|);
    BackHalfReversed(t, b, tmp0);
    assert t == t[..tmp0] + t[tmp0..];
  }

  /** The rows of `t` from `tmp0` on, read upwards from the last, are `b`:
      so read downwards they are `Reverse(b)`. */
  lemma BackHalfReversed(t: Table, b: Table, tmp0: nat)
    requires tmp0 <= |t| && |b| == |t| - tmp0
    requires forall k :: 0 <= k < |b| ==> t[|t| - 1 - k] == b[k]
    ensures t[tmp0..] == Reverse(b)
  {
    var rb := Reverse(b);
    forall s | 0 <= s < |b|
      ensures t[tmp0..][s] == rb[s]
    {
      var k := |b| - 1 - s;
      assert t[|t| - 1 - k] == b[k];
    }
  }

  // ---------------------------------------------------------------------
  // Properties of the OVERTRAINING1 placement

  lemma {:induction false} CountFrontMonotone(rands: seq<real>, i: nat, j: nat)
    requires i <= j <= |rands|
    ensures CountFront(rands, i) <= CountFront(rands, j)
    ensures i - CountFront(rands, i) <= j - CountFront(rands, j)
    decreases j - i
  {
    if i < j {
      CountFrontMonotone(rands, i, j - 1);
    }
  }

  /** A front row sits in FrontRows at the position counting the front rows
      before it. */
  lemma {:induction false} FrontRowsAt(tv: Table, rands: seq<real>, m: nat, i: nat)
    requires m <= |tv| && m <= |rands| && i < m && ToFront(rands[i])
    ensures CountFront(rands, i) < |FrontRows(tv, rands, m)|
    ensures FrontRows(tv, rands, m)[CountFront(rands, i)] == tv[i]
  {
    CountFrontMonotone(rands, i + 1, m);
    if i < m - 1 {
      FrontRowsAt(tv, rands, m - 1, i);
    }
  }

  /** A back row sits in BackRows at the position counting the back rows
      before it. */
  lemma {:induction false} BackRowsAt(tv: Table, rands: seq<real>, m: nat, i: nat)
    requires m <= |tv| && m <= |rands| && i < m && !ToFront(rands[i])
    ensures i - CountFront(rands, i) < |BackRows(tv, rands, m)|
    ensures BackRows(tv, rands, m)[i - CountFront(rands, i)] == tv[i]
  {
    CountFrontMonotone(rands, i + 1, m);
    if i < m - 1 {
      BackRowsAt(tv, rands, m - 1, i);
    }
  }

  /** Every TVfile row lands in exactly the slot Slot gives it: the slot is
      in range and the reordered table holds the row there. */
  lemma PlacedAtSlot(tv: Table, rands: seq<real>, i: nat)
    requires |rands| == |tv| && i < |tv|
    ensures 0 <= Slot(rands, i) < |tv|
    ensures Placed(tv, rands)[Slot(rands, i)] == tv[i]
  {
    var n := |tv|;
    if ToFront(rands[i]) {
      FrontRowsAt(tv, rands, n, i);
    } else {
      BackRowsAt(tv, rands, n, i);
    }
  }

  /** Two different rows never share a slot. */
  lemma SlotInjective(rands: seq<real>, i: nat, j: nat)
    requires i < j < |rands|
    ensures Slot(rands, i) != Slot(rands, j)
  {
    CountFrontMonotone(rands, i + 1, j);
    CountFrontMonotone(rands, j, |rands|);
  }

  /** Front rows keep their TVfile order; back rows are laid out downwards
      from the last slot, so their order is reversed. */
  lemma SlotOrder(rands: seq<real>, i: nat, j: nat)
    requires i < j < |rands|
    ensures ToFront(rands[i]) && ToFront(rands[j]) ==> Slot(rands, i) < Slot(rands, j)
    ensures !ToFront(rands[i]) && !ToFront(rands[j]) ==> Slot(rands, i) > Slot(rands, j)
  {
    CountFrontMonotone(rands, i + 1, j);
  }

  /** The first back row goes to the last slot. */
  lemma FirstBackRowIsLast(rands: seq<real>, i: nat)
    requires i < |rands| && !ToFront(rands[i])
    requires forall k :: 0 <= k < i ==> ToFront(rands[k])
    ensures Slot(rands, i) == |rands| - 1
  {
    FrontCountOfFrontPrefix(rands, i);
  }

  lemma {:induction false} FrontCountOfFrontPrefix(rands: seq<real>, i: nat)
    requires i <= |rands|
    requires forall k :: 0 <= k < i ==> ToFront(rands[k])
    ensures CountFront(rands, i) == i
  {
    if i > 0 {
      FrontCountOfFrontPrefix(rands, i - 1);
    }
  }

  lemma {:induction false} ReversePermutes(s: Table)
    ensures multiset(Reverse(s)) == multiset(s)
  {
    if s != [] {
      ReversePermutes(s[1..]);
      assert s == [s[0]] + s[1..];
    }
  }

  lemma {:induction false} HalvesPermute(tv: Table, rands: seq<real>, i: nat)
    requires i <= |tv| && i <= |rands|
    ensures multiset(FrontRows(tv, rands, i)) + multiset(BackRows(tv, rands, i)) == multiset(tv[..i])
  {
    if i == 0 {
      HalvesEmpty(tv, rands);
    } else {
      HalvesPermute(tv, rands, i - 1);
      HalvesStep(tv, rands, i);
    }
  }

  /** The base case of HalvesPermute: no rows, no halves. */
  lemma HalvesEmpty(tv: Table, rands: seq<real>)
    ensures multiset(FrontRows(tv, rands, 0)) + multiset(BackRows(tv, rands, 0)) == multiset(tv[..0])
  {
    assert tv[..0] == [];
  }

  /** The inductive step of HalvesPermute: one more TVfile row adds exactly
      that row to one of the two halves. */
  lemma HalvesStep(tv: Table, rands: seq<real>, i: nat)
    requires 0 < i <= |tv| && i <= |rands|
    requires multiset(FrontRows(tv, rands, i - 1)) + multiset(BackRows(tv, rands, i - 1)) == multiset(tv[..i - 1])
    ensures multiset(FrontRows(tv, rands, i)) + multiset(BackRows(tv, rands, i)) == multiset(tv[..i])
  {
    PrefixStep(tv, i);
    RowStep(tv, rands, i);
  }

  /** Row `i - 1` joins the front or the back half, and the other half stays. */
  lemma RowStep(tv: Table, rands: seq<real>, i: nat)
    requires 0 < i <= |tv| && i <= |rands|
    ensures ToFront(rands[i - 1]) ==>
      && multiset(FrontRows(tv, rands, i)) == multiset(FrontRows(tv, rands, i - 1)) + multiset{tv[i - 1]}
      && BackRows(tv, rands, i) == BackRows(tv, rands, i - 1)
    ensures !ToFront(rands[i - 1]) ==>
      && FrontRows(tv, rands, i) == FrontRows(tv, rands, i - 1)
      && multiset(BackRows(tv, rands, i)) == multiset(BackRows(tv, rands, i - 1)) + multiset{tv[i - 1]}
  {
  }

  lemma PrefixStep(tv: Table, i: nat)
    requires 0 < i <= |tv|
    ensures multiset(tv[..i]) == multiset(tv[..i - 1]) + multiset{tv[i - 1]}
  {
    assert tv[..i] == tv[..i - 1] + [tv[i - 1]];
  }

  /** The reordering is a permutation of TVfile: no row is lost or doubled. */
  lemma PlacedIsPermutation(tv: Table, rands: seq<real>)
    requires |rands| == |tv|
    ensures multiset(Placed(tv, rands)) == multiset(tv)
  {
    HalvesPermute(tv, rands, |tv|);
    ReversePermutes(BackRows(tv, rands, |tv|));
    assert tv[..|tv|] == tv;
  }

  // ---------------------------------------------------------------------
  // The halves TRfile1 and TRfile2

  /** The TRfile1 loop as written: every one of the `nRowsSet1` iterations
      copies row `i` of TRfile to row `tmp1` (not `i`) of TRfile1 and of
      VARfile.  A row `tmp1` outside TRfile1 is a write out of range.  When
      the loop runs at all, TRfile1 ends with the last copied row,
      `TRfile[nRowsSet1 - 1]`, at row `tmp1` and its created contents
      elsewhere, and VARfile changes only at row `tmp1`. */
  method FillSet1(tr: Table, vfile: Table, tmp1: int, nRowsSet1: int, nDim: nat)
    returns (r: Result<(Table, Table)>)
    requires 0 <= nRowsSet1 <= |tr| && nRowsSet1 <= |vfile|
    ensures r.Fail? <==> nRowsSet1 > 0 && !(0 <= tmp1 < nRowsSet1)
    ensures r.Fail? ==> r.fault == RowOutOfRange(tmp1, nRowsSet1)
    ensures r.Ok? && nRowsSet1 == 0 ==> r.value == (Created(0, nDim), vfile)
    ensures r.Ok? && nRowsSet1 > 0 ==>
      r.value == (Created(nRowsSet1, nDim)[tmp1 := tr[nRowsSet1 - 1]], vfile[tmp1 := tr[nRowsSet1 - 1]])
  {
    var tr1 := Created(nRowsSet1, nDim);
    var vfile' := vfile;
    var i := 0;
    while i < nRowsSet1
      invariant 0 <= i <= nRowsSet1
      invariant i > 0 ==> 0 <= tmp1 < nRowsSet1
      invariant i == 0 ==> tr1 == Created(nRowsSet1, nDim) && vfile' == vfile
      invariant i > 0 ==> tr1 == Created(nRowsSet1, nDim)[tmp1 := tr[i - 1]]
      invariant i > 0 ==> vfile' == vfile[tmp1 := tr[i - 1]]
    {
      if !(0 <= tmp1 < |tr1|) {
        return Fail(RowOutOfRange(tmp1, |tr1|));
      }
      tr1 := tr1[tmp1 := tr[i]];
      vfile' := vfile'[tmp1 := tr[i]];
      i := i + 1;
    }
    r := Ok((tr1, vfile'));
  }

  /** As written, TRfile1 receives at most one row of TRfile: every other row
      keeps its created contents. */
  lemma Set1HoldsOneRow(tr: Table, tr1: Table, tmp1: int, nRowsSet1: int, nDim: nat, k: int)
    requires 0 < nRowsSet1 <= |tr| && 0 <= tmp1 < nRowsSet1
    requires tr1 == Created(nRowsSet1, nDim)[tmp1 := tr[nRowsSet1 - 1]]
    requires 0 <= k < nRowsSet1 && k != tmp1
    ensures tr1[k] == ZeroRow(nDim)
  {
  }

  /** TRfile2 after OVERTRAINING2: row `i` is TRfile row `i + nRowsSet1` for
      `i < nRowsTR - nRowsSet1` and keeps its created contents beyond. */
  function SecondHalf(tr: Table, nRowsTR: int, nRowsSet1: int, nDim: nat): (t: Table)
    requires 0 <= nRowsSet1 <= |tr| && nRowsTR <= |tr|
    ensures |t| == |tr| - nRowsSet1
  {
    seq(|tr| - nRowsSet1, i requires 0 <= i < |tr| - nRowsSet1 =>
      if i < nRowsTR - nRowsSet1 then tr[i + nRowsSet1] else ZeroRow(nDim))
  }

  /** VARfile after OVERTRAINING2: rows `nRowsSet1 .. nRowsTR-1` take the
      TRfile rows, the others are unchanged. */
  function SecondHalfVar(tr: Table, vfile: Table, nRowsTR: int, nRowsSet1: int): (t: Table)
    requires |vfile| == |tr| && nRowsTR <= |tr|
    ensures |t| == |vfile|
  {
    seq(|vfile|, k requires 0 <= k < |vfile| => if nRowsSet1 <= k < nRowsTR then tr[k] else vfile[k])
  }

  /** The OVERTRAINING2 loop: for `i < nRowsTR - nRowsSet1`, row
      `i + nRowsSet1` of TRfile goes to row `i` of TRfile2 and to the same
      row of VARfile.  The bound uses the current value of `nRowsTR`, which
      the caller may have changed since OVERTRAINING1. */
  method CopySecondHalf(tr: Table, vfile: Table, nRowsTR: int, nRowsSet1: int, nDim: nat)
    returns (tr2: Table, vfile': Table)
    requires 0 <= nRowsSet1 <= |tr| && |vfile| == |tr| && nRowsTR <= |tr|
    ensures tr2 == SecondHalf(tr, nRowsTR, nRowsSet1, nDim)
    ensures vfile' == SecondHalfVar(tr, vfile, nRowsTR, nRowsSet1)
  {
    tr2 := Created(|tr| - nRowsSet1, nDim);
    vfile' := vfile;
    var i := 0;
    while i < nRowsTR - nRowsSet1
      invariant 0 <= i <= if nRowsTR - nRowsSet1 < 0 then 0 else nRowsTR - nRowsSet1
      invariant |tr2| == |tr| - nRowsSet1 && |vfile'| == |vfile|
      invariant forall k :: 0 <= k < |tr2| ==> tr2[k] == (if k < i then tr[k + nRowsSet1] else ZeroRow(nDim))
      invariant forall k :: 0 <= k < |vfile| ==>
        vfile'[k] == (if nRowsSet1 <= k < nRowsSet1 + i then tr[k] else vfile[k])
    {
      tr2 := tr2[i := tr[i + nRowsSet1]];
      vfile' := vfile'[i + nRowsSet1 := tr[i + nRowsSet1]];
      i := i + 1;
    }
  }

  /** With `nRowsTR == nRowsTV` the halves have sizes `nRowsTV/2` and
      `nRowsTV - nRowsTV/2`, summing to nRowsTV; TRfile2 is exactly the
      second part of TRfile and VARfile's second part is TRfile's. */
  lemma SecondHalfIsTail(tr: Table, vfile: Table, nDim: nat)
    requires |vfile| == |tr|
    ensures var s1 := |tr| / 2;
      && s1 + |SecondHalf(tr, |tr|, s1, nDim)| == |tr|
      && s1 <= |SecondHalf(tr, |tr|, s1, nDim)| <= s1 + 1
      && SecondHalf(tr, |tr|, s1, nDim) == tr[s1..]
      && SecondHalfVar(tr, vfile, |tr|, s1) == vfile[..s1] + tr[s1..]
  {
  }

  /** With `nRowsTR == nRowsSet1`, the value createNoiseVarianceFile leaves
      after the first overtraining, the OVERTRAINING2 loop copies nothing:
      TRfile2 keeps its created contents and VARfile is unchanged. */
  lemma SecondHalfSkippedAfterFirstHalf(tr: Table, vfile: Table, nRowsSet1: int, nDim: nat)
    requires 0 <= nRowsSet1 <= |tr| && |vfile| == |tr|
    ensures SecondHalf(tr, nRowsSet1, nRowsSet1, nDim) == Created(|tr| - nRowsSet1, nDim)
    ensures SecondHalfVar(tr, vfile, nRowsSet1, nRowsSet1) == vfile
  {
  }

  // ---------------------------------------------------------------------
  // BAGGING

  /** A noise-variance row with its sample (column nDim-1) divided by nALNs. */
  function ScaledRow(row: Row, nDim: nat, nALNs: int): (r: Row)
    requires 1 <= nDim <= |row| && nALNs >= 1
    ensures |r| == |row|
    ensures r[nDim - 1] == row[nDim - 1] / nALNs as real
    ensures forall j :: 0 <= j < |row| && j != nDim - 1 ==> r[j] == row[j]
  {
    row[nDim - 1 := row[nDim - 1] / nALNs as real]
  }

  /** VARfile after BAGGING. */
  function Bagged(vfile: Table, nDim: nat, nALNs: int): (t: Table)
    requires nDim >= 1 && Shaped(vfile, nDim) && nALNs >= 1
    ensures |t| == |vfile| && Shaped(t, nDim)
  {
    seq(|vfile|, i requires 0 <= i < |vfile| => ScaledRow(vfile[i], nDim, nALNs))
  }

  /** The BAGGING loop: every VARfile row's noise sample is divided by the
      number of ALNs averaged; nothing else changes. */
  method DivideNoiseColumn(vfile: Table, nRowsVAR: int, nRowsTV: int, nDim: nat, nALNs: int)
    returns (vfile': Table)
    requires nRowsVAR == nRowsTV && |vfile| == nRowsVAR
    requires nDim >= 1 && Shaped(vfile, nDim) && nALNs >= 1
    ensures vfile' == Bagged(vfile, nDim, nALNs)
  {
    vfile' := vfile;
    var i := 0;
    while i < nRowsVAR
      invariant 0 <= i <= nRowsVAR && |vfile'| == |vfile|
      invariant forall k :: 0 <= k < |vfile| ==>
        vfile'[k] == (if k < i then ScaledRow(vfile[k], nDim, nALNs) else vfile[k])
    {
      var value := vfile'[i][nDim - 1];
      vfile' := vfile'[i := vfile'[i][nDim - 1 := value / nALNs as real]];
      i := i + 1;
    }
  }

  /** After BAGGING the sum of the noise samples over any prefix of rows,
      hence their mean, is divided by nALNs: the variance of an average of
      nALNs independent estimates. */
  lemma {:induction false} BaggedColumnSum(vfile: Table, nDim: nat, nALNs: int, n: nat)
    requires nDim >= 1 && Shaped(vfile, nDim) && nALNs >= 1 && n <= |vfile|
    ensures ColumnSum(Bagged(vfile, nDim, nALNs), nDim - 1, n) == ColumnSum(vfile, nDim - 1, n) / nALNs as real
  {
    if n > 0 {
      BaggedColumnSum(vfile, nDim, nALNs, n - 1);
    }
  }

  /** BAGGING changes no column other than the noise samples. */
  lemma BaggedKeepsOtherColumns(vfile: Table, nDim: nat, nALNs: int, i: nat, j: nat)
    requires nDim >= 1 && Shaped(vfile, nDim) && nALNs >= 1
    requires i < |vfile| && j < nDim - 1
    ensures Bagged(vfile, nDim, nALNs)[i][j] == vfile[i][j]
  {
  }

  /** Scaling keeps nonnegative noise samples nonnegative. */
  lemma ScaledSampleNonnegative(row: Row, nDim: nat, nALNs: int)
    requires 1 <= nDim <= |row| && nALNs >= 1 && row[nDim - 1] >= 0.0
    ensures ScaledRow(row, nDim, nALNs)[nDim - 1] >= 0.0
  {
  }

  // ---------------------------------------------------------------------
  // The dispatcher

  /** The tables and row counts createTR_VARfiles reads and writes.
      nRowsTV is the number of rows of `tv`. */
  datatype Files = Files(tv: Table, tr: Table, vfile: Table, tr1: Table, tr2: Table,
                         nRowsTR: int, nRowsVAR: int, nRowsSet1: int)

  /** The LINEAR_REGRESSION loop: TVfile copied into a new TRfile in order. */
  method CopyTable(tv: Table, nDim: nat) returns (tr: Table)
    requires Shaped(tv, nDim)
    ensures tr == tv
  {
    tr := Created(|tv|, nDim);
    var i := 0;
    while i < |tv|
      invariant 0 <= i <= |tv| && |tr| == |tv|
      invariant forall k :: 0 <= k < |tv| ==> tr[k] == (if k < i then tv[k] else ZeroRow(nDim))
    {
      tr := tr[i := tv[i]];
      i := i + 1;
    }
  }

  /** The outcome of OVERTRAINING1: TRfile reordered, VARfile created with
      nRowsTV rows and reordered alike, then the TRfile1 loop as written
      (see FillSet1); it fails when that loop writes outside TRfile1. */
  function Overtraining1(f: Files, rands: seq<real>, nDim: nat): Result<Files>
    requires |rands| == |f.tv|
  {
    var p := Placed(f.tv, rands);
    var s1 := |f.tv| / 2;
    var tmp1 := CountFront(rands, |f.tv|) - 1;
    var g := f.(tr := p, vfile := p, nRowsVAR := |f.tv|, nRowsSet1 := s1);
    if s1 == 0 then Ok(g.(tr1 := Created(0, nDim)))
    else if !(0 <= tmp1 < s1) then Fail(RowOutOfRange(tmp1, s1))
    else Ok(g.(tr1 := Created(s1, nDim)[tmp1 := p[s1 - 1]], vfile := p[tmp1 := p[s1 - 1]]))
  }

  /** OVERTRAINING1 goes through exactly when TVfile has fewer than two rows
      or the number of front rows is between 1 and nRowsTV/2. */
  lemma Overtraining1Succeeds(f: Files, rands: seq<real>, nDim: nat)
    requires |rands| == |f.tv|
    ensures Overtraining1(f, rands, nDim).Ok? <==>
      |f.tv| < 2 || 1 <= CountFront(rands, |f.tv|) <= |f.tv| / 2
  {
  }

  /** createTR_VARfiles(nChoose).  The requires are the program's ASSERTs
      and the state the program's call order guarantees at each mode. */
  method CreateTrVarFiles(f: Files, nChoose: int, nDim: nat, nALNs: int, rands: seq<real>)
    returns (r: Result<Files>)
    requires nDim >= 1 && Shaped(f.tv, nDim)
    requires nChoose == OVERTRAINING1 ==>
      f.nRowsTR == |f.tv| && |f.tr| == |f.tv| && |rands| == |f.tv|
    requires nChoose == OVERTRAINING2 ==>
      0 <= f.nRowsSet1 <= |f.tv| && |f.tr| == |f.tv| && |f.vfile| == |f.tv| && f.nRowsTR <= |f.tv|
    requires nChoose == APPROXIMATION ==> |f.tv| == f.nRowsTR && |f.tv| == f.nRowsVAR
    requires nChoose == BAGGING ==>
      f.nRowsVAR == |f.tv| && |f.vfile| == f.nRowsVAR && Shaped(f.vfile, nDim) && nALNs >= 1
    ensures nChoose == LINEAR_REGRESSION ==> r == Ok(f.(tr := f.tv, nRowsTR := |f.tv|))
    ensures nChoose == OVERTRAINING1 ==> r == Overtraining1(f, rands, nDim)
    ensures nChoose == OVERTRAINING2 ==>
      r == Ok(f.(tr2 := SecondHalf(f.tr, f.nRowsTR, f.nRowsSet1, nDim),
                 vfile := SecondHalfVar(f.tr, f.vfile, f.nRowsTR, f.nRowsSet1)))
    ensures nChoose == APPROXIMATION ==> r == Ok(f.(tr1 := [], tr2 := []))
    ensures nChoose == BAGGING ==> r == Ok(f.(vfile := Bagged(f.vfile, nDim, nALNs)))
    ensures !(0 <= nChoose <= 4) ==> r == Ok(f)
  {
    r := Ok(f);
    if nChoose == LINEAR_REGRESSION {
      var tr := CopyTable(f.tv, nDim);
      r := Ok(f.(tr := tr, nRowsTR := |f.tv|));
    }
    if nChoose == OVERTRAINING1 {
      var nRowsVAR := |f.tv|;
      var tr, vfile, tmp0, tmp1 := PartitionRows(f.tv, f.tr, Created(nRowsVAR, nDim), f.nRowsTR, rands);
      var nRowsSet1 := |f.tv| / 2;
      var set1 :- FillSet1(tr, vfile, tmp1, nRowsSet1, nDim);
      r := Ok(f.(tr := tr, vfile := set1.1, tr1 := set1.0,
                 nRowsVAR := nRowsVAR, nRowsSet1 := nRowsSet1));
    }
    if nChoose == OVERTRAINING2 {
      var tr2, vfile := CopySecondHalf(f.tr, f.vfile, f.nRowsTR, f.nRowsSet1, nDim);
      r := Ok(f.(tr2 := tr2, vfile := vfile));
    }
    if nChoose == APPROXIMATION {
      r := Ok(f.(tr1 := [], tr2 := []));
    }
    if nChoose == BAGGING {
      var vfile := DivideNoiseColumn(f.vfile, f.nRowsVAR, |f.tv|, nDim, nALNs);
      r := Ok(f.(vfile := vfile));
    }
  }

  /** Every row of the reordered table is a row of TVfile, so it keeps the
      TVfile row length. */
  lemma PlacedShaped(tv: Table, rands: seq<real>, nDim: nat)
    requires |rands| == |tv| && Shaped(tv, nDim)
    ensures Shaped(Placed(tv, rands), nDim)
  {
    var p := Placed(tv, rands);
    PlacedIsPermutation(tv, rands);
    forall k | 0 <= k < |p|
      ensures |p[k]| == nDim
    {
      assert p[k] in multiset(p);
      assert p[k] in tv;
    }
  }
}
