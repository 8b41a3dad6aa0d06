/** createSamples and the data flow of createNoiseVarianceFile: two ALNs
    overtrained on the two halves of the reordered TVfile turn the output
    column of VARfile into noise-variance samples, each half evaluated by
    the ALN trained on the other.  Training itself is not modelled: the two
    overtrained ALNs are given as evaluation functions. */
module NoiseSamples {
  import opened Tables
  import opened Faults
  import opened DataFiles

  /** The divisor `1 + 1/nDim` of the sample, in C integer arithmetic (for
      positive operands C's truncating division agrees with Dafny's). */
  function Divisor(nDim: nat): (d: real)
    requires nDim >= 1
    ensures d > 0.0
  {
    (1 + 1 / nDim) as real
  }

  /** The vector handed to the overtrained ALN: every component, not just the
      output, is the row's output value. */
  function SampleInput(out: real, nDim: nat): (x: seq<real>)
    ensures |x| == nDim
    ensures forall j :: 0 <= j < nDim ==> x[j] == out
  {
    seq(nDim, _ => out)
  }

  /** The noise-variance sample of a row whose output value is `out`:
      the squared residual of the ALN at SampleInput, over the divisor. */
  function NoiseSample(out: real, eval: seq<real> -> real, nDim: nat): (v: real)
    requires nDim >= 1
    ensures v >= 0.0
  {
    var x := SampleInput(out, nDim);
    var e := x[nDim - 1] - eval(x);
    e * e / Divisor(nDim)
  }

  /** A VARfile row with its output column replaced by its sample; every
      other column is kept. */
  function SampledRow(row: Row, eval: seq<real> -> real, nDim: nat): (r: Row)
    requires 1 <= nDim <= |row|
    ensures |r| == |row|
    ensures r[nDim - 1] == NoiseSample(row[nDim - 1], eval, nDim) && r[nDim - 1] >= 0.0
    ensures forall j :: 0 <= j < |row| && j != nDim - 1 ==> r[j] == row[j]
  {
    row[nDim - 1 := NoiseSample(row[nDim - 1], eval, nDim)]
  }

  /** The rows pass `nOTTR` writes: rows `nRowsSet1 .. nRowsVAR-1` for the
      ALN trained on the first half (pass 1), rows `0 .. nRowsSet1-1` for the
      other. */
  predicate InPass(nOTTR: int, nRowsSet1: int, nRowsVAR: int, k: int) {
    if nOTTR == 1 then nRowsSet1 <= k < nRowsVAR else 0 <= k < nRowsSet1
  }

  /** For `nDim >= 2`, the only dimensions the program uses, `1/nDim` is 0
      and the sample is the plain squared residual; only `nDim == 1` would
      halve it. */
  lemma DivisorIsOne(nDim: nat)
    requires nDim >= 1
    ensures nDim >= 2 <==> Divisor(nDim) == 1.0
    ensures nDim == 1 ==> Divisor(nDim) == 2.0
  {
  }

  /** The two passes split VARfile's rows: every row is written by exactly
      one of them. */
  lemma PassesPartitionRows(nRowsSet1: int, nRowsVAR: int, k: int)
    requires 0 <= nRowsSet1 <= nRowsVAR && 0 <= k < nRowsVAR
    ensures InPass(1, nRowsSet1, nRowsVAR, k) != InPass(2, nRowsSet1, nRowsVAR, k)
  {
  }

  /** createSamples(nOTTR): each row of the pass gets its sample in column
      nDim-1, computed from its own output value; the other rows, and the
      other columns, are unchanged.  The printed average is not modelled. */
  method CreateSamples(vfile: Table, nOTTR: int, nRowsSet1: int, nDim: nat, eval: seq<real> -> real)
    returns (vfile': Table)
    requires nDim >= 1 && Shaped(vfile, nDim) && 0 <= nRowsSet1 <= |vfile|
    ensures |vfile'| == |vfile| && Shaped(vfile', nDim)
    ensures forall k :: 0 <= k < |vfile| ==>
      vfile'[k] == (if InPass(nOTTR, nRowsSet1, |vfile|, k) then SampledRow(vfile[k], eval, nDim) else vfile[k])
  {
    var nRowsVAR := |vfile|;
    var first, count := 0, nRowsSet1;
    if nOTTR == 1 {
      first, count := nRowsSet1, nRowsVAR - nRowsSet1;
    }
    vfile' := vfile;
    var i := 0;
    assert forall k :: 0 <= k < nRowsVAR ==> (first <= k < first + count <==> InPass(nOTTR, nRowsSet1, nRowsVAR, k));
    while i < count
      invariant 0 <= i <= count && |vfile'| == nRowsVAR
      invariant 0 <= first && first + count <= nRowsVAR
      invariant forall k :: 0 <= k < nRowsVAR ==>
        vfile'[k] == (if first <= k < first + i then SampledRow(vfile[k], eval, nDim) else vfile[k])
    {
      var row := first + i;
      assert vfile'[row] == vfile[row];
      var out := vfile'[row][nDim - 1];
      var x := seq(nDim, _ => 0.0);
      var j := 0;
      while j < nDim
        invariant 0 <= j <= nDim && |x| == nDim
        invariant forall m :: 0 <= m < j ==> x[m] == out
      {
        x := x[j := out];
        j := j + 1;
      }
      assert x == SampleInput(out, nDim);
      var value := eval(x);
      var e := x[nDim - 1] - value;
      assert e * e / (1 + 1 / nDim) as real == NoiseSample(out, eval, nDim);
      vfile' := vfile'[row := vfile'[row][nDim - 1 := e * e / (1 + 1 / nDim) as real]];
      i := i + 1;
    }
  }

  /** The noise-variance table after createNoiseVarianceFile, given the
      outcome of OVERTRAINING1: row `k` holds its sample from the ALN trained
      on the other half. */
  function CrossSampled(v1: Table, nRowsSet1: int, nDim: nat, eval1: seq<real> -> real, eval2: seq<real> -> real)
    : (t: Table)
    requires nDim >= 1 && Shaped(v1, nDim)
    ensures |t| == |v1| && Shaped(t, nDim)
  {
    seq(|v1|, k requires 0 <= k < |v1| =>
      SampledRow(v1[k], if k < nRowsSet1 then eval2 else eval1, nDim))
  }

  /** The data flow of createNoiseVarianceFile: OVERTRAINING1, then
      `nRowsTR := nRowsSet1` while the first ALN trains, its samples,
      OVERTRAINING2 under that value of nRowsTR, `nRowsTR := |TRfile2|` while
      the second ALN trains, its samples, and finally nRowsTR restored to
      TRfile's row count.  It fails exactly when OVERTRAINING1 does.  On
      success every VARfile row has been sampled exactly once, by the ALN
      for the half it does not belong to; TRfile2 is left as created, because
      the OVERTRAINING2 loop bound `nRowsTR - nRowsSet1` is 0 at that point. */
  method NoiseVarianceFile(f: Files, nDim: nat, rands: seq<real>,
                           eval1: seq<real> -> real, eval2: seq<real> -> real)
    returns (r: Result<Files>)
    requires nDim >= 1 && Shaped(f.tv, nDim)
    requires f.nRowsTR == |f.tv| && |f.tr| == |f.tv| && |rands| == |f.tv|
    ensures r.Ok? <==> Overtraining1(f, rands, nDim).Ok?
    ensures r.Ok? ==>
      var g := Overtraining1(f, rands, nDim).value;
      && Shaped(g.vfile, nDim)
      && r.value.vfile == CrossSampled(g.vfile, g.nRowsSet1, nDim, eval1, eval2)
      && r.value.tr == Placed(f.tv, rands)
      && r.value.tr1 == g.tr1
      && r.value.tr2 == Created(|f.tv| - g.nRowsSet1, nDim)
      && r.value.nRowsTR == |f.tv| && r.value.nRowsVAR == |f.tv| && r.value.nRowsSet1 == |f.tv| / 2
      && r.value == g.(vfile := r.value.vfile, tr2 := r.value.tr2, nRowsTR := |f.tv|)
      && r.value.tv == f.tv
  {
    var g :- CreateTrVarFiles(f, OVERTRAINING1, nDim, 1, rands);
    PlacedShaped(f.tv, rands, nDim);
    assert Shaped(g.vfile, nDim);
    // the first overtrained ALN sees nRowsTR == |TRfile1|
    var h := g.(nRowsTR := |g.tr1|);
    var v := CreateSamples(h.vfile, 1, h.nRowsSet1, nDim, eval1);
    h := h.(vfile := v);
    var r2 := CreateTrVarFiles(h, OVERTRAINING2, nDim, 1, rands);
    var k := r2.value;
    SecondHalfSkippedAfterFirstHalf(h.tr, h.vfile, h.nRowsSet1, nDim);
    k := k.(nRowsTR := |k.tr2|);
    v := CreateSamples(k.vfile, 2, k.nRowsSet1, nDim, eval2);
    k := k.(vfile := v, nRowsTR := |k.tr|);
    r := Ok(k);
    assert k.vfile == CrossSampled(g.vfile, g.nRowsSet1, nDim, eval1, eval2);
  }
}
