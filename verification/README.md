# ALN training set-up and leaf evaluation

This project is a Dafny model of the deterministic core of the ALN
(adaptive logic network) training program. It covers:

- **Leaf evaluation** (`AdaptEvalLFN`). A linear piece of the tree is
  evaluated at a point. The value is `W[0] + Σ W[i+1]·X[i]`. Evaluation makes
  the leaf the active leaf, raises its NF_EVAL flag bit and caches the value
  as the leaf's distance.
- **Data files** (`createTR_VARfiles`, modes 0–4). These routines build the
  tables:
  - TRfile, the training table;
  - VARfile, the noise-variance table;
  - TRfile1 and TRfile2, the halves used for overtraining.
  All of them are built from TVfile, the training-and-variance table:
  - LINEAR_REGRESSION copies TVfile into TRfile in order.
  - OVERTRAINING1 reorders the rows by coin flip, front or back, into TRfile
    and VARfile, then fills TRfile1.
  - OVERTRAINING2 fills TRfile2.
  - APPROXIMATION drops the halves.
  - BAGGING divides every noise sample by the number of ALNs.
- **Noise samples** (`createSamples`, and its data flow inside
  `createNoiseVarianceFile`). Each VARfile row gets a squared residual from
  the overtrained ALN of the other half.
- **Training vectors** (`fillvector`). A random TRfile row is drawn. When the
  average ALN is trained, the inputs are jittered and the target becomes the
  ensemble mean.
- **Quick start** (`prepareQuickStart`). This sets the per-axis tolerance and
  the domain and weight bounds, stops on a constant input, and seeds the root
  leaf from linear regression.
- **Bias folding** (end of `doLinearRegression`). The centroids are folded
  into the bias.
- **F-limit selection** (in `approximate`). A degrees-of-freedom index picks a
  value from a table of F values, and a fixed override then replaces it.

Modelling choices:

- Tables are `seq<seq<real>>`, one row per sample, with the output in column
  `nDim - 1`.
- The global state that the routines share is threaded explicitly as the
  `Files` record: the tables plus `nRowsTR`, `nRowsVAR` and `nRowsSet1`.
- The random generator's outputs are an input sequence of reals in [0, 1),
  in the order they are drawn.
- The overtrained ALNs and the ensemble members are given as evaluation
  functions (`eval`, `ens`). Their training is not modelled.
- `exit(0)` on a zero tolerance becomes a `Fail(ConstantInput(m))` result.
- A table write outside the table becomes `Fail(RowOutOfRange(row, rows))`.
- Every table is created with `nDim` columns. The source passes
  `nALNinputs` (train_ops.cpp:839, 858, 890, 907); doLinearRegression
  asserts that the TRfile built this way has exactly `nDim` columns
  (train_ops.cpp:148), so the two are the same number here.
- Arithmetic is exact `real` arithmetic. C's `1 / nDim` is integer division,
  and for positive operands it agrees with Dafny's `/` on `int`.

The model follows the code as written, including these quirks:

- **Divisor.** createSamples divides by `1 + 1/nDim` in integer arithmetic
  (train_ops.cpp:965, 977). For every `nDim >= 2` this is 1, so the
  small-sample factor the expression suggests, `nDim/(nDim+1)`, never
  applies (`NoiseSamples.DivisorIsOne`).
- **ALN input for a sample.** createSamples fills every component of the
  ALN's input with the row's output value, not with the row's inputs
  (`NoiseSamples.SampleInput`).
- **TRfile1.** The loop that fills TRfile1 writes each copied row to index
  `tmp1`, not to index `i`. After OVERTRAINING1, `tmp1 == tmp0 - 1`. So:
  - TRfile1 holds at most one TRfile row, the last one copied
    (`DataFiles.Set1HoldsOneRow`);
  - the loop writes outside TRfile1 unless `1 <= tmp0 <= nRowsTV/2`
    (`DataFiles.Overtraining1Succeeds`).
- **TRfile2.** `createNoiseVarianceFile` sets `nRowsTR` to the size of
  TRfile1 before it calls OVERTRAINING2. The OVERTRAINING2 loop bound
  `nRowsTR - nRowsSet1` is then 0, so TRfile2 keeps its created contents
  and VARfile is not touched (`DataFiles.SecondHalfSkippedAfterFirstHalf`,
  `NoiseSamples.NoiseVarianceFile`).
- **F-limit.** The table value is computed and then overwritten with 1.4 for
  every dimension (`Flimit.SelectFlimit`).
- **Jitter size.** The jitter of input `i` is `(r1 - r2)·ε_i`. Here `ε_i` is
  the per-axis tolerance held in the ALN's constraint for that axis
  (train_ops.cpp:794).

## Model

| member | source | states |
|---|---|---|
| LeafEval.AdaptEvalLFN | libaln/src/adaptevallfn.cpp:54-83 | for a leaf with no variable map and vector dimension nDim: the value is `W[0] + Σ_{i<nDim} W[i+1]·X[i]`; the active leaf is the node itself; the node keeps all its fields except that NF_EVAL is raised and the distance is the value; every other node is unchanged |
| LeafEval.WithEvalFlag | libaln/src/adaptevallfn.cpp:69 | the NF_EVAL bit is set and every other flag bit is preserved |
| LeafEval.WeightedSumShift | libaln/src/adaptevallfn.cpp:75-78 | moving coordinate `x[i]` by `d` moves the weighted sum by `d·w[i+1]` if `i` is read, and by nothing otherwise |
| LeafEval.LeafValueAffine | libaln/src/adaptevallfn.cpp:72-78 | the leaf value is affine: changing `X[i]` by `c` changes it by exactly `c·W[i+1]` |
| LeafEval.LeafValueIgnoresTail | libaln/src/adaptevallfn.cpp:75 | coordinates at index nDim or beyond do not affect the value |
| LeafEval.WeightedSumAgree | libaln/src/adaptevallfn.cpp:75-78 | the sum reads only `W[1..n]` and `X[0..n-1]` |
| LeafEval.OutputAxisZero | libaln/src/train_ops.cpp:226-228 | with the output coordinate zeroed before evaluation, the output weight contributes nothing and the value is the prediction from the inputs |
| LeafEval.OutputWeightMinusOne | libaln/src/train_ops.cpp:210-215 | with output weight -1 the value is prediction minus output, and it is zero exactly when the point lies on the piece |
| Regression.ExtractRegression | libaln/src/train_ops.cpp:183-210 | adblLRC receives the leaf centroids; adblLRW[1..nDim-1] receives the leaf weights; `adblLRW[0] = C[nDim-1] - Σ W[m+1]·C[m]`; `adblLRW[nDim] = -1` |
| Regression.WeightedSumDifference | libaln/src/train_ops.cpp:202-209 | the sum at `x` minus the sum at `c` is the sum at `x - c` |
| Regression.FoldedBiasIsCentredForm | libaln/src/train_ops.cpp:202-209 | for every point, the folded form `W0 + Σ W[m+1]·x[m]` equals the centred form `C[nDim-1] + Σ W[m+1]·(x[m]-C[m])`, and at the centroid it equals `C[nDim-1]` |
| Regression.FoldedLeafAtCentroid | libaln/src/train_ops.cpp:205-210 | evaluating the folded weight vector at the centroid, with the output coordinate 0, gives the centroid's output value |
| QuickStart.AxisSetup | libaln/src/train_ops.cpp:1000-1025 | input axis `m`: the tolerance is `ε_m`; the domain is `[min - 0.1σ, max + 0.1σ]`. When not overtraining: `wmin = max(-√3·σout/ε, dblMinWeight)` and `wmax = min(√3·σout/ε, dblMaxWeight)`. When overtraining, the weight bounds are untouched |
| QuickStart.SeedRoot | libaln/src/train_ops.cpp:1031-1040 | the root leaf gets the regression centroids, bias and input weights, and the output weight -1; its other fields are kept |
| QuickStart.PrepareQuickStart | libaln/src/train_ops.cpp:998-1041 | the program stops exactly when some input axis has tolerance 0, reporting the first such axis. Otherwise every input axis gets its AxisSetup constraint and the output axis is untouched. A growable ALN gets smoothing `σout/100` and the seeded root; a non-growable one keeps both |
| QuickStart.DomainCoversData | libaln/src/train_ops.cpp:1007-1010 | with a nonnegative deviation, the widened domain contains the data range |
| QuickStart.WeightBoundsAdmitZero | libaln/src/train_ops.cpp:1013-1024 | with a positive tolerance and a-priori bounds that admit 0, the weight interval admits 0 and lies inside the a-priori bounds |
| QuickStart.SeededRootAtCentroid | libaln/src/train_ops.cpp:1033-1040 | a root seeded from the regression results reproduces the centroid's output value at the centroid |
| Flimit.DofIndex | libaln/src/train_ops.cpp:368-374 | for `nDim >= 2` the index lies in [0, 12]: it is `nDim - 2` up to 10, 8 up to 20, 9 up to 30, 10 up to 40, 11 up to 60, and 12 beyond 60 |
| Flimit.SelectFlimit | libaln/src/train_ops.cpp:367-377 | the limit used is 1.4 for every dimension; it never exceeds the table's value and equals it exactly when `nDim > 60` |
| Flimit.FTableStrictlyDecreasing | libaln/src/train_ops.cpp:367 | the F table is strictly decreasing |
| Flimit.DofIndexMonotone | libaln/src/train_ops.cpp:369-374 | the index never decreases as nDim grows |
| Flimit.TableLimitNonIncreasing | libaln/src/train_ops.cpp:367-376 | the table's limit never increases as nDim grows |
| Flimit.UsedLimitIndependentOfDimension | libaln/src/train_ops.cpp:376-377 | the limit used is the same for any two dimensions |
| DataFiles.CopyTable | libaln/src/train_ops.cpp:838-849 | LINEAR_REGRESSION: TRfile equals TVfile, row for row |
| DataFiles.FrontStep | libaln/src/train_ops.cpp:867-876 | a front row goes to slot tmp0 and keeps the partial placement |
| DataFiles.BackStep | libaln/src/train_ops.cpp:877-886 | a back row goes to slot tmp1 and keeps the partial placement |
| DataFiles.PartitionRows | libaln/src/train_ops.cpp:857-888 | at the end `tmp1 == tmp0 - 1`, and tmp0 is the number of front rows. TRfile and VARfile both hold the front rows in TVfile order followed by the back rows in reverse order |
| DataFiles.PlacedFromHalves | libaln/src/train_ops.cpp:888 | once every row is placed, the front part and the back part together make up the whole reordered table |
| DataFiles.BackHalfReversed | libaln/src/train_ops.cpp:879-885 | the back slots, filled downwards from the last row, read top to bottom are the back rows in reverse order |
| DataFiles.CountFrontMonotone | libaln/src/train_ops.cpp:863-887 | the counts of front rows and of back rows never decrease along TVfile |
| DataFiles.FrontRowsAt | libaln/src/train_ops.cpp:867-876 | a front row sits at the position given by the number of front rows before it |
| DataFiles.BackRowsAt | libaln/src/train_ops.cpp:877-886 | a back row sits at the position given by the number of back rows before it |
| DataFiles.PlacedAtSlot | libaln/src/train_ops.cpp:863-887 | every TVfile row lands in its slot, which lies in `[0, nRowsTR)` |
| DataFiles.SlotInjective | libaln/src/train_ops.cpp:863-888 | two rows never share a slot |
| DataFiles.SlotOrder | libaln/src/train_ops.cpp:859-886 | front rows keep TVfile order; back rows fill downwards, in reverse order |
| DataFiles.FirstBackRowIsLast | libaln/src/train_ops.cpp:860 | the first back row goes to slot `nRowsTR - 1` |
| DataFiles.RowStep | libaln/src/train_ops.cpp:870-886 | one more coin flip puts TVfile row `i - 1` in exactly one half and leaves the other half as it was |
| DataFiles.HalvesStep | libaln/src/train_ops.cpp:863-887 | if the halves after `i - 1` flips hold the first `i - 1` TVfile rows, the halves after `i` flips hold the first `i` |
| DataFiles.HalvesPermute | libaln/src/train_ops.cpp:863-887 | the front and back halves together hold the first `i` TVfile rows, each exactly once |
| DataFiles.PlacedIsPermutation | libaln/src/train_ops.cpp:863-888 | the reordered table is a permutation of TVfile |
| DataFiles.PlacedShaped | libaln/src/train_ops.cpp:869-884 | every row of the reordered table is nDim wide |
| DataFiles.FillSet1 | libaln/src/train_ops.cpp:889-900 | the TRfile1 loop writes every copied row at `tmp1`. It fails exactly when the loop runs and `tmp1` is outside TRfile1. Otherwise TRfile1 and VARfile change only at row `tmp1`, which ends up holding `TRfile[nRowsSet1-1]` |
| DataFiles.Set1HoldsOneRow | libaln/src/train_ops.cpp:891-900 | every TRfile1 row other than `tmp1` keeps its created contents |
| DataFiles.Overtraining1Succeeds | libaln/src/train_ops.cpp:855-900 | OVERTRAINING1 stays in range exactly when `nRowsTV < 2` or `1 <= tmp0 <= nRowsTV/2` |
| DataFiles.CopySecondHalf | libaln/src/train_ops.cpp:905-917 | for `i < nRowsTR - nRowsSet1`, `TRfile2[i] = TRfile[i + nRowsSet1]` and VARfile row `i + nRowsSet1` gets the same row; all other rows are unchanged |
| DataFiles.SecondHalfIsTail | libaln/src/train_ops.cpp:889-917 | with `nRowsTR == nRowsTV`, the halves have sizes `nRowsTV/2` and `nRowsTV - nRowsTV/2`, which sum to nRowsTV and differ by at most 1; TRfile2 is the tail of TRfile |
| DataFiles.SecondHalfSkippedAfterFirstHalf | libaln/src/train_ops.cpp:908 | with `nRowsTR == nRowsSet1`, OVERTRAINING2 copies nothing |
| DataFiles.ScaledRow | libaln/src/train_ops.cpp:941-942 | column nDim-1 is divided by nALNs; the other columns are kept |
| DataFiles.DivideNoiseColumn | libaln/src/train_ops.cpp:932-943 | BAGGING: every VARfile row has its noise sample divided by nALNs and nothing else changes |
| DataFiles.BaggedColumnSum | libaln/src/train_ops.cpp:939-943 | after BAGGING, the sum of the noise samples over any prefix of rows is divided by nALNs |
| DataFiles.BaggedKeepsOtherColumns | libaln/src/train_ops.cpp:939-943 | BAGGING leaves every input column unchanged |
| DataFiles.ScaledSampleNonnegative | libaln/src/train_ops.cpp:941-942 | a nonnegative noise sample stays nonnegative after BAGGING |
| DataFiles.CreateTrVarFiles | libaln/src/train_ops.cpp:808-947 | LINEAR_REGRESSION: TRfile becomes TVfile and `nRowsTR = nRowsTV`. OVERTRAINING1: the Overtraining1 outcome (reordered TRfile and VARfile, `nRowsVAR = nRowsTV`, `nRowsSet1 = nRowsTV/2`, TRfile1 as FillSet1 leaves it, or the out-of-range fault). OVERTRAINING2: the CopySecondHalf tables. APPROXIMATION: TRfile1 and TRfile2 emptied, everything else kept. BAGGING: the Bagged VARfile. Any other mode changes nothing |
| NoiseSamples.SampleInput | libaln/src/train_ops.cpp:960-963 | every component of the ALN input is the row's output value |
| NoiseSamples.NoiseSample | libaln/src/train_ops.cpp:964-965 | the sample is a squared residual over the divisor, and it is never negative |
| NoiseSamples.SampledRow | libaln/src/train_ops.cpp:965 | only column nDim-1 of the row is rewritten, to its nonnegative sample |
| NoiseSamples.DivisorIsOne | libaln/src/train_ops.cpp:965 | the divisor `1 + 1/nDim` is 1 exactly when `nDim >= 2`, and 2 when `nDim == 1` |
| NoiseSamples.PassesPartitionRows | libaln/src/train_ops.cpp:956-979 | every VARfile row is written by exactly one of the two passes |
| NoiseSamples.CreateSamples | libaln/src/train_ops.cpp:950-979 | pass 1 rewrites rows `[nRowsSet1, nRowsVAR)` and pass 2 rewrites rows `[0, nRowsSet1)`. In those rows only column nDim-1 changes, to the row's own sample; all other rows are untouched |
| NoiseSamples.NoiseVarianceFile | libaln/src/train_ops.cpp:252-336 | fails exactly when OVERTRAINING1 does. Otherwise every VARfile row is sampled once, by the ALN of the other half. TRfile holds the reordered rows, TRfile2 keeps its created contents, and `nRowsTR` ends at nRowsTV. TVfile is unchanged, and every other part of the record is what OVERTRAINING1 left |
| FillVector.RowIndex | libaln/src/train_ops.cpp:774 | for a random value in [0, 1) the row index lies in `[0, nRowsTR)` |
| FillVector.Jitter | libaln/src/train_ops.cpp:788-795 | input `i` moves by `(r1 - r2)·ε_i`, strictly inside `(-ε_i, ε_i)`; the output coordinate is kept |
| FillVector.JitterInsideBox | libaln/src/train_ops.cpp:794 | a difference of two values from [0, 1), scaled by `ε > 0`, lies strictly inside `(-ε, ε)` |
| FillVector.EnsembleMean | libaln/src/train_ops.cpp:796-803 | the target is the arithmetic mean of the nALNs evaluations |
| FillVector.FillVector | libaln/src/train_ops.cpp:767-805 | the row index is in range. Without averaging the vector is the TRfile row unchanged. With averaging the inputs are jittered inside their tolerance, and the output is the ensemble mean at the jittered point |
| FillVector.EnsembleSumBounds | libaln/src/train_ops.cpp:796-801 | the ensemble sum lies between n·lo and n·hi |
| FillVector.MeanBetweenMembers | libaln/src/train_ops.cpp:803 | the mean lies between the smallest and largest member value |
| FillVector.MeanOfAgreeingMembers | libaln/src/train_ops.cpp:803 | members that all agree give their common value as the mean |

## Left out

- Opaque ALN library calls are not modelled, because their bodies are not
  part of this model: `CMyAln::Train`, `Create`, `SetGrowable`, `GetTree`,
  `QuickEval`, `ConvertDtree`, and `WriteDtree`. The overtrained ALNs and the
  ensemble members appear only as evaluation functions.
- `CDataFile` reading and writing is not modelled. `CDataFile::Create` is
  modelled as a zero-filled table (`Tables.Created`); no property depends on
  the fill value beyond "rows nobody writes keep it".
- All `fprintf`/`fflush` logging, the diagnostic `Write` calls, and the
  average noise variance that createSamples prints are left out. None of them
  affects any table.
- `malloc`/`free` are left out.
- Floating-point rounding, `sqrt` and `pow` are not modelled. The model uses
  exact reals, `√3` is a parameter, and `pow(e, 2)` is `e * e`.
- The RMSE and importance statistics of `doLinearRegression` (lines 216-233)
  and `outputTrainingResults` are reporting only.
- The training iteration loops are left out, because they depend entirely on
  `Train`. This covers the loops in doLinearRegression (lines 161-170),
  createNoiseVarianceFile, approximate and trainAverage.
- The random number generator itself is left out; its values are inputs.
  C++ leaves the operand order of `ALNRandFloat() - ALNRandFloat()`
  unspecified, and the model takes the first value drawn minus the second.
- The worker thread (`TakeActionProc`) and the GUI shell (ALNfitDeep.cpp) are
  left out.
- The split-controller routines are left out, because alnintern.h only
  declares them.
- The seeding of the average ALN in trainAverage (lines 660-671) repeats the
  assignments of prepareQuickStart's growable branch. It is not modelled
  separately.
- The numeric value of NF_EVAL is defined in aln.h, which is not part of this
  model. A single-bit constant stands for it.
- `SetWeightMin`/`SetWeightMax`/`GetWeightMin`/`GetWeightMax` are taken to
  store and return the value given.
- DataFiles.DivideNoiseColumn: `nALNs == 0` is excluded by its requires. The
  C division would produce IEEE infinities, which reals cannot represent.
- FillVector.FillVector: with averaging, `nALNs >= 1` is required, for the
  same reason.
- DataFiles.CreateTrVarFiles: the ASSERTs at lines 888, 924 and 938 become
  requires or proved ensures. Out-of-range `SetAt` writes are modelled as a
  fault, because CDataFile's bounds behaviour is not part of this model.
- FillVector.RowIndex and FillVector.FillVector: require `nRowsTR >= 1`.
  An empty TRfile is not modelled: `floor(r * 0)` is row 0, which an empty
  table does not have.
- Flimit.DofIndex: requires `nDim >= 2`. For smaller nDim the C code would
  index the F table at a negative position.
