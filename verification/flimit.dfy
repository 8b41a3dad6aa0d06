/** The F-test limit used by `approximate` to stop splitting: a
    degrees-of-freedom index derived from the dimension selects an entry of a
    fixed table of F values (90% level), and a fixed value then overrides it. */
module Flimit {

  /** adblFconstant: F values for 2..10, 20, 30, 40 and 60 degrees of freedom. */
  const FTable: seq<real> := [9.00, 5.39, 4.11, 3.45, 3.05, 2.78, 2.59, 2.44, 2.32, 1.79, 1.61, 1.51, 1.40]

  /** The value assigned to dblFlimit after the table lookup. */
  const FlimitOverride: real := 1.4

  /** dofIndex: `nDim - 2`, then replaced by 8, 9, 10, 11, 12 as `nDim`
      passes 10, 20, 30, 40 and 60, the later tests winning. */
  function DofIndex(nDim: int): (r: int)
    requires nDim >= 2
    ensures 0 <= r < |FTable|
    ensures nDim <= 10 ==> r == nDim - 2
    ensures 10 < nDim <= 20 ==> r == 8
    ensures 20 < nDim <= 30 ==> r == 9
    ensures 30 < nDim <= 40 ==> r == 10
    ensures 40 < nDim <= 60 ==> r == 11
    ensures 60 < nDim ==> r == 12
  {
    var d0 := nDim - 2;
    var d1 := if nDim > 10 then 8 else d0;
    var d2 := if nDim > 20 then 9 else d1;
    var d3 := if nDim > 30 then 10 else d2;
    var d4 := if nDim > 40 then 11 else d3;
    if nDim > 60 then 12 else d4
  }

  /** The outcome of the selection: the index, the table's limit, and the
      limit actually used for splitting. */
  datatype FlimitChoice = FlimitChoice(dofIndex: int, tableLimit: real, used: real)

  /** The selection in `approximate`.  The limit used is the override,
      whatever the dimension; it never exceeds the table's limit and equals
      it exactly when `nDim > 60`. */
  function SelectFlimit(nDim: int): (r: FlimitChoice)
    requires nDim >= 2
    ensures r.dofIndex == DofIndex(nDim) && r.tableLimit == FTable[r.dofIndex]
    ensures r.used == FlimitOverride
    ensures r.used <= r.tableLimit
    ensures r.used == r.tableLimit <==> nDim > 60
  {
    var i := DofIndex(nDim);
    FlimitChoice(i, FTable[i], FlimitOverride)
  }

  /** The table is strictly decreasing: more degrees of freedom, a smaller F. */
  lemma FTableStrictlyDecreasing(i: int, j: int)
    requires 0 <= i < j < |FTable|
    ensures FTable[i] > FTable[j]
  {
  }

  /** The index never decreases as the dimension grows. */
  lemma DofIndexMonotone(a: int, b: int)
    requires 2 <= a <= b
    ensures DofIndex(a) <= DofIndex(b)
  {
  }

  /** Hence the table limit never increases as the dimension grows. */
  lemma TableLimitNonIncreasing(a: int, b: int)
    requires 2 <= a <= b
    ensures SelectFlimit(b).tableLimit <= SelectFlimit(a).tableLimit
  {
    DofIndexMonotone(a, b);
    if DofIndex(a) < DofIndex(b) {
      FTableStrictlyDecreasing(DofIndex(a), DofIndex(b));
    }
  }

  /** The limit used does not depend on the dimension. */
  lemma UsedLimitIndependentOfDimension(a: int, b: int)
    requires 2 <= a && 2 <= b
    ensures SelectFlimit(a).used == SelectFlimit(b).used
  {
  }
}
