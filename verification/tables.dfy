/** Data tables (the CDataFile objects TVfile, TRfile, VARfile, TRfile1 and
    TRfile2): rows of `nDim` reals, column `nDim - 1` holding the output. */
module Tables {

  type Row = seq<real>
  type Table = seq<Row>

  /** Every row has exactly `cols` entries. */
  predicate Shaped(t: Table, cols: nat) {
    forall i :: 0 <= i < |t| ==> |t[i]| == cols
  }

  /** A row of `cols` zeros. */
  function ZeroRow(cols: nat): (r: Row)
    ensures |r| == cols
    ensures forall j :: 0 <= j < cols ==> r[j] == 0.0
  {
    seq(cols, _ => 0.0)
  }

  /** The table CDataFile::Create(rows, cols) hands back.  Its contents are
      not visible; they are taken to be zeros, and no property below depends
      on that choice beyond "rows nobody writes keep what Create gave them". */
  function Created(rows: nat, cols: nat): (t: Table)
    ensures |t| == rows && Shaped(t, cols)
    ensures forall i :: 0 <= i < rows ==> t[i] == ZeroRow(cols)
  {
    seq(rows, _ => ZeroRow(cols))
  }

  /** Sum of column `j` over the first `n` rows. */
  function ColumnSum(t: Table, j: nat, n: nat): real
    requires n <= |t|
    requires forall i :: 0 <= i < n ==> j < |t[i]|
  {
    if n == 0 then 0.0 else ColumnSum(t, j, n - 1) + t[n - 1][j]
  }
}
