/** Outcomes of the training set-up routines.  The program stops with
    `exit(0)` on a fatal configuration error; a write outside a data table
    is treated the same way here, as a fault the caller cannot continue from. */
module Faults {

  datatype Fault =
    | ConstantInput(axis: nat)          // an input axis has tolerance 0
    | RowOutOfRange(row: int, rows: nat) // a table write at a row outside [0, rows)

  datatype Result<+T> = Ok(value: T) | Fail(fault: Fault) {

    predicate IsFailure() {
      Fail?
    }

    function PropagateFailure<U>(): Result<U>
      requires Fail?
    {
      Fail(fault)
    }

    function Extract(): T
      requires Ok?
    {
      value
    }
  }
}
