/** Structured results of the simulator's operations: a value, or the reason
    the operation stopped before producing one. */
module Outcomes {

  /** Why an operation produced no value. */
  datatype Error =
    | InvalidParameter   // a parameter that must be positive was not
    | EmptyGrid          // the time grid held no point, so there is no initial sample to set
    | EmptyWindow        // a window to reduce held no sample (numpy's max needs one)
    | NoDataToExport     // export requested before any simulation stored a trace

  datatype Result<T> = Ok(value: T) | Err(error: Error) {
    predicate IsFailure() { Err? }
    function PropagateFailure<U>(): Result<U>
      requires Err?
    {
      Err(error)
    }
    function Extract(): T
      requires Ok?
    {
      value
    }
  }
}
