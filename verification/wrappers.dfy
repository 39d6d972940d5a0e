/** Wrappers used throughout the model: optional values
    (TypeScript's `T | undefined`), results of calls that may throw, and
    pass/fail outcomes of calls whose value the model does not need. */
module Wrappers {

  /** An optional value: `undefined` or a present value. */
  datatype Option<+T> = None | Some(value: T) {

    /** The present value, or `fallback` when absent. */
    function GetOr(fallback: T): T {
      match this
      case Some(v) => v
      case None => fallback
    }
  }

  /** The outcome of a call that either returns a value or throws an error. */
  datatype Result<+T, +E> = Success(value: T) | Failure(error: E)

  /** The outcome of a call whose return value is not modelled. */
  datatype Outcome<+E> = Pass | Fail(error: E)
}
