/** Failure-carrying results shared by the two stores. A JavaScript store
    method that throws becomes a `Fail` / `Failure` here; one that returns
    normally becomes `Pass` / `Success`. */
module Outcomes {

  datatype Option<+T> = None | Some(value: T)

  /** The outcome of an operation that returns a value or throws. */
  datatype Result<+T, +E> = Success(value: T) | Failure(error: E)

  /** The outcome of an operation that returns nothing or throws. */
  datatype Outcome<+E> = Pass | Fail(error: E)
}
