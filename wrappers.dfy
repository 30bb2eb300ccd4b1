/** Failure-carrying values used in place of Python's exceptions and NaN. */
module Wrappers {

  /** `None` stands for a missing value (NaN in the result columns). */
  datatype Option<+T> = None | Some(value: T)

  /** The outcome of an operation that raises instead of returning on failure. */
  datatype Result<+R, +E> = Success(value: R) | Failure(error: E)
}
