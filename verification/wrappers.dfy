/** Failure-carrying values used in place of Python's `None` returns and raised exceptions. */
module Wrappers {

  /** A value that may be absent (Python's `None`). */
  datatype Option<+T> = None | Some(value: T)

  /** Either a computed value or the error that the source would raise instead. */
  datatype Result<+T, +E> = Success(value: T) | Failure(error: E)
}
