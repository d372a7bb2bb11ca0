/** Failure-compatible wrappers shared by every module of the model. */
module Wrappers {

  /** A value that may be absent: Python's `None`, JavaScript's `undefined`. */
  datatype Option<+T> = None | Some(value: T)

  /** Either a computed value or the exception the source would raise. */
  datatype Result<+T, +E> = Success(value: T) | Failure(error: E)
}
