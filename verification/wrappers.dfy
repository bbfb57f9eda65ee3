/** Failure-carrying datatypes shared by every module of the model. */
module Wrappers {

  /** A value that may be missing: Go's nil pointer or nil interface. */
  datatype Option<+T> = None | Some(value: T)

  /** Either a value or an error: Go's `(value, error)` return pair, exactly one of which is set. */
  datatype Result<+T, +E> = Success(value: T) | Failure(error: E)
}
