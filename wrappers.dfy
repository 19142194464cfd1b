/** Option and Result values used in place of Python's None and raised exceptions. */
module Wrappers {

  /** A value that may be absent, as Python's `Optional[T]`. */
  datatype Option<+T> = None | Some(value: T)

  /** An outcome that is either a value or an error, for calls that may raise. */
  datatype Result<+T, +E> = Success(value: T) | Failure(error: E)
}
