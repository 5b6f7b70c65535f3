/** Optional values and success-or-failure results. */
module Wrappers {

  /** A value that may be absent: a nullable column, an optional property. */
  datatype Option<+T> = None | Some(value: T)

  /** The outcome of an operation that either produces a value or fails with an error. */
  datatype Result<+R, +E> = Success(value: R) | Failure(error: E)
}
