/** Optional values and results with an error, as used across the model. */
module Wrappers {

  datatype Option<+T> = None | Some(value: T)

  /** A computation that either succeeds with a value or stops with an error. */
  datatype Result<+R, +E> = Success(value: R) | Failure(error: E)
}
