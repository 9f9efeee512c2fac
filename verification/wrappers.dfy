/** Optional values and results with an error, used by every module of the model. */
module Wrappers {

  /** An absent (`undefined`/`null`) or present value. */
  datatype Option<+T> = None | Some(value: T)

  /** The outcome of an operation that either succeeds or ends in an error response. */
  datatype Result<+T, +E> = Success(value: T) | Failure(error: E)
}
