/** Optional values and success/failure results shared by every module. */
module Wrappers {

  /** A value that may be absent: Go's nil pointer or comma-ok miss. */
  datatype Option<+T> = None | Some(value: T)

  /** The outcome of an operation that can fail with an error value. */
  datatype Result<+R, +E> = Success(value: R) | Failure(error: E)
}
