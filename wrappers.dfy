/** Optional values and success-or-error results, used where the server
    returns null or throws. */
module Wrappers {

  /** A value that may be absent (JavaScript's null). */
  datatype Option<+T> = None | Some(value: T)

  /** The outcome of an operation that either succeeds or reports an error. */
  datatype Result<+R, +E> = Success(value: R) | Failure(error: E)
}
