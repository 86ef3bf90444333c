/** Optional values and the success-or-exception result of a client call. */
module Outcomes {

  /** A value that may be absent (a Java reference that may be null). */
  datatype Option<+T> = None | Some(value: T)

  /** Either the value an operation returns or the exception it throws. */
  datatype Result<+T, +E> = Success(value: T) | Failure(error: E)
}
