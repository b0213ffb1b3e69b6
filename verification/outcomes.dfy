/** Optional values and success-or-failure results, standing in for Java's
    `null` and for the exceptions the listener can raise. */
module Outcomes {

  /** A value that may be absent (a Java reference that may be `null`). */
  datatype Option<+T> = None | Some(value: T)

  /** The outcome of a computation that either yields a value or raises. */
  datatype Result<+T, +E> = Success(value: T) | Failure(error: E)
}
