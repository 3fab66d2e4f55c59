/** Failure-compatible result types shared by the whole model. */
module Wrappers {

  /** A value that may be absent (a Go nil, a missing key, a failed step). */
  datatype Option<+T> = None | Some(value: T)

  /** The outcome of an operation that returns a Go `error` on failure. */
  datatype Result<+R, +E> = Success(value: R) | Failure(error: E)
}
