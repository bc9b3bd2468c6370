/** Option and Result, the two wrappers the model uses. */
module Wrappers {

  /** A value that may be absent (Python's `None` default arguments). */
  datatype Option<+T> = None | Some(value: T)

  /** The outcome of a computation that can abort (an uncaught Python exception). */
  datatype Result<+R, +E> = Success(value: R) | Failure(error: E)
}
