/** Failure-compatible result types shared by the model. */
module Wrappers {

  /** A value that may be missing: the outcome of a Python call that may raise. */
  datatype Option<+T> = None | Some(value: T)

  /** A value or the error that a Python function raises instead of returning. */
  datatype Result<+T, +E> = Success(value: T) | Failure(error: E)
}
