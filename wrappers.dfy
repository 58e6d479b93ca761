/** Option and Result, the failure-carrying wrappers used by the whole model. */
module Wrappers {

  /** A value that may be absent: a missing cell, or a parse that failed. */
  datatype Option<+T> = None | Some(value: T)

  /** The outcome of an operation that raises in `main.py`. */
  datatype Result<+T, +E> = Success(value: T) | Failure(error: E)
}
