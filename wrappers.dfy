/** Failure-compatible wrappers used for missing files and aborted scans. */
module Wrappers {

  /** A value that may be absent (a file that does not exist). */
  datatype Option<+T> = None | Some(value: T)

  /** The outcome of an operation that can abort with an error message. */
  datatype Result<+R, +E> = Success(value: R) | Failure(error: E)
}
