/** Option and Result types, for Go's pattern of returning a value together with an error. */
module Wrappers {

  /** A value that may be absent (a nil error, a line that could not be read). */
  datatype Option<+T> = None | Some(value: T)

  /** Either a value or the error that took its place. */
  datatype Result<+T, +E> = Success(value: T) | Failure(error: E)
}
