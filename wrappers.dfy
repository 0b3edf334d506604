/** Failure-carrying values shared by the other modules. */
module Wrappers {

  /** A value that may be absent (a nil pointer in the program). */
  datatype Option<+T> = None | Some(value: T)

  /** The outcome of a call that returns either a value or an error. */
  datatype Result<+R, +E> = Success(value: R) | Failure(error: E)
}
