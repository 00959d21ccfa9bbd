/** Small failure-compatible wrappers shared by the other modules. */
module Wrappers {

  /** A value that may be absent: a file that may not exist on disk. */
  datatype Option<+T> = None | Some(value: T)

  /** The outcome of a step that may raise instead of returning. */
  datatype Result<+T, +E> = Success(value: T) | Failure(error: E)
}
