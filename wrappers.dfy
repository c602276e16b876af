/** Option and Result, the two failure-carrying wrappers used throughout the model. */
module Wrappers {

  /** A value that may be missing: a nullable column of the play-by-play table. */
  datatype Option<+T> = None | Some(value: T)

  /** The outcome of a step that the original code may abort with an exception. */
  datatype Result<+T, +E> = Ok(value: T) | Err(error: E)
}
