/** Failure-compatible wrappers shared by every module of the model. */
module Wrappers {

  /** A value that may be absent; Python's `None` in the result lists. */
  datatype Option<+T> = None | Some(value: T)

  /** The outcome of an operation whose Python original can raise. */
  datatype Result<+T, +E> = Ok(value: T) | Err(error: E)
}
