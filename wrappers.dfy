/** Failure-compatible wrappers shared by every module of the model. */
module Wrappers {

  /** A value that may be absent; stands for a Java reference that may be null. */
  datatype Option<+T> = None | Some(value: T)

  /** The outcome of an operation that may throw: a value, or the exception it raised. */
  datatype Result<+R, +E> = Ok(value: R) | Err(error: E)
}
