/** Failure-carrying values used across the model. */
module Wrappers {

  /** A value that may be absent: a nullable column, a `None` return. */
  datatype Option<+T> = None | Some(value: T)

  /** The outcome of an operation that either returns or raises. */
  datatype Result<+T, +E> = Ok(value: T) | Err(error: E)
}
