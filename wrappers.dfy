/** Option and Result datatypes used throughout the model. */
module Wrappers {

  /** A value that may be missing: JavaScript's `null`, `undefined` or a `false` sentinel. */
  datatype Option<+T> = None | Some(value: T)

  /** The normal result of an operation, or the exception it throws. */
  datatype Result<+T, +E> = Ok(value: T) | Err(error: E)
}
