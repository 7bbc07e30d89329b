/** Null-or-value and success-or-exception wrappers used across the model. */
module Outcomes {

  /** A Java reference that may be null. */
  datatype Option<+T> = None | Some(value: T)

  /** The value a Java call returns, or the exception it throws. */
  datatype Result<+T, +E> = Ok(value: T) | Err(error: E)

  /** A `void` Java call: it returns normally or throws. */
  datatype Outcome<+E> = Pass | Fail(error: E)
}
