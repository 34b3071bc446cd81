/** Failure-carrying wrappers used throughout the model in place of Python exceptions. */
module Outcomes {

  datatype Option<+T> = None | Some(value: T)

  /** A value, or the error the Python code would have raised instead. */
  datatype Result<+T, +E> = Ok(value: T) | Err(error: E)

  /** Success without a value, or the error raised. */
  datatype Outcome<+E> = Pass | Fail(error: E)
}
