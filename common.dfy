/** Failure-compatible wrappers shared by every module of the model. */
module Common {

  /** A value that may be absent (`undefined` / `None` in the source). */
  datatype Option<+T> = None | Some(value: T)

  /** The outcome of an operation that can raise: the value, or the reason it failed. */
  datatype Result<+T, +E> = Ok(value: T) | Err(error: E)

  /** The Python exceptions the back end's helpers can raise on malformed input. */
  datatype Exception = AttributeError | IndexError | KeyError | TypeError | ValueError
}
