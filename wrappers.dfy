/** Failure-carrying values used across the model: an optional value, and the
    outcome of a Python operation that may raise one of the built-in
    exceptions the modelled code runs into. */
module Wrappers {

  datatype Option<T> = None | Some(value: T)

  /** The exceptions the modelled Python code can raise on malformed input. */
  datatype PyError = ValueError | TypeError | IndexError

  datatype Result<T> = Ok(value: T) | Err(error: PyError)
}
