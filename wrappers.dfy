/** Failure-carrying values shared by every module of the model. */
module Wrappers {

  /** A value that may be absent: Python's `None`, a `{}` parse result, an unset field. */
  datatype Option<+T> = None | Some(value: T)

  /** The exceptions the modelled code raises, each with the message it carries. */
  datatype Raised =
    | ValueError(message: string)
    | RuntimeError(message: string)
    | Exception(message: string)
    | ReError(message: string)     // `re.error`, raised when a pattern does not compile

  /** The outcome of an operation that either returns a value or raises. */
  datatype Result<+T> = Ok(value: T) | Err(error: Raised)
}
