/**
 * Values shared by every module: optional values, results, and the Python
 * exceptions the modelled code raises or catches. A Python exception is
 * modelled by its class and its message; `str(e)` is the message.
 */
module Outcomes {

  datatype Option<+T> = None | Some(value: T)

  /**
   * The exception classes that the modelled code raises or re-raises; an
   * exception from outside code (the Drive service, the language model) that
   * is caught by a broad handler is `OtherException`.
   */
  datatype ExcKind =
    | ValueError
    | RuntimeError
    | FileNotFoundError
    | OSError
    | NameError
    | OtherException

  /** An exception; `msg` is what `str(e)` gives. */
  datatype Exc = Exc(kind: ExcKind, msg: string)

  /** A call that either returns a value or raises. */
  datatype Result<+T> = Ok(value: T) | Err(error: Exc)
}
