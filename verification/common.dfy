/** Shared wrappers: optional values, results, and the HTTP error every handler raises. */
module Common {

  /** A value that may be absent (Python's `None`). */
  datatype Option<+T> = None | Some(value: T)

  /** The outcome of an operation that can fail with an error of type E. */
  datatype Result<+T, +E> = Ok(value: T) | Err(error: E)

  /** An HTTP error as raised by the handlers: a status code and a detail message. */
  datatype HttpError = HttpError(status: nat, detail: string)

  /** Shorthand for an error result with the given status and detail. */
  function Fail<T>(status: nat, detail: string): Result<T, HttpError>
  {
    Err(HttpError(status, detail))
  }
}
