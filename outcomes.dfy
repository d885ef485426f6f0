/** Values that may be absent, and results that may carry an error message. */
module Outcomes {

  /** A value that may be missing (JavaScript `undefined`). */
  datatype Option<T> = None | Some(value: T)

  /** The outcome of an operation that either returns a value or throws an
      Error with a message. */
  datatype Result<T> = Ok(value: T) | Err(message: string)
}
