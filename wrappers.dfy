/** Option, Result and Outcome: the error paths of the authorization service as values. */
module Wrappers {

  /** A value that may be absent (JavaScript `null` / `undefined`). */
  datatype Option<+T> = None | Some(value: T)

  /** A value or the error the source would have thrown. */
  datatype Result<+T, +E> = Ok(value: T) | Err(error: E)

  /** Success, or the error the source would have thrown, for operations with no result. */
  datatype Outcome<+E> = Pass | Fail(error: E)
}
