/** Option and Result values shared by every module of the model. */
module Wrappers {

  /** A value that may be absent: Go's nil pointer, a missing map key,
      TypeScript's `undefined`. */
  datatype Option<+T> = None | Some(value: T) {
    function GetOr(default: T): T {
      match this
      case Some(v) => v
      case None => default
    }
  }

  /** The outcome of an operation that returns a value or an error, as Go's
      `(T, error)` pairs do. */
  datatype Result<+T, +E> = Ok(value: T) | Err(error: E)

  /** The outcome of a check that returns only an error, as a Go function
      returning `error` does: `Pass` is a nil error. */
  datatype Outcome<+E> = Pass | Fail(error: E)
}
