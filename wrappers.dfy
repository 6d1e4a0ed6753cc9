/** Option and Result: the absent value and the Go `(value, error)` pair. */
module Wrappers {

  datatype Option<+T> = None | Some(value: T) {
    function GetOr(default: T): T {
      match this
      case Some(v) => v
      case None => default
    }
  }

  /** A Go `(T, error)` return whose callers only use the value when the error is nil. */
  datatype Result<+T, +E> = Ok(value: T) | Err(error: E)
}
