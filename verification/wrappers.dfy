/** Failure-free helper datatypes shared by the models. */
module Wrappers {
  /** A Go pointer or a nullable column: absent, or present with a value. */
  datatype Option<+T> = None | Some(value: T) {
    function GetOr(default: T): T {
      match this
      case Some(v) => v
      case None => default
    }
  }

  /** A Go `(value, error)` pair, keeping only one of the two. */
  datatype Result<+T, +E> = Ok(value: T) | Err(error: E)
}
