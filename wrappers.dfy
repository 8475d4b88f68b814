/** Option and Result values used throughout the model. A Go function that
  * returns `nil` for "not found" yields `None`; a Go function that returns an
  * error or panics yields `Err` with a message. */
module Wrappers {
  datatype Option<T> = None | Some(value: T) {
    predicate IsSome() { Some? }

    function GetOr(default: T): T {
      match this
      case None => default
      case Some(v) => v
    }
  }

  datatype Result<T> = Ok(value: T) | Err(msg: string) {
    predicate IsOk() { Ok? }
  }
}
