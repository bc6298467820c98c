/** Failure-carrying values shared by the whole model: `Option` for the
    source's optionals and failable initialisers, `Result` for functions that
    throw. */
module Wrappers {

  datatype Option<+T> = None | Some(value: T) {
    function GetOr(default: T): T {
      match this
      case Some(v) => v
      case None => default
    }
  }

  datatype Result<+T, +E> = Ok(value: T) | Err(error: E)
}
