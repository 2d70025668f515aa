/** Option and Result types shared by the other modules. */
module Wrappers {

  datatype Option<+T> = None | Some(value: T) {
    function GetOr(default: T): T {
      match this
      case Some(v) => v
      case None => default
    }
  }

  /** The outcome of an operation that Python would end with an exception or an exit. */
  datatype Result<+R, +E> = Ok(value: R) | Err(error: E)
}
