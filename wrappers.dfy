/** Option and Result, the failure-compatible wrappers used throughout the model.
    A Python function that returns None is modelled with Option; one that raises
    an exception is modelled with Result, whose error carries the exception's name. */
module Wrappers {

  datatype Option<+T> = None | Some(value: T) {
    function GetOr(default: T): T {
      match this
      case Some(v) => v
      case None => default
    }
  }

  datatype Result<+R> = Ok(value: R) | Err(error: string)
}
