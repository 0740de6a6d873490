/** Results shared by every module: a value that may be missing, and a call that may throw. */
module Wrappers {
  datatype Option<+T> = None | Some(value: T) {
    function GetOr(default: T): T {
      match this
      case None => default
      case Some(v) => v
    }
  }

  datatype Result<+T> = Ok(value: T) | Err
}
