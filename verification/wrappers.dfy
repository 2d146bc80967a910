/** Option and Result values used wherever the components return "nothing" or an error. */
module Wrappers {

  datatype Option<+T> = None | Some(value: T) {
    /** The JavaScript `x || d` fallback for a missing value. */
    function GetOr(default: T): T {
      match this
      case Some(v) => v
      case None => default
    }
  }

  datatype Result<+R, +E> = Success(value: R) | Failure(error: E)
}
