/** Option and Result: the model's stand-ins for PHP's NULL/FALSE returns and exceptions. */
module Wrappers {

  datatype Option<+T> = None | Some(value: T) {
    function GetOr(default: T): T {
      match this
      case Some(v) => v
      case None => default
    }
  }

  datatype Result<+R, +E> = Success(value: R) | Failure(error: E)
}
