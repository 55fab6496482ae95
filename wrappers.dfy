/** Option and Result, used for Python's `None` and for exceptions that a caller catches. */
module Wrappers {

  datatype Option<+T> = None | Some(value: T) {
    function GetOr(default: T): T {
      match this
      case Some(v) => v
      case None => default
    }
  }

  /** `Failure` stands for an exception raised by the modelled code; `error` names it. */
  datatype Result<+R> = Success(value: R) | Failure(error: string)
}
