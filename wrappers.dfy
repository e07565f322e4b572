/** Failure-compatible wrappers shared by the model: an optional value (a
    JavaScript `undefined` or a present value) and a result carrying either a
    value or the error a JavaScript expression would throw. */
module Wrappers {

  datatype Option<+T> = None | Some(value: T) {
    function GetOr(default: T): T {
      match this
      case Some(v) => v
      case None => default
    }
  }

  /** The errors the modelled code can raise. */
  datatype Error =
    /** Reading a property of `undefined` (`_.find(...)` found nothing). */
    | TypeError(message: string)

  datatype Result<+R> = Ok(value: R) | Err(error: Error)
}
