/** Optional values, results, and the Python exceptions that the modelled
    code lets escape to its caller. */
module Wrappers {

  datatype Option<T> = None | Some(value: T) {
    /** dict.get(key, default): the value when present, the default otherwise. */
    function GetOr(default: T): T {
      match this
      case Some(v) => v
      case None => default
    }
  }

  /** An exception raised by the Python code and not caught inside it. */
  datatype PyError =
    | TypeError          // comparing None with a datetime while sorting
    | ZeroDivisionError  // a division whose divisor is zero
    | ValueError         // datetime.strptime rejecting a date string

  datatype Result<T> = Ok(value: T) | Err(error: PyError)
}
