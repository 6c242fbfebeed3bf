/** Option and Result: a missing dictionary key, and an exception raised with its message. */
module Wrappers {

  datatype Option<+T> = None | Some(value: T) {
    /** The value, or `default` when absent (Python's `d.get(key, default)`). */
    function GetOr(default: T): T {
      match this
      case Some(v) => v
      case None => default
    }
  }

  /** `Err(message)` models a raised exception whose `str(e)` is `message`. */
  datatype Result<+R> = Ok(value: R) | Err(message: string)
}
