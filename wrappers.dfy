/** Failure-compatible wrappers shared by every module of the model. */
module Wrappers {

  /** Python's `Optional[T]`: `None` or a present value. */
  datatype Option<+T> = None | Some(value: T) {
    function GetOr(default: T): T {
      match this
      case Some(v) => v
      case None => default
    }
  }

  /** A call that either returns a value or raises an error. */
  datatype Result<+T, +E> = Ok(value: T) | Err(error: E) {
    function ToOption(): Option<T> {
      match this
      case Ok(v) => Some(v)
      case Err(_) => None
    }
  }

  /**
   * A dictionary entry as seen by `dict.get(key, default)`: either the key
   * is missing, or it is present with a value (which may itself be `None`).
   */
  datatype Slot<+T> = Absent | Present(value: T) {
    function GetOr(default: T): T {
      match this
      case Present(v) => v
      case Absent => default
    }
  }
}
