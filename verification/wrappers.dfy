/** Absent-or-present values and success-or-failure results, used wherever the
    Python code threads `None` or raises. */
module Wrappers {

  /** `None` plays the role of Python's `None`: a first-class "absent" value. */
  datatype Option<+T> = None | Some(value: T) {

    /** The wrapped value, or `default` when absent. */
    function GetOr(default: T): T {
      match this
      case Some(v) => v
      case None => default
    }
  }

  /** The outcome of a computation that may raise: `Failure` carries what was raised. */
  datatype Result<+T, +E> = Success(value: T) | Failure(error: E)
}
