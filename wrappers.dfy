/** The Option and Result types shared by the modules of the model. */
module Wrappers {

  /** A value that may be absent: Python's `None` versus an object. */
  datatype Option<+T> = None | Some(value: T) {

    /** The wrapped value, or `default` when absent. */
    function GetOr(default: T): T {
      match this
      case Some(v) => v
      case None => default
    }
  }

  /** The outcome of an operation that may raise: a value, or the exception raised. */
  datatype Result<+T, +E> = Success(value: T) | Failure(error: E)
}
