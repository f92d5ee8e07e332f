/** Failure-carrying datatypes shared by the grid environment and the
    trajectory bookkeeping: `Option` for Python's `None`, `Result` for an
    operation that may raise. */
module Wrappers {

  datatype Option<+T> = None | Some(value: T) {
    /** The value held, or `default` when there is none (Python's `x or default`). */
    function GetOr(default: T): T {
      match this
      case Some(v) => v
      case None => default
    }
  }

  datatype Result<+R, +E> = Success(value: R) | Failure(error: E)
}
