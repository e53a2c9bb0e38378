/** Option and Result, used for the values the program may fail to produce. */
module Wrappers {

  datatype Option<+T> = None | Some(value: T) {
    /** The wrapped value, or `default` when there is none (Python's `d.get(k, default)`). */
    function GetOr(default: T): T {
      match this
      case Some(v) => v
      case None => default
    }
  }

  /** The outcome of an operation that raises an exception on bad input. */
  datatype Result<+R, +E> = Success(value: R) | Failure(error: E)
}
