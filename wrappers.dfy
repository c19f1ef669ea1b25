/** Optional values and fallible results, as the analysis uses them. */
module Wrappers {

  /** A JavaScript value that may be absent (`undefined`). */
  datatype Option<+T> = None | Some(value: T) {

    /** The value, or `default` when absent: JavaScript's `x || default` for values that are never falsy when present. */
    function GetOr(default: T): T {
      match this
      case Some(v) => v
      case None => default
    }
  }

  /** The outcome of an operation that may throw. */
  datatype Result<+R, +E> = Success(value: R) | Failure(error: E)
}
