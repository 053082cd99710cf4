/** Optional values and success-or-error outcomes, used for the service's lookups and domain errors. */
module Wrappers {

  /** A value that may be absent (Python's `Optional[...]` / `None`). */
  datatype Option<+T> = None | Some(value: T) {
    /** The wrapped value, or `default` when absent. */
    function GetOr(default: T): T {
      match this
      case Some(v) => v
      case None => default
    }
  }

  /** The outcome of an operation that either returns a value or raises a domain error. */
  datatype Result<+R, +E> = Success(value: R) | Failure(error: E)
}
