/** Small failure-carrying datatypes shared by the other modules.
    Python's `None` becomes `None`, a raised exception becomes `Failure`/`Fail`. */
module Wrappers {

  /** A value that may be missing: a SQL NULL, a pandas NaN or Python's None. */
  datatype Option<+T> = None | Some(value: T) {
    /** The value, or `default` when it is missing. */
    function GetOr(default: T): T {
      match this
      case Some(v) => v
      case None => default
    }
  }

  /** A computation that either yields a value or raises an error. */
  datatype Result<+R, +E> = Success(value: R) | Failure(error: E)

  /** A check that either passes silently or raises an error. */
  datatype Outcome<+E> = Pass | Fail(error: E)
}
