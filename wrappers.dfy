/** Optional values and success/failure results shared by the modules of this model. */
module Wrappers {

  /** A value that may be absent: `undefined`, `null` or a missing row in the source. */
  datatype Option<+T> = None | Some(value: T) {
    function GetOr(default: T): T {
      match this
      case Some(v) => v
      case None => default
    }
  }

  /** The outcome of an operation that can fail, such as an SQL statement that hits a constraint. */
  datatype Result<+R, +E> = Success(value: R) | Failure(error: E)
}
