/** Optional values and results, the model's stand-ins for Python's None and
    for a raised exception. */
module Wrappers {

  /** A value that may be absent (Python's None). */
  datatype Option<+T> = None | Some(value: T) {
    function GetOr(default: T): T {
      match this
      case Some(v) => v
      case None => default
    }
  }

  /** Either a returned value or a raised exception. */
  datatype Result<+R, +E> = Success(value: R) | Failure(error: E)
}
