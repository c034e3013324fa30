/** Optional values and error-carrying results, used for Python's `None` and for
    the exceptions and HTTP errors that the modelled code raises or returns. */
module Wrappers {

  datatype Option<+T> = None | Some(value: T) {
    function GetOr(default: T): T {
      match this
      case Some(v) => v
      case None => default
    }
  }

  datatype Result<+T, +E> = Ok(value: T) | Err(error: E)
}
