/** Optional values and results with an error, used wherever the source returns
    a nil pointer or an error value. */
module Wrappers {

  /** `None` stands for the nil pointer the source returns for "no such row". */
  datatype Option<+T> = None | Some(value: T) {
    function GetOr(default: T): T {
      match this
      case Some(v) => v
      case None => default
    }
  }

  /** A value or the error the operation failed with. */
  datatype Result<+T, +E> = Ok(value: T) | Err(error: E)
}
