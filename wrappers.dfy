/** Option and Result values shared by the modules of this model. */
module Wrappers {

  /** A value that may be absent (a JavaScript `null` or `undefined`). */
  datatype Option<+T> = None | Some(value: T) {
    function GetOr(default: T): T {
      match this
      case Some(v) => v
      case None => default
    }
  }

  /** Either a value or the error the source would throw or return. */
  datatype Result<+R, +E> = Success(value: R) | Failure(error: E)
}
