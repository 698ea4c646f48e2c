/** Optional values and success/failure results, the two ways the front end
    represents "this field may be absent" and "this step may fail". */
module Wrappers {

  /** A JSON field or React state slot that may be `null`/`undefined`. */
  datatype Option<+T> = None | Some(value: T) {
    function GetOr(default: T): T {
      match this
      case Some(v) => v
      case None => default
    }
  }

  /** The outcome of a step that either yields a value or a user-facing error. */
  datatype Result<+R, +E> = Success(value: R) | Failure(error: E)
}
