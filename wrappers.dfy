/** Optional values and error results shared by the stores. */
module Wrappers {

  /** A value that may be absent (TypeScript's `T | undefined`). */
  datatype Option<+T> = None | Some(value: T) {
    function GetOr(default: T): T {
      match this
      case Some(v) => v
      case None => default
    }
  }

  /** The outcome of a store operation that can fail. */
  datatype Result<+R, +E> = Success(value: R) | Failure(error: E)

  /** The one failure the catalog reports to its callers. */
  datatype Error = NotFound(id: string)
}
