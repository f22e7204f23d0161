/** Optional values and results with an error message, standing for Kotlin's
    nullable types and for Kotlin's `onError(message)` callbacks. */
module Wrappers {

  datatype Option<+T> = None | Some(value: T) {
    /** Kotlin's `x ?: default`. */
    function GetOr(default: T): T {
      match this
      case Some(v) => v
      case None => default
    }
  }

  datatype Result<+R> = Success(value: R) | Failure(error: string)
}
