/** `Option` stands in for Kotlin's nullable types and `Result` for a call that may throw. */
module Wrappers {

  /** A Kotlin `T?`: `None` is `null`. */
  datatype Option<+T> = None | Some(value: T) {
    /** Kotlin's `?:` (elvis) operator. */
    function GetOr(default: T): T {
      match this
      case Some(v) => v
      case None => default
    }
  }

  /** The outcome of a call that may throw: `Failure` carries the exception. */
  datatype Result<+R, +E> = Success(value: R) | Failure(error: E)
}
