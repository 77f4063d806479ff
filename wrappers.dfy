/**
 * Option for the places where the source reads a nullable value, and Result
 * for a call that returns a value or throws.
 */
module Wrappers {

  datatype Option<+T> = None | Some(value: T) {

    /** The Kotlin elvis operator `x ?: default`. */
    function GetOr(default: T): T {
      match this
      case Some(v) => v
      case None => default
    }
  }

  /** Kotlin's outcome of a call that returns a value or throws (the exception's class name). */
  datatype Result<+T> = Success(value: T) | Failure(exception: string)
}
