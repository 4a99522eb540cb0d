/** Kotlin's nullable values and thrown exceptions, as plain datatypes. */
module Wrappers {

  /** A Kotlin `T?`: `None` is `null`. */
  datatype Option<+T> = None | Some(value: T) {

    /** The value, or `default` when null (Kotlin's `?:`). */
    function GetOr(default: T): T {
      match this
      case Some(v) => v
      case None => default
    }
  }

  /** The outcome of a call that may throw. */
  datatype Result<+R, +E> = Ok(value: R) | Err(error: E)
}
