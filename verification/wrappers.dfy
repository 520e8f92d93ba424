/** Option and Result, the two wrappers the model uses for Kotlin's nullable
    values and for operations that stop early with an error. */
module Wrappers {

  /** A Kotlin `T?`: `None` is `null`. */
  datatype Option<+T> = None | Some(value: T) {

    /** The Elvis operator `this ?: default`. */
    function GetOr(default: T): T {
      match this
      case Some(v) => v
      case None => default
    }
  }

  /** The outcome of a guarded operation: a value, or the first check that failed. */
  datatype Result<+R, +E> = Ok(value: R) | Err(error: E)
}
