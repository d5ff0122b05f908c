// Option and Result: Kotlin's nullable values and thrown exceptions.
module Wrappers {
  /** A Kotlin nullable value (`T?`). */
  datatype Option<+T> = None | Some(value: T)
  {
    /** The Elvis operator `x ?: d`. */
    function GetOr(d: T): T
    {
      match this
      case None => d
      case Some(v) => v
    }
  }

  /** The outcome of a computation that may throw: `Err` carries what failed. */
  datatype Result<+T, +E> = Ok(value: T) | Err(error: E)
}
