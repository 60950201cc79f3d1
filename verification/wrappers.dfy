/** Optional values and results with an error, shared by the other modules. */
module Wrappers {

  /** A value that may be absent: TypeScript's optional field or `undefined`. */
  datatype Option<+T> = None | Some(value: T) {

    /** The value when present, `default` otherwise: TypeScript's `x ?? default`. */
    function GetOr(default: T): (r: T)
      ensures Some? ==> r == value
      ensures None? ==> r == default
    {
      match this
      case Some(v) => v
      case None => default
    }
  }

  /** The outcome of an operation that either builds a value or fails with an error. */
  datatype Result<+T, +E> = Success(value: T) | Failure(error: E)
}
