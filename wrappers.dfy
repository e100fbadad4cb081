/** Optional values and results with an error, used where the source has
    `undefined`/`null` fields and thrown errors. */
module Wrappers {

  /** An optional value: a field left `undefined`, or a `null` result. */
  datatype Option<T> = None | Some(value: T) {
    /** The `??` operator: the value if present, else the fallback. */
    function GetOr(fallback: T): T {
      match this
      case Some(v) => v
      case None => fallback
    }
  }

  /** The outcome of a handler that may throw. */
  datatype Result<T, E> = Ok(value: T) | Err(error: E)
}
