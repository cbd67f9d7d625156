/** Outcome types used across the model: an optional value, and the value of a
    call that either returns or raises. */
module Results {

  datatype Option<+T> = None | Some(value: T) {
    /** The carried value, or `default` when there is none. */
    function GetOr(default: T): T {
      match this
      case Some(v) => v
      case None => default
    }
  }

  /** A call that returns `Ok(value)` or raises `Err(error)`. */
  datatype Result<+T, +E> = Ok(value: T) | Err(error: E)
}
