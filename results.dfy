/** Optional values and typed outcomes shared by both versions of the service. */
module Results {

  /** A value that may be absent: an unset pydantic field, a cache miss. */
  datatype Option<+T> = None | Some(value: T) {

    /** The value if present, otherwise `default`. */
    function GetOr(default: T): T {
      match this
      case Some(v) => v
      case None => default
    }
  }

  /** What a handler returns: its response, or the error it raises. */
  datatype Result<+T, +E> = Ok(value: T) | Err(error: E)
}
