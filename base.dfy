/** Optional values and failure-carrying results shared by every module. */
module Base {

  /** A value that may be absent (`undefined`/`null` in the source). */
  datatype Option<+T> = None | Some(value: T) {
    function GetOr(default: T): T {
      match this
      case Some(v) => v
      case None => default
    }
  }

  /** The outcome of an operation that can throw: a value, or the error thrown. */
  datatype Result<+T, +E> = Ok(value: T) | Err(error: E)
}
