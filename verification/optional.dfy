/** `Option`, for every TypeScript `?:` field and every value that may be
    `undefined`, and `Result`, for validations that can refuse. */
module Optional {

  datatype Option<+T> = None | Some(value: T) {

    /** The wrapped value, or `default` when absent (TypeScript's `??`). */
    function GetOr(default: T): (r: T)
      ensures Some? ==> r == value
      ensures None? ==> r == default
    {
      match this
      case Some(v) => v
      case None => default
    }
  }

  /** A success value or the reason for failing. */
  datatype Result<+T, +E> = Success(value: T) | Failure(error: E)
}
