/** Optional values and success-or-error results, used for nullable
    columns and for handlers whose transaction can fail. */
module Results {

  /** A value that may be absent, like a NULL column or a missing row. */
  datatype Option<+T> = None | Some(value: T) {

    /** The carried value, or `default` when there is none. */
    function GetOr(default: T): T {
      match this
      case Some(v) => v
      case None => default
    }
  }

  /** The outcome of a computation that either succeeds with a value or
      fails with an error. */
  datatype Result<+T, +E> = Success(value: T) | Failure(error: E)
}
