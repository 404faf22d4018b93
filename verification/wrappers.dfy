/** Option and Result: PHP's nullable values and thrown errors, as data. */
module Wrappers {

  /** `None` stands for PHP's `null`. */
  datatype Option<+T> = None | Some(value: T) {

    /** The value, or `default` when None: PHP's `$x ?? $default`. */
    function GetOr(default: T): T {
      match this
      case Some(v) => v
      case None => default
    }
  }

  /** A result that is either a value or the error the source would raise. */
  datatype Result<+T, +E> = Success(value: T) | Failure(error: E)
}
