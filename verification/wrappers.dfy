/** Optional values and success-or-error results, used for the source's
    `undefined`/`null` values, parsed numeric inputs and thrown errors. */
module Wrappers {

  /** `None` stands for `undefined`, `null` or an unparseable (NaN) input. */
  datatype Option<+T> = None | Some(value: T) {

    /** The value, or `default` when absent. */
    function GetOr(default: T): T {
      match this
      case Some(v) => v
      case None => default
    }
  }

  /** The outcome of an operation that may throw. */
  datatype Result<+R, +E> = Success(value: R) | Failure(error: E)
}
