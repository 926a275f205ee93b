/** Optional values and error results, as the TypeScript code expresses them with
    `undefined` and thrown errors. */
module Wrappers {

  /** A value that may be absent (`undefined` in the source). */
  datatype Option<+T> = None | Some(value: T) {

    /** The value, or `default` when absent. */
    function GetOr(default: T): T {
      match this
      case Some(v) => v
      case None => default
    }
  }

  /** A value, or the error the source would throw. */
  datatype Result<+R, +E> = Success(value: R) | Failure(error: E)
}
