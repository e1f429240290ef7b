/** Optional values and success-or-failure results, used for JavaScript's
    `undefined` lookups and for errors that the tester catches or throws. */
module Wrappers {

  datatype Option<+T> = None | Some(value: T) {

    /** The carried value, or `default` when there is none. */
    function GetOr(default: T): T {
      match this
      case Some(v) => v
      case None => default
    }

    /** The carried value as a sequence of length at most one. */
    function ToSeq(): seq<T> {
      match this
      case Some(v) => [v]
      case None => []
    }
  }

  datatype Result<+T, +E> = Success(value: T) | Failure(error: E)
}
