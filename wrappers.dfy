/** Optional values and call outcomes shared by both controllers. */
module Wrappers {

  /** An optional value: Swift's `T?`. */
  datatype Option<+T> = None | Some(value: T) {

    /** The wrapped value, or `default` when absent (Swift's `??`). */
    function GetOr(default: T): T {
      match this
      case Some(v) => v
      case None => default
    }
  }

  /** The outcome of a Swift `throws` function that returns nothing. */
  datatype Outcome<+E> = Pass | Fail(error: E)
}
