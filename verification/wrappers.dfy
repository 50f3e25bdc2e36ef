/** Failure-compatible wrappers used across the model: an optional value
    stands for a JavaScript `T | undefined` (or `T | null`). */
module Wrappers {

  datatype Option<+T> = None | Some(value: T) {

    /** Returns the wrapped value, or `default` when absent (the `?? default` idiom). */
    function GetOr(default: T): T {
      match this
      case Some(v) => v
      case None => default
    }
  }
}
