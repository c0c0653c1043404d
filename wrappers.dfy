/** Failure-compatible wrappers used across the model. */
module Wrappers {

  /** Python's `None` versus a present value. */
  datatype Option<+T> = None | Some(value: T) {

    /** The wrapped value, or `default` when absent (like `dict.get(key, default)`). */
    function GetOr(default: T): T {
      match this
      case Some(v) => v
      case None => default
    }
  }

  /** Success, or the exception a mutator raises. */
  datatype Outcome<+E> = Pass | Fail(error: E)
}
