/** Failure-carrying datatypes shared by the rest of the model. */
module Wrappers {

  /** A value that may be missing: Python's `None` versus a present value. */
  datatype Option<+T> = None | Some(value: T) {

    /** The carried value, or `default` when there is none. */
    function GetOr(default: T): T {
      match this
      case Some(v) => v
      case None => default
    }
  }

  /** The outcome of a step that can raise: a value, or the error that ends the run. */
  datatype Result<+T, +E> = Success(value: T) | Failure(error: E)
}
