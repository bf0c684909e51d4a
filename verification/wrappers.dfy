/** Option and Result, the failure-carrying datatypes the model uses for
    JavaScript's `null`/`undefined` and for thrown errors. */
module Wrappers {

  /** A value that may be absent (`null` or `undefined` in the source). */
  datatype Option<+T> = None | Some(value: T) {

    /** The wrapped value, or `default` when absent. */
    function GetOr(default: T): T {
      match this
      case Some(v) => v
      case None => default
    }
  }

  /** The outcome of an operation that either returns a value or throws. */
  datatype Result<+R, +E> = Success(value: R) | Failure(error: E)
}
