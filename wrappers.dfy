/** Failure-carrying results shared by every module of the model. */
module Wrappers {

  /** A value that may be absent: JavaScript's `undefined` / `null` versus a present value. */
  datatype Option<+T> = None | Some(value: T) {
    function GetOr(default: T): T {
      match this
      case Some(v) => v
      case None => default
    }
  }

  /** The result of an operation that either returns a value or throws an error. */
  datatype Result<+T, +E> = Ok(value: T) | Err(error: E)

  /** The result of an operation without a return value that may throw. */
  datatype Outcome<+E> = Pass | Fail(error: E)
}
