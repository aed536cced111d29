/** Failure-carrying datatypes shared by every module of the model. */
module Wrappers {

  /** An optional value: the model's rendering of a nullable pointer or an `Option`. */
  datatype Option<+T> = None | Some(value: T) {
    function GetOr(default: T): T {
      match this
      case Some(v) => v
      case None => default
    }
  }

  /** The outcome of a fallible operation: a value or an error of a closed error type. */
  datatype Result<+R, +E> = Ok(value: R) | Err(error: E)

  /** The outcome of a fallible operation that produces nothing on success. */
  datatype Outcome<+E> = Pass | Fail(error: E)
}
