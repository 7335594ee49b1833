/** Option and Result datatypes for optional fields and for the error paths of the service. */
module Wrappers {

  /** An optional value: a JavaScript property that may be `undefined`. */
  datatype Option<+T> = None | Some(value: T)

  /** The outcome of an operation that either returns a value or throws with a reason. */
  datatype Result<+R, +E> = Success(value: R) | Failure(error: E)

  /** The outcome of an operation that returns nothing or throws with a reason. */
  datatype Outcome<+E> = Pass | Fail(error: E)
}
