/** Option and Result, the stand-ins for Python's None and for raised exceptions. */
module Wrappers {

  datatype Option<+T> = None | Some(value: T)

  /** Success carries the returned value; Failure carries the exception that was raised. */
  datatype Result<+T, +E> = Success(value: T) | Failure(error: E)
}
