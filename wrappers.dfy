/** The outcome of a call that may raise: the value it returns, or the exception it raises. */
module Wrappers {

  datatype Result<+T, +E> = Success(value: T) | Failure(error: E)
}
