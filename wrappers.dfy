/** Failure-carrying results, standing in for the exceptions the program raises. */
module Wrappers {

  datatype Result<+T, +E> = Success(value: T) | Failure(error: E)
}
