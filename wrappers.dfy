/** The result type used for the code paths that raise in the source. */
module Wrappers {
  datatype Result<+T, +E> = Success(value: T) | Failure(error: E)
}
