/** Result, for the lookups and selections that can fail. */
module Wrappers {
  datatype Result<T, E> = Success(value: T) | Failure(error: E)
}
