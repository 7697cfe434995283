/** Optional values (a translator's `null`) and results (an exception thrown at construction). */
module Wrappers {
  datatype Option<+T> = None | Some(value: T)

  datatype Result<+T, +E> = Success(value: T) | Failure(error: E)
}
