/** Optional values and results with an error, as used throughout the model. */
module Wrappers {

  /** A value that may be absent (Java's @Nullable). */
  datatype Option<+T> = None | Some(value: T)

  /** The outcome of an operation that fails fast with an error instead of returning. */
  datatype Result<+T, +E> = Success(value: T) | Failure(error: E)
}
