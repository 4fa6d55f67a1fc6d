/** Optional values and results with an error, for the source's `undefined` and its thrown errors. */
module Wrappers {

  /** A value that may be absent, as a JavaScript field that was never assigned. */
  datatype Option<+T> = None | Some(value: T)

  /** The outcome of an operation that either returns a value or throws an error. */
  datatype Result<+T, +E> = Success(value: T) | Failure(error: E)
}
