/** Optional values and results with an error, the two shapes the app's nullable
    references and exceptions take in this model. */
module Wrappers {

  /** A Java reference that may be null (`None`). */
  datatype Option<+T> = None | Some(value: T)

  /** The outcome of a computation that may throw: `Failure` carries which exception. */
  datatype Result<+R, +E> = Success(value: R) | Failure(error: E)
}
