/** Optional values and results with an error, standing for C#'s null and exceptions. */
module Wrappers {

  /** A value that may be missing: `None` stands for C#'s `null`. */
  datatype Option<+T> = None | Some(value: T)

  /** The outcome of an operation that may raise: `Failure` stands for an exception. */
  datatype Result<+R, +E> = Success(value: R) | Failure(error: E)
}
