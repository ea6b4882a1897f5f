/** Failure-carrying result types shared by the three calculators. */
module Wrappers {

  /** An optional value: the absence of a match or of a loaded dataset. */
  datatype Option<+T> = None | Some(value: T)

  /** The outcome of an operation that can be refused with a reason. */
  datatype Result<+T, +E> = Success(value: T) | Failure(error: E)
}
