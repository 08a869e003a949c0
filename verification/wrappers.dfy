/** Failure-compatible Option and Result types used throughout the model. */
module Wrappers {

  datatype Option<+T> = None | Some(value: T)

  /** Every session operation either succeeds with a new state or reports an
      error kind; an error never carries a state, so it cannot change one. */
  datatype Result<+R, +E> = Success(value: R) | Failure(error: E)
}
