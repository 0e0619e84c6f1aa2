/** Failure-carrying result types shared by the whole model. */
module Wrappers {

  datatype Option<+T> = None | Some(value: T)

  /** The outcome of an operation that the source either completes or aborts by throwing. */
  datatype Result<+R, +E> = Success(value: R) | Failure(error: E)
}
