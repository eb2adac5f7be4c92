/** Failure-carrying datatypes shared by the migration modules. */
module Wrappers {

  datatype Option<+T> = None | Some(value: T)

  /** The outcome of a transform that can abort the whole run. */
  datatype Result<+R, +E> = Success(value: R) | Failure(error: E)
}
