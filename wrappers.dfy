/** Failure-carrying datatypes shared by the model. */
module Wrappers {

  /** An optional value: None stands for a read that failed. */
  datatype Option<+T> = None | Some(value: T)

  /** Either a value or the reason it could not be produced. */
  datatype Result<+R, +E> = Success(value: R) | Failure(error: E)
}
