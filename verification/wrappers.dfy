/** Failure-carrying datatypes shared by the model. */
module Wrappers {

  /** An optional value: the model's stand-in for a keyword argument left unset (Python `None`). */
  datatype Option<+T> = None | Some(value: T)

  /** Either a value or an error: the model's stand-in for a function that may raise. */
  datatype Result<+R, +E> = Success(value: R) | Failure(error: E)
}
