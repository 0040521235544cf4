/** Failure-carrying datatypes shared by every module of the model. */
module Wrappers {

  /** A Go value that may be nil. */
  datatype Option<T> = None | Some(value: T)

  /** A Go `(value, error)` pair in which exactly one side is meaningful. */
  datatype Result<T, E> = Ok(value: T) | Err(error: E)
}
