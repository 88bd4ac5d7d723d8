/** Failure-carrying return values shared by every module of the model. */
module Wrappers {

  /** A value that may be absent (a nil pointer or a missing map entry in the source). */
  datatype Option<+T> = None | Some(value: T)

  /** The (value, error) pair of a Go function: either a value or an error message. */
  datatype Result<+T> = Ok(value: T) | Err(error: string)
}
