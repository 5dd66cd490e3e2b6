/** Failure-carrying values used where the program catches an exception. */
module Wrappers {

  /** A value that may be missing; `None` stands for a call that raised. */
  datatype Option<+T> = None | Some(value: T)

  /** The outcome of a call into an external provider. */
  datatype Result<+T, +E> = Ok(value: T) | Err(error: E)
}
