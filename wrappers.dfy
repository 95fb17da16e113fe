/** Plain result datatypes standing in for Rust's Option, Result<T, E> and Result<(), E>. */
module Wrappers {

  datatype Option<+T> = None | Some(value: T)

  datatype Result<+T, +E> = Success(value: T) | Failure(error: E)

  /** A result without a payload, as Rust's `Result<(), E>`. */
  datatype Outcome<+E> = Pass | Fail(error: E)
}
