/** Failure-carrying values used across the model. */
module Wrappers {

  /** An optional value, the model of Rust's `Option`. */
  datatype Option<+T> = None | Some(value: T)

  /** The outcome of an operation that yields nothing on success, the model of `Result<(), E>`. */
  datatype Outcome<+E> = Pass | Fail(error: E)
}
