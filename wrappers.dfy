/** Failure-carrying values shared by the other modules: Rust's Option and Result. */
module Wrappers {

  datatype Option<+T> = None | Some(value: T)

  datatype Result<+T, +E> = Ok(value: T) | Err(error: E)

  /** The `()` of a `Result<(), E>`: an operation that succeeds without a value. */
  datatype Unit = Unit
}
