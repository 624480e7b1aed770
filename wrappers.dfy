/** Success/failure carriers for the Rust `Option` and `Result` types used by the notes layer. */
module Wrappers {

  /** Rust's `Option<T>`. */
  datatype Option<+T> = None | Some(value: T)

  /** Rust's `Result<T, E>`. */
  datatype Result<+T, +E> = Ok(value: T) | Err(error: E)

  /** Rust's `Result<(), E>`: a call that returns nothing on success. */
  datatype Outcome<+E> = Pass | Fail(error: E)
}
