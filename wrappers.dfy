/** The success-or-error value that Rust's `Result<T, E>` stands for. */
module Wrappers {

  datatype Result<+T, +E> = Ok(value: T) | Err(error: E)
}
