/** Option and Result, the two failure-carrying shapes the Rust code uses. */
module Wrappers {

  datatype Option<+T> = None | Some(value: T)

  /** Rust's `Result<T, E>`; `Result<(), E>` stands for an operation that returns nothing on success. */
  datatype Result<+T, +E> = Ok(value: T) | Err(error: E)
}
