/** Option and Result, in the shape of Rust's `Option<T>` and `Result<T, E>`. */
module Wrappers {

  datatype Option<+T> = None | Some(value: T)

  datatype Result<+T, +E> = Ok(value: T) | Err(error: E)

  /** The unit value `()` of an operation that returns `Result<(), E>`. */
  datatype Unit = Unit
}
