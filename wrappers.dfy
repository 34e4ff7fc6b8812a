/** Option and Result types used for Rust's `Option<T>` and `Result<T, String>`. */
module Wrappers {

  datatype Option<+T> = None | Some(value: T)

  /** `Err` carries the message string the Rust code builds for its `Err` value. */
  datatype Result<+T> = Ok(value: T) | Err(error: string)
}
