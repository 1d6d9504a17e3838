/** Result types shared by every module. */
module Wrappers {

  datatype Option<+T> = None | Some(value: T)

  /** How a Rust call ends: with a value, with an `Err`, or with a panic. */
  datatype Outcome<+T> = Ok(value: T) | Err | Panic
}
