/** Option and Result values, as the generated code of the bit-layout macros returns them. */
module Wrappers {

  /** An optional value, such as a struct's declared default. */
  datatype Option<+T> = None | Some(value: T)

  /** Mirrors Rust's `Result`: `Ok` for success, `Err` carrying the failure value. */
  datatype Result<+R, +E> = Ok(value: R) | Err(error: E)
}
