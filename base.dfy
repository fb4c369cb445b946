/** Value types shared by every layer of the model: bytes, identifiers,
    the signed count of a repeat policy, and the Option/Result wrappers
    that stand for Rust's `Option` and `Result`. */
module Base {

  /** One byte of a command buffer (Rust `u8`). */
  type Byte = b: int | 0 <= b < 0x100

  /** A 128-bit characteristic identifier (the `uuid` crate's `Uuid`). */
  type Uuid = u: int | 0 <= u < 0x1_0000_0000_0000_0000_0000_0000_0000_0000

  /** Rust `i32`, the type of a `FiniteCount` repeat count. */
  type I32 = x: int | -0x8000_0000 <= x < 0x8000_0000

  datatype Option<+T> = None | Some(value: T)

  datatype Result<+T, +E> = Ok(value: T) | Err(error: E)
}
