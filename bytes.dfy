/** Fixed-width unsigned integers of Rust, as bounded subranges of `int`. */
module Bytes {

  /** Rust's `u8`. */
  newtype byte = n: int | 0 <= n < 0x100

  /** Rust's `u32`. */
  newtype u32 = n: int | 0 <= n < 0x1_0000_0000
}
