/** Machine integer widths shared by the encoder and the protocol layer. */
module Bytes {
  /** An unsigned 8-bit value (Rust's `u8`). */
  type u8 = b: int | 0 <= b < 0x100
}
