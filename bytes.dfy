/** Byte strings: Rust's `String::len` counts UTF-8 bytes, so keys and values are byte sequences. */
module Bytes {
  newtype byte = x: int | 0 <= x < 256

  type Bytes = seq<byte>
}
