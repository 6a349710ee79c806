/** Bytes, and text as the bytes that encode it. */
module Octets {
  newtype byte = b: int | 0 <= b < 256

  type Bytes = seq<byte>

  /** Text is its bytes, which are well encoded; what well encoded is is a library's to say. */
  type Utf8 = Bytes -> bool
}
