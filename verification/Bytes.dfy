/** Bytes as the integers 0..255 (`flzuint8`, `uint8_t`, `unsigned char`). */
module Bytes {
  type byte = x: int | 0 <= x < 256
}
