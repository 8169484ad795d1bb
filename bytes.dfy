/** Bytes as integers in [0, 256). */
module Bytes {
  type byte = b: int | 0 <= b < 256
}
