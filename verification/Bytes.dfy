/** Bytes as numbers, for code that computes with them. */
module Bytes {
  newtype byte = b: int | 0 <= b < 256

  const NUL: byte := 0
  const LF: byte := 10
  const CR: byte := 13
}
