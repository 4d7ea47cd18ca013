/** Bytes as the searcher reads them from files (Rust `u8`). */
module Bytes {
  newtype byte = x: int | 0 <= x < 256

  const NUL: byte := 0
  const TAB: byte := 9
  const NEWLINE: byte := 10
  const SPACE: byte := 32
}
