/** Bytes, and sizes of 64 bits. */
module Bytes {
  newtype byte = x: int | 0 <= x < 0x100

  const SIZE_LIMIT: nat := 0x1_0000_0000_0000_0000   // one more than a SIZE_T can hold
}
