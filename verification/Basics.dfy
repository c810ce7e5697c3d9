// Shared vocabulary: optional values, bytes and 64-bit words.
module Basics {
  datatype Option<+T> = None | Some(value: T)

  type Byte = x: int | 0 <= x < 256

  const TWO_TO_THE_63: nat := 0x8000_0000_0000_0000
  const TWO_TO_THE_64: nat := 0x1_0000_0000_0000_0000

  // A uint64: every arithmetic result that may leave the range is reduced by hand.
  type Word = x: int | 0 <= x < TWO_TO_THE_64
}
