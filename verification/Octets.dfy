/** Octets and words as numbers, for the parts of the system that do no bit arithmetic. */
module Octets {
  type Octet = x: int | 0 <= x < 256

  type Word16 = x: int | 0 <= x < 0x1_0000

  type Word32 = x: int | 0 <= x < 0x1_0000_0000
}
