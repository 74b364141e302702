/** Machine words of the C source as bounded naturals, and their signed readings. */
module Words {
  const TWO16: int := 0x1_0000
  const TWO32: int := 0x1_0000_0000
  const TWO63: int := 0x8000_0000_0000_0000
  const TWO64: int := 0x1_0000_0000_0000_0000

  type Byte = x: int | 0 <= x < 0x100
  type U16 = x: int | 0 <= x < TWO16
  type U32 = x: int | 0 <= x < TWO32
  type U64 = x: int | 0 <= x < TWO64

  function Signed16(x: U16): int {
    if x < 0x8000 then x else x - TWO16
  }

  function Signed32(x: U32): int {
    if x < 0x8000_0000 then x else x - TWO32
  }

  function Signed64(x: U64): int {
    if x < TWO63 then x else x - TWO64
  }

  /** Conversion of any integer to a 64-bit word: wrap-around. */
  function ToU64(x: int): U64 {
    x % TWO64
  }

  /** Conversion of any integer to a 32-bit word: wrap-around. */
  function ToU32(x: int): U32 {
    x % TWO32
  }
}
