/** Fixed-width integers of the source, with their wrap-around written out, and Option. */
module Words {

  const TWO_32: int := 0x1_0000_0000
  const TWO_63: int := 0x8000_0000_0000_0000
  const TWO_64: int := 0x1_0000_0000_0000_0000

  type uint32 = x: int | 0 <= x < TWO_32
  type uint64 = x: int | 0 <= x < TWO_64

  datatype Option<+T> = None | Some(value: T)

  /** `a - b` on uint64. */
  function Sub64(a: uint64, b: uint64): uint64 {
    if a >= b then a - b else a - b + TWO_64
  }

  /** `a + b` on uint64. */
  function Add64(a: uint64, b: uint64): uint64 {
    if a + b < TWO_64 then a + b else a + b - TWO_64
  }

  /** `x++` on uint32. */
  function Inc32(x: uint32): uint32 {
    if x + 1 < TWO_32 then x + 1 else 0
  }
}
