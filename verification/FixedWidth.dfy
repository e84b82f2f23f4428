/** Unsigned fixed-width arithmetic as the firmware's C++ integer types perform it. */
module FixedWidth {

  const TWO_TO_THE_16: int := 0x1_0000
  const TWO_TO_THE_31: int := 0x8000_0000
  const TWO_TO_THE_32: int := 0x1_0000_0000

  type byte = b: int | 0 <= b < 256
  type uint16 = x: int | 0 <= x < 0x1_0000
  type uint32 = x: int | 0 <= x < 0x1_0000_0000

  function Min(a: int, b: int): int {
    if a <= b then a else b
  }

  function Max(a: int, b: int): int {
    if a <= b then b else a
  }

  function Wrap16(x: int): uint16 {
    x % TWO_TO_THE_16
  }

  function Wrap32(x: int): uint32 {
    x % TWO_TO_THE_32
  }

  /** `static_cast<int32_t>(now - since)` on wrapping millisecond clocks. */
  function Elapsed(now: uint32, since: uint32): int {
    var d := Wrap32(now - since);
    if d < TWO_TO_THE_31 then d else d - TWO_TO_THE_32
  }
}
