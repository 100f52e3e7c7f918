/** Java's fixed-width integer types and the arithmetic the source relies on. */
module JavaInts {

  type Int8 = x: int | -0x80 <= x < 0x80
  type Int16 = x: int | -0x8000 <= x < 0x8000
  type Int32 = x: int | -0x8000_0000 <= x < 0x8000_0000
  type Int64 = x: int | -0x8000_0000_0000_0000 <= x < 0x8000_0000_0000_0000

  /** The `int` that Java arithmetic produces for the exact result `x`: `x` modulo 2^32, as a signed value. */
  function WrapInt32(x: int): (r: Int32)
    ensures (r - x) % 0x1_0000_0000 == 0
    ensures -0x8000_0000 <= x < 0x8000_0000 ==> r == x
  {
    var s := (x + 0x8000_0000) % 0x1_0000_0000 - 0x8000_0000;
    assert s - x == ((x + 0x8000_0000) % 0x1_0000_0000) - (x + 0x8000_0000);
    s
  }

  /** The two's complement bit pattern of a `long`. */
  function LongBits(x: Int64): bv64
  {
    (if x < 0 then x + 0x1_0000_0000_0000_0000 else x) as bv64
  }

  /** The narrowing cast `(int)` of a 64-bit pattern: its low 32 bits read as a signed `int`. */
  function LowInt(b: bv64): Int32
  {
    WrapInt32(b as int)
  }
}
