/** Fixed-width integers of the C and C++ sources, and the conversions between them. */
module Machine {
  type Byte = x: int | 0 <= x < 256
  type U16 = x: int | 0 <= x < 0x1_0000
  type U32 = x: int | 0 <= x < 0x1_0000_0000
  type U64 = x: int | 0 <= x < 0x1_0000_0000_0000_0000
  type I32 = x: int | -0x8000_0000 <= x < 0x8000_0000
  type I64 = x: int | -0x8000_0000_0000_0000 <= x < 0x8000_0000_0000_0000

  /** Reduction modulo 2^32, as a conversion to `unsigned` does. */
  function ToU32(x: int): U32 {
    x % 0x1_0000_0000
  }

  /** Reduction modulo 2^64, as a conversion to `uint64_t` does. */
  function ToU64(x: int): U64 {
    x % 0x1_0000_0000_0000_0000
  }

  /** Conversion to `int`: the low 32 bits read as two's complement. */
  function ToI32(x: int): I32 {
    var m := x % 0x1_0000_0000;
    if m < 0x8000_0000 then m else m - 0x1_0000_0000
  }

  /** Conversion to `int64_t`: the low 64 bits read as two's complement. */
  function ToI64(x: int): I64 {
    var m := x % 0x1_0000_0000_0000_0000;
    if m < 0x8000_0000_0000_0000 then m else m - 0x1_0000_0000_0000_0000
  }

  /** Reducing a sum's first part makes no difference. */
  lemma AddU32(a: int, b: int)
    ensures ToU32(ToU32(a) + b) == ToU32(a + b)
  {
  }

  lemma SmallU32(a: nat)
    requires a < 0x1_0000_0000
    ensures ToU32(a) == a
  {
  }
}
