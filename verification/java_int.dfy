/** Java's fixed-width integers and the wrap-around of `int` arithmetic. */
module JavaInt {

  const TWO_32: int := 0x1_0000_0000
  const INT_MIN: int := -0x8000_0000
  const INT_MAX: int := 0x7FFF_FFFF

  newtype i8 = x: int | -0x80 <= x < 0x80
  newtype i16 = x: int | -0x8000 <= x < 0x8000
  newtype i32 = x: int | -0x8000_0000 <= x < 0x8000_0000
  newtype i64 = x: int | -0x8000_0000_0000_0000 <= x < 0x8000_0000_0000_0000

  predicate InInt(x: int) { INT_MIN <= x <= INT_MAX }

  /** The two's-complement reduction Java applies to every `int` result. */
  function Wrap(x: int): (r: i32)
    ensures InInt(x) ==> r as int == x
    ensures (r as int - x) % TWO_32 == 0
  {
    var m := (x - INT_MIN) % TWO_32;
    (m + INT_MIN) as i32
  }

  /** The narrowing conversions `(byte)`, `(short)` and `(long)` of an
      arbitrary integer: keep the low 8, 16 or 64 bits. */
  function Wrap8(x: int): (r: i8)
    ensures -0x80 <= x < 0x80 ==> r as int == x
    ensures (r as int - x) % 0x100 == 0
  {
    ((x + 0x80) % 0x100 - 0x80) as i8
  }

  function Wrap16(x: int): (r: i16)
    ensures -0x8000 <= x < 0x8000 ==> r as int == x
    ensures (r as int - x) % 0x1_0000 == 0
  {
    ((x + 0x8000) % 0x1_0000 - 0x8000) as i16
  }

  function Wrap64(x: int): (r: i64)
    ensures -0x8000_0000_0000_0000 <= x < 0x8000_0000_0000_0000 ==> r as int == x
    ensures (r as int - x) % 0x1_0000_0000_0000_0000 == 0
  {
    ((x + 0x8000_0000_0000_0000) % 0x1_0000_0000_0000_0000 - 0x8000_0000_0000_0000) as i64
  }

  function Add(a: i32, b: i32): i32 { Wrap(a as int + b as int) }
  function Sub(a: i32, b: i32): i32 { Wrap(a as int - b as int) }
  function Mul(a: i32, b: i32): i32 { Wrap(a as int * b as int) }

  /** `Math.min(int, int)`. */
  function Min(a: i32, b: i32): (r: i32)
    ensures r <= a && r <= b
    ensures r == a || r == b
  {
    if a <= b then a else b
  }
}
