/**
 * Rust's fixed-width integer types and the two operations on them whose
 * meaning differs from Dafny's unbounded `int`: the truncating `as` casts
 * and `/`, which rounds toward zero (Dafny's `/` is Euclidean).
 */
module RustInt {

  newtype uint8 = x: int | 0 <= x < 0x100
  newtype uint32 = x: int | 0 <= x < 0x1_0000_0000
  newtype int32 = x: int | -0x8000_0000 <= x < 0x8000_0000
  newtype int64 = x: int | -0x8000_0000_0000_0000 <= x < 0x8000_0000_0000_0000

  /** True when `x` can be held by an `i64` without overflow. */
  predicate InInt64(x: int)
  {
    -0x8000_0000_0000_0000 <= x < 0x8000_0000_0000_0000
  }

  /**
   * `x as u8`: keeps the low 8 bits of the two's-complement representation.
   * `x & 0xFF` keeps the same bits, so it is the same value.
   */
  function AsUint8(x: int): (r: uint8)
    ensures exists k: int :: x == k * 0x100 + r as int
  {
    assert x == (x / 0x100) * 0x100 + x % 0x100;
    (x % 0x100) as uint8
  }

  /** `x as u32`: keeps the low 32 bits of the two's-complement representation. */
  function AsUint32(x: int): (r: uint32)
    ensures exists k: int :: x == k * 0x1_0000_0000 + r as int
    ensures 0 <= x < 0x1_0000_0000 ==> r as int == x
  {
    assert x == (x / 0x1_0000_0000) * 0x1_0000_0000 + x % 0x1_0000_0000;
    (x % 0x1_0000_0000) as uint32
  }

  /**
   * `a / 2` on a Rust integer: the quotient rounds toward zero (Dafny's `/`
   * would round a negative odd `a` down instead).
   */
  function TruncHalf(a: int): (q: int)
    ensures a >= 0 ==> 2 * q <= a <= 2 * q + 1
    ensures a < 0 ==> 2 * q - 1 <= a <= 2 * q
    ensures InInt64(a) ==> InInt64(q)
  {
    if a >= 0 then a / 2 else -((-a) / 2)
  }
}
