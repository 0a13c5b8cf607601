/** Cell values of a Row, Java's fixed-width integer arithmetic and the double constants the decimal sentinels use. */
module Values {

  const TWO_31: int := 0x8000_0000
  const TWO_32: int := 0x1_0000_0000
  const TWO_63: int := 0x8000_0000_0000_0000
  const TWO_64: int := 0x1_0000_0000_0000_0000

  /** Java byte, short, int and long. */
  type int8 = x: int | -0x80 <= x < 0x80
  type int16 = x: int | -0x8000 <= x < 0x8000
  type int32 = x: int | -0x8000_0000 <= x < 0x8000_0000
  type int64 = x: int | -0x8000_0000_0000_0000 <= x < 0x8000_0000_0000_0000

  const INT_MAX: int32 := 0x7fff_ffff
  const INT_MIN: int32 := -0x8000_0000
  const LONG_MAX: int64 := 0x7fff_ffff_ffff_ffff
  const LONG_MIN: int64 := -0x8000_0000_0000_0000

  /**
   * One cell of a Row: Java null, a boxed Byte, Short, Integer, Long, BigDecimal (its numeric value; the scale is
   * not modelled), Boolean, or any other object (a string, say), which the aggregates only carry around.
   */
  datatype Value =
    | Null | I8(y: int8) | I16(h: int16) | I32(i: int32) | I64(l: int64) | Dec(d: real) | Bool(b: bool) | Text(s: string)

  /** A Row as the aggregation reads it: a fixed-length, position-addressed tuple of cells. */
  type Row = seq<Value>

  datatype Option<+T> = None | Some(value: T)

  datatype Result<+T, +E> = Ok(value: T) | Err(error: E)

  /** Two's-complement wrap-around of Java int arithmetic: the int32 congruent to x modulo 2^32. */
  function Wrap32(x: int): (r: int32)
    ensures (r - x) % TWO_32 == 0
    ensures INT_MIN <= x <= INT_MAX ==> r == x
  {
    ((x + TWO_31) % TWO_32) - TWO_31
  }

  /** Two's-complement wrap-around of Java long arithmetic: the int64 congruent to x modulo 2^64. */
  function Wrap64(x: int): (r: int64)
    ensures (r - x) % TWO_64 == 0
    ensures LONG_MIN <= x <= LONG_MAX ==> r == x
  {
    ((x + TWO_63) % TWO_64) - TWO_63
  }

  /** Wrapping an intermediate result does not change a later wrapped sum. */
  lemma Wrap32AddLeft(a: int, b: int)
    ensures Wrap32(Wrap32(a) + b) == Wrap32(a + b)
  {
    var q := (a + TWO_31) / TWO_32;
    assert Wrap32(a) == a - q * TWO_32;
  }

  lemma Wrap64AddLeft(a: int, b: int)
    ensures Wrap64(Wrap64(a) + b) == Wrap64(a + b)
  {
    var q := (a + TWO_63) / TWO_64;
    assert Wrap64(a) == a - q * TWO_64;
  }

  function Pow2(n: nat): (r: nat)
    ensures r > 0
  {
    if n == 0 then 1 else 2 * Pow2(n - 1)
  }

  /** Double.MIN_VALUE, 2^-1074, as the exact value new BigDecimal(double) gives it. */
  const DOUBLE_MIN_VALUE: real := 1.0 / (Pow2(1074) as real)

  /** Double.MAX_VALUE, (2^53 - 1) * 2^971, exactly. */
  const DOUBLE_MAX_VALUE: real := ((Pow2(53) - 1) * Pow2(971)) as real
}
