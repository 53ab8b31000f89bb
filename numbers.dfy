/** Machine numbers used by the representation core: Rust's `i32` with
    two's-complement wrap-around, and `f64` seen only as "not a number" or a
    real value (no arithmetic is performed on floats in the core). */
module Numbers {

  const I32_MIN: int := -0x8000_0000
  const I32_MAX: int := 0x7FFF_FFFF

  /** A 32-bit signed integer. */
  type I32 = x: int | -0x8000_0000 <= x <= 0x7FFF_FFFF

  /** Two's-complement wrap-around of an unbounded integer into `i32`
      (what `wrapping_add`/`wrapping_mul` and release builds do). */
  function Wrap(x: int): (r: I32)
    ensures I32_MIN <= x <= I32_MAX ==> r == x
    ensures (x - r) % 0x1_0000_0000 == 0
  {
    (x + 0x8000_0000) % 0x1_0000_0000 - 0x8000_0000
  }

  /** An IEEE-754 double, abstracted to "not a number" or a real value. */
  datatype F64 = NaN | Num(r: real)

  /** `f64::is_nan`. */
  predicate IsNaN(x: F64) {
    x.NaN?
  }

  /** IEEE `==`: false as soon as either side is NaN. */
  predicate FloatEq(x: F64, y: F64)
  {
    x.Num? && y.Num? && x.r == y.r
  }

  /** IEEE `<`: false as soon as either side is NaN. */
  predicate FloatLess(x: F64, y: F64)
  {
    x.Num? && y.Num? && x.r < y.r
  }

  /** NaN is the one value that is not `==` to itself. */
  lemma FloatEqReflexiveIffNumber(x: F64)
    ensures FloatEq(x, x) <==> !IsNaN(x)
  {
  }
}
