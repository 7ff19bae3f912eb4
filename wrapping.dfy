/** Two's-complement fixed-width integers as the firmware uses them: the encoder
    position is an `i32` advanced with `wrapping_add` / `wrapping_sub`, and the
    per-event delta is an `i8`. Integers here are unbounded, so the wrap-around
    is written out explicitly. */
module Wrapping {

  const TWO_32: int := 0x1_0000_0000
  const I32_MIN: int := -0x8000_0000
  const I32_MAX: int := 0x7fff_ffff

  newtype i32 = x: int | -0x8000_0000 <= x < 0x8000_0000
  newtype i8 = x: int | -0x80 <= x < 0x80

  /** The 32-bit two's-complement reading of `x`: the unique `i32` congruent
      to `x` modulo 2^32. */
  function Wrap(x: int): (r: i32)
    ensures (r as int - x) % TWO_32 == 0
    ensures I32_MIN <= x <= I32_MAX ==> r as int == x
  {
    var m := (x - I32_MIN) % TWO_32;
    assert x - I32_MIN == TWO_32 * ((x - I32_MIN) / TWO_32) + m;
    (m + I32_MIN) as i32
  }

  /** Rust's `i32::wrapping_add`. */
  function WrappingAdd(a: i32, b: i32): (r: i32)
    ensures I32_MIN <= a as int + b as int <= I32_MAX ==> r as int == a as int + b as int
    ensures a as int + b as int > I32_MAX ==> r as int == a as int + b as int - TWO_32
    ensures a as int + b as int < I32_MIN ==> r as int == a as int + b as int + TWO_32
  {
    Wrap(a as int + b as int)
  }

  /** Rust's `i32::wrapping_sub`. */
  function WrappingSub(a: i32, b: i32): (r: i32)
    ensures I32_MIN <= a as int - b as int <= I32_MAX ==> r as int == a as int - b as int
    ensures a as int - b as int > I32_MAX ==> r as int == a as int - b as int - TWO_32
    ensures a as int - b as int < I32_MIN ==> r as int == a as int - b as int + TWO_32
  {
    Wrap(a as int - b as int)
  }

  /** Wrapping after every step is the same as wrapping once at the end. */
  lemma WrapAbsorbs(x: int, d: int)
    ensures Wrap(Wrap(x) as int + d) == Wrap(x + d)
  {
  }
}
