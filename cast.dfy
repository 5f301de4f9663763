/** Rust's numeric casts and integer width, as used by the frame sampler. */
module Cast {

  /** `u32::MAX`. */
  const U32_MAX: int := 0xFFFF_FFFF

  /** The values of a Rust `u32`. */
  type U32 = x: int | 0 <= x <= U32_MAX

  /**
   * `x as u32` for a finite `f64`: truncates toward zero and saturates, so a
   * negative value gives 0 and a value past `u32::MAX` gives `u32::MAX`.
   */
  function TruncU32(x: real): (r: U32)
    ensures x < 0.0 ==> r == 0
    ensures 0.0 <= x < (U32_MAX + 1) as real ==> r as real <= x < r as real + 1.0
    ensures (U32_MAX + 1) as real <= x ==> r == U32_MAX
  {
    if x < 0.0 then 0
    else if x >= U32_MAX as real then U32_MAX
    else x.Floor
  }

  /** The cast never decreases when its argument grows. */
  lemma TruncU32Monotone(x: real, y: real)
    requires x <= y
    ensures TruncU32(x) <= TruncU32(y)
  {
  }

  /** A whole number that fits in a `u32` survives the round trip through `f64`. */
  lemma TruncU32OfWhole(n: U32)
    ensures TruncU32(n as real) == n
  {
  }
}
