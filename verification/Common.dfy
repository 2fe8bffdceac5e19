/** Result shapes shared by every module. */
module Common {

  datatype Option<+T> = None | Some(value: T)

  /** Largest value of a signed 64-bit integer. */
  const I64_MAX: int := 0x7FFF_FFFF_FFFF_FFFF
  const I64_MIN: int := -0x8000_0000_0000_0000

  predicate FitsI64(x: int) {
    I64_MIN <= x <= I64_MAX
  }

  /** Rust's `saturating_add` on signed 64-bit integers. */
  function SaturatingAdd(a: int, b: int): int {
    if a + b > I64_MAX then I64_MAX
    else if a + b < I64_MIN then I64_MIN
    else a + b
  }

  /** Instants and durations of the sign-in protocols are in nanoseconds. */
  const SECOND: nat := 1_000_000_000
}
