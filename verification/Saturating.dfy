/** Arithmetic that stops at the ends of its range instead of leaving it. */
module Saturating {

  /** The largest `usize` of the narrowest supported targets (32-bit phones). */
  const USIZE_MAX: nat := 0xFFFF_FFFF

  function SaturatingAdd(a: nat, b: nat): nat {
    if a + b > USIZE_MAX then USIZE_MAX else a + b
  }

  function SaturatingSub(a: nat, b: nat): nat {
    if a < b then 0 else a - b
  }
}
