/**
 * Go's `int64`. Every timestamp and identifier of the system is one; additions are
 * written with `Add`, which wraps around exactly as Go's `+` does.
 */
module Int64 {

  const Min: int := -0x8000_0000_0000_0000
  const Max: int := 0x7FFF_FFFF_FFFF_FFFF
  const Modulus: int := 0x1_0000_0000_0000_0000

  newtype int64 = x: int | -0x8000_0000_0000_0000 <= x <= 0x7FFF_FFFF_FFFF_FFFF

  /** `math.MaxInt64`. */
  const MaxInt64: int64 := 0x7FFF_FFFF_FFFF_FFFF

  /** True when `a + b` fits in 64 bits, so Go's `+` agrees with the mathematical sum. */
  predicate NoOverflow(a: int64, b: int64) {
    Min <= a as int + b as int <= Max
  }

  /** Go's `a + b` on int64: two's-complement addition. */
  function Add(a: int64, b: int64): (r: int64)
    ensures NoOverflow(a, b) ==> r as int == a as int + b as int
    ensures (r as int - (a as int + b as int)) % Modulus == 0
    ensures !NoOverflow(a, b) ==> (0 <= b as int ==> r < a) && (b as int < 0 ==> r > a)
  {
    var s := a as int + b as int;
    if s > Max then (s - Modulus) as int64
    else if s < Min then (s + Modulus) as int64
    else s as int64
  }
}
