/** Go's signed 64-bit arithmetic. */
module Int64 {

  const MIN := -0x8000_0000_0000_0000
  const MAX := 0x7fff_ffff_ffff_ffff

  /** Wrap an exact result to the signed 64-bit range. */
  function Wrap(x: int): (r: int)
    ensures MIN <= r <= MAX
    ensures (r - x) % 0x1_0000_0000_0000_0000 == 0
    ensures MIN <= x <= MAX ==> r == x
  {
    (x - MIN) % 0x1_0000_0000_0000_0000 + MIN
  }
}
