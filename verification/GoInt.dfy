/** Go's int on a 64-bit platform. */
module GoInt {
  const MAX_INT := 0x7fff_ffff_ffff_ffff

  const MIN_INT := -0x8000_0000_0000_0000

  predicate IsInt(x: int) { MIN_INT <= x <= MAX_INT }

  /** Sums wrap around. */
  function Wrap(x: int): (r: int)
    ensures IsInt(r) && (IsInt(x) ==> r == x)
  {
    (x - MIN_INT) % (MAX_INT - MIN_INT + 1) + MIN_INT
  }
}
