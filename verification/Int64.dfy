/** Go's 64-bit signed integers: arithmetic that leaves the range wraps around. */
module Int64 {
  const MAX: int := 0x7FFF_FFFF_FFFF_FFFF
  const MIN: int := -MAX - 1

  function Wrap(x: int): (y: int)
    ensures MIN <= y <= MAX
    ensures MIN <= x <= MAX ==> y == x
  {
    (x + 0x8000_0000_0000_0000) % 0x1_0000_0000_0000_0000 - 0x8000_0000_0000_0000
  }

  /** Wrapping in between makes no difference. */
  lemma {:induction false} WrapSum(x: int, n: int)
    ensures Wrap(Wrap(x) + n) == Wrap(x + n)
  {
    var q := (x + 0x8000_0000_0000_0000) / 0x1_0000_0000_0000_0000;
    assert x == Wrap(x) + q * 0x1_0000_0000_0000_0000;
  }
}
