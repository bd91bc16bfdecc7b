/** Two's-complement wrap-around of Go's fixed-width integers. */
module FixedWidth {

  const TWO_31: int := 0x8000_0000
  const TWO_32: int := 0x1_0000_0000
  const TWO_53: int := 0x20_0000_0000_0000
  const TWO_63: int := 0x8000_0000_0000_0000
  const TWO_64: int := 0x1_0000_0000_0000_0000

  predicate IsInt32(x: int) {
    -TWO_31 <= x < TWO_31
  }

  predicate IsInt64(x: int) {
    -TWO_63 <= x < TWO_63
  }

  type int64 = x: int | IsInt64(x)

  /** The int32 value that an exact integer wraps to. */
  function Wrap32(x: int): (r: int)
    ensures IsInt32(r)
    ensures IsInt32(x) ==> r == x
  {
    (x + TWO_31) % TWO_32 - TWO_31
  }

  /** The int64 value that an exact integer wraps to. */
  function Wrap64(x: int): (r: int)
    ensures IsInt64(r)
    ensures IsInt64(x) ==> r == x
  {
    (x + TWO_63) % TWO_64 - TWO_63
  }

  /** Incrementing an int32 counter that has wrapped is the wrap of the incremented count. */
  lemma Wrap32Increment(n: int)
    ensures Wrap32(Wrap32(n) + 1) == Wrap32(n + 1)
  {
  }
}
