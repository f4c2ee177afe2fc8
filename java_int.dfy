/** Java's 32-bit `int`: its range and its wrapping addition. */
module JavaInt {

  const MinInt32: int := -0x8000_0000
  const MaxInt32: int := 0x7FFF_FFFF
  type Int32 = x: int | MinInt32 <= x <= MaxInt32

  /** Java `int` addition: the sum, shifted by 2^32 back into the `int` range when it overflows. */
  function AddInt32(a: Int32, b: Int32): (r: Int32)
    ensures r == a + b || r == a + b - 0x1_0000_0000 || r == a + b + 0x1_0000_0000
    ensures MinInt32 <= a + b <= MaxInt32 ==> r == a + b
  {
    var s := a + b;
    if s > MaxInt32 then s - 0x1_0000_0000
    else if s < MinInt32 then s + 0x1_0000_0000
    else s
  }
}
