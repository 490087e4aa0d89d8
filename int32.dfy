/** Java's 32-bit `int`: two's-complement wrap-around on overflow. */
module Int32s {

  const MIN: int := -0x8000_0000
  const MAX: int := 0x7FFF_FFFF

  /** The values a Java `int` can hold. */
  type Int32 = x: int | MIN <= x <= MAX

  /** The 32-bit value an unbounded result wraps to: the representative of `x`
      modulo 2^32 that lies in the `int` range. */
  function Wrap(x: int): (r: Int32)
    ensures (r - x) % 0x1_0000_0000 == 0
    ensures MIN <= x <= MAX ==> r == x
  {
    (x - MIN) % 0x1_0000_0000 + MIN
  }

  /** `a - b` on `int`. */
  function Sub(a: Int32, b: Int32): (r: Int32)
    ensures MIN <= a - b <= MAX ==> r == a - b
    ensures a - b < MIN ==> r == a - b + 0x1_0000_0000
    ensures a - b > MAX ==> r == a - b - 0x1_0000_0000
  {
    Wrap(a - b)
  }

  /** `a + 1` on `int` (`Integer`'s `++`). */
  function Increment(a: Int32): (r: Int32)
    ensures a < MAX ==> r == a + 1
    ensures a == MAX ==> r == MIN
  {
    Wrap(a + 1)
  }

  /** `Math.abs(int)`: the magnitude, except that `MIN` has none and stays `MIN`. */
  function Abs(a: Int32): (r: Int32)
    ensures a == MIN ==> r == MIN
    ensures a != MIN ==> r >= 0 && (r == a || r == -a)
  {
    var x: int := a;
    Wrap(if x < 0 then -x else x)
  }
}
