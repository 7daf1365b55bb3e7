/**
 * Java's 32-bit `int`. Arithmetic on quantities in the application wraps
 * around at the ends of the range, as Java's `+` and `-` on `int` do.
 */
module JavaInt {
  const MinInt: int := -0x8000_0000
  const MaxInt: int := 0x7fff_ffff

  type Int32 = x: int | MinInt <= x <= MaxInt

  /** Two's-complement reduction of an unbounded integer to the `int` range. */
  function Wrap(x: int): (r: Int32)
    ensures MinInt <= x <= MaxInt ==> r == x
    ensures (r - x) % 0x1_0000_0000 == 0
  {
    (x - MinInt) % 0x1_0000_0000 + MinInt
  }

  /** Java `a + b` on `int`. */
  function Add(a: Int32, b: Int32): (r: Int32)
    ensures MinInt <= a + b <= MaxInt ==> r == a + b
    ensures (r - (a + b)) % 0x1_0000_0000 == 0
  {
    Wrap(a + b)
  }

  /** Java `a - b` on `int`. */
  function Sub(a: Int32, b: Int32): (r: Int32)
    ensures MinInt <= a - b <= MaxInt ==> r == a - b
    ensures (r - (a - b)) % 0x1_0000_0000 == 0
  {
    Wrap(a - b)
  }

  /** Adding one overflows only at the top of the range, where it wraps to the bottom. */
  lemma AddOne(q: Int32)
    ensures q < MaxInt ==> Add(q, 1) == q + 1
    ensures q == MaxInt ==> Add(q, 1) == MinInt
  {
  }

  /** Subtracting one underflows only at the bottom of the range, where it wraps to the top. */
  lemma SubOne(q: Int32)
    ensures q > MinInt ==> Sub(q, 1) == q - 1
    ensures q == MinInt ==> Sub(q, 1) == MaxInt
  {
  }
}
