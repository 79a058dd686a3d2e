/**
 * Java's `int`: 32-bit two's complement, where `+` and `-` wrap around
 * instead of failing.
 */
module Int32 {

  const MinInt: int := -0x8000_0000
  const MaxInt: int := 0x7FFF_FFFF
  const Modulus: int := 0x1_0000_0000

  type int32 = x: int | MinInt <= x <= MaxInt

  predicate InRange(x: int) {
    MinInt <= x <= MaxInt
  }

  /** The `int` that Java computes for the mathematical value `x`. */
  function Wrap(x: int): (r: int32)
    ensures (r - x) % Modulus == 0
    ensures InRange(x) ==> r == x
  {
    (x - MinInt) % Modulus + MinInt
  }

  /** `a + b` on Java ints. */
  function Add(a: int32, b: int32): (r: int32)
    ensures InRange(a + b) ==> r == a + b
    ensures !InRange(a + b) ==> r == a + b - Modulus || r == a + b + Modulus
  {
    Wrap(a + b)
  }

  /** `a - b` on Java ints. */
  function Sub(a: int32, b: int32): (r: int32)
    ensures InRange(a - b) ==> r == a - b
    ensures !InRange(a - b) ==> r == a - b - Modulus || r == a - b + Modulus
  {
    Wrap(a - b)
  }

  /** Unary `-a` on Java ints: the negation of the smallest int is itself. */
  function Neg(a: int32): (r: int32)
    ensures a != MinInt ==> r == -a
    ensures a == MinInt ==> r == MinInt
  {
    Wrap(-(a as int))
  }

  /** Adding `d` and then `-d` gives back the start value, even across a wrap-around. */
  lemma AddNegCancels(b: int32, d: int32)
    ensures Add(Add(b, d), Neg(d)) == b
  {
  }

  /** Subtracting a sum is subtracting its parts one after the other. */
  lemma SubAdd(t: int32, b: int32, d: int32)
    ensures Sub(t, Add(b, d)) == Sub(Sub(t, b), d)
  {
  }

  /** Adding to the minuend adds to the difference. */
  lemma SubAfterAdd(t: int32, d: int32, b: int32)
    ensures Sub(Add(t, d), b) == Add(Sub(t, b), d)
  {
  }
}
