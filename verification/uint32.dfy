/** Unsigned 32-bit arithmetic as C++ performs it on `uint32_t`: values live in
    [0, 2^32) and addition wraps around. */
module UInt32 {

  const Modulus: int := 0x1_0000_0000

  /** `static_cast<uint32_t>(-1)`. */
  const MaxValue: int := Modulus - 1

  type U32 = x: int | 0 <= x < Modulus

  /** `a + b` on `uint32_t`: the mathematical sum when it fits, otherwise the
      sum less 2^32. */
  function Add(a: U32, b: U32): (r: U32)
    ensures a + b < Modulus ==> r == a + b
    ensures Modulus <= a + b ==> r == a + b - Modulus
  {
    (a + b) % Modulus
  }

  /** Wrap-around addition is associative, so two increments are one
      increment by their wrapped sum. */
  lemma AddAssociative(x: U32, a: U32, b: U32)
    ensures Add(Add(x, a), b) == Add(x, Add(a, b))
  {
  }

  /** Reducing a partial sum before adding more does not change the result. */
  lemma ModAddLeft(a: int, d: int)
    ensures (a % Modulus + d) % Modulus == (a + d) % Modulus
  {
  }

  /** `x` after `n` successive wrapped increments by `d`. */
  function AddTimes(x: U32, d: U32, n: nat): U32
    decreases n
  {
    if n == 0 then x else Add(AddTimes(x, d, n - 1), d)
  }

  /** `n` increments followed by `m` more are `n + m` increments. */
  lemma {:induction false} AddTimesSplit(x: U32, d: U32, n: nat, m: nat)
    ensures AddTimes(AddTimes(x, d, n), d, m) == AddTimes(x, d, n + m)
    decreases m
  {
    if m > 0 {
      AddTimesSplit(x, d, n, m - 1);
    }
  }

  /** `n` successive wrapped increments by `d` land on `(x + n * d) mod 2^32`. */
  lemma {:induction false} AddTimesClosedForm(x: U32, d: U32, n: nat)
    ensures AddTimes(x, d, n) == (x + n * d) % Modulus
    decreases n
  {
    if n > 0 {
      AddTimesClosedForm(x, d, n - 1);
      MulStep(n, d);
      WrapStep(AddTimes(x, d, n - 1), x + (n - 1) * d, d, x + n * d);
    }
  }

  /** One more wrapped increment of a reduced partial sum is the reduced
      next partial sum. */
  lemma WrapStep(prev: U32, s: int, d: U32, t: int)
    requires prev == s % Modulus && t == s + d
    ensures Add(prev, d) == t % Modulus
  {
    ModAddLeft(s, d);
  }

  /** n copies of d are n - 1 copies and one more. */
  lemma MulStep(n: int, d: int)
    ensures (n - 1) * d + d == n * d
  {
  }
}
