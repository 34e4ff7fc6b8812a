/**
 * Real-number stand-ins for the f64 operations the signal code uses:
 * `abs`, `round` (half away from zero), the truncating `as` cast to an
 * integer, and the complex numbers of `num_complex`.
 */
module Numerics {

  function Abs(x: real): (r: real)
    ensures r >= 0.0
    ensures r == x || r == -x
  {
    if x < 0.0 then -x else x
  }

  /** The product of two non-negative reals is non-negative. */
  lemma MulNonneg(x: real, y: real)
    requires x >= 0.0 && y >= 0.0
    ensures x * y >= 0.0
  {
  }

  lemma MulAtLeast(k: int, n: int)
    requires k >= 1 && n > 0
    ensures k * n >= n
  {
    var m := k - 1;
    assert k * n == m * n + n;
    assert m * n >= 0;
  }

  /** A non-zero multiple of n is at least n away from zero. */
  lemma MulSign(k: int, n: int)
    requires n > 0
    ensures k >= 1 ==> k * n >= n
    ensures k <= -1 ==> k * n <= -n
  {
    if k >= 1 {
      MulAtLeast(k, n);
    } else if k <= -1 {
      MulAtLeast(-k, n);
      assert (-k) * n == -(k * n);
    }
  }

  /** Euclidean remainder (Rust's `rem_euclid`, Dafny's `%`) is determined by any
      decomposition x = q·n + r with 0 ≤ r < n. */
  lemma ModUnique(x: int, n: int, q: int, r: int)
    requires n > 0 && 0 <= r < n && x == q * n + r
    ensures x % n == r
  {
    var q0, r0 := x / n, x % n;
    assert x == q0 * n + r0;
    assert (q - q0) * n == r0 - r;
    MulSign(q - q0, n);
  }

  lemma ModAddMultiple(x: int, k: int, n: int)
    requires n > 0
    ensures (x + k * n) % n == x % n
  {
    ModUnique(x + k * n, n, x / n + k, x % n);
  }

  lemma ModOfMod(x: int, y: int, n: int)
    requires n > 0
    ensures (x % n + y) % n == (x + y) % n
  {
    ModAddMultiple(x % n + y, x / n, n);
    assert x % n + y + (x / n) * n == x + y;
  }

  /** `f64::round`: nearest integer, ties rounded away from zero. */
  function Round(x: real): int
  {
    if x >= 0.0 then (x + 0.5).Floor else -((-x + 0.5).Floor)
  }

  /** Round gives the nearest integer; a tie goes away from zero. */
  lemma RoundNearest(x: real)
    ensures x >= 0.0 ==> x - 0.5 < Round(x) as real <= x + 0.5
    ensures x < 0.0 ==> x - 0.5 <= Round(x) as real < x + 0.5
  {
  }

  /** Rounding is symmetric about zero. */
  lemma RoundNegate(x: real)
    ensures Round(-x) == -Round(x)
  {
  }

  /** A whole number is rounded to itself. */
  lemma RoundWhole(k: int)
    ensures Round(k as real) == k
  {
  }

  /** The `as` cast of a float to an integer type: the fractional part is dropped (toward zero). */
  function TruncateTowardZero(x: real): (k: int)
    ensures Abs(k as real) <= Abs(x) < Abs(k as real) + 1.0
    ensures x >= 0.0 ==> k >= 0
    ensures x <= 0.0 ==> k <= 0
  {
    if x >= 0.0 then x.Floor else -((-x).Floor)
  }

  /** `f64::clamp(lo, hi)`. */
  function Clamp(x: real, lo: real, hi: real): (r: real)
    requires lo <= hi
    ensures lo <= r <= hi
    ensures lo <= x <= hi ==> r == x
  {
    if x < lo then lo else if x > hi then hi else x
  }

  /** `num_complex::Complex<f64>` with exact real parts. */
  datatype Complex = Complex(re: real, im: real)

  const Zero := Complex(0.0, 0.0)

  function Add(z: Complex, w: Complex): Complex
  {
    Complex(z.re + w.re, z.im + w.im)
  }

  /** A complex number times 0.5 (a real scalar). */
  function Half(z: Complex): Complex
  {
    Complex(z.re * 0.5, z.im * 0.5)
  }
}
