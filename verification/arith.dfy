/** Integer facts the batching proofs need (Dafny's `/` and `%` on a positive divisor
    are pinned down through the uniqueness of quotient and remainder), and Python's
    rounding of a float to the nearest integer, on exact reals. */
module Arith {

  lemma MulStep(b: int, q: int)
    ensures b * (q + 1) == b * q + b
  {
  }

  lemma {:induction false} MulMono(b: int, x: int, y: int)
    requires b >= 0 && x <= y
    ensures b * x <= b * y
    decreases y - x
  {
    if x < y {
      MulMono(b, x, y - 1);
      MulStep(b, y - 1);
    }
  }

  /** The quotient and remainder of `n` by a positive `b` are the only such pair. */
  lemma DivModUnique(n: int, b: int, q: int, r: int)
    requires b >= 1 && 0 <= r < b && n == b * q + r
    ensures n / b == q && n % b == r
  {
    var q2 := n / b;
    var r2 := n % b;
    assert n == b * q2 + r2;
    if q < q2 {
      MulMono(b, q + 1, q2);
      MulStep(b, q);
    } else if q2 < q {
      MulMono(b, q2 + 1, q);
      MulStep(b, q2);
    }
  }

  /** Taking `b` away from `n` lowers the quotient by one and keeps the remainder. */
  lemma DivModStep(n: int, b: int)
    requires n >= b >= 1
    ensures (n - b) / b + 1 == n / b && (n - b) % b == n % b
  {
    var q := n / b;
    var r := n % b;
    assert n == b * q + r;
    MulStep(b, q - 1);
    DivModUnique(n - b, b, q - 1, r);
  }

  /** Python's `round(x)`: the nearest integer, ties to the even one. */
  function RoundHalfEven(x: real): (n: int)
    ensures -0.5 <= n as real - x <= 0.5
    ensures (n as real - x == 0.5 || n as real - x == -0.5) ==> n % 2 == 0
  {
    var f := x.Floor;
    var d := x - f as real;
    if d < 0.5 then f
    else if d > 0.5 then f + 1
    else if f % 2 == 0 then f
    else f + 1
  }

  /** A quotient of a non-negative part by a positive whole stays within the bound
      the part has relative to the whole. */
  lemma RatioWithin(part: real, whole: real, bound: real)
    requires whole > 0.0 && 0.0 <= part <= bound * whole
    ensures 0.0 <= part / whole <= bound
  {
    assert (bound - part / whole) * whole == bound * whole - part;
  }

  /** A value in `lo..hi` (whole numbers) rounds into the same range. */
  lemma RoundHalfEvenWithin(x: real, lo: int, hi: int)
    requires lo as real <= x <= hi as real
    ensures lo <= RoundHalfEven(x) <= hi
  {
  }

  /** Rust's `f64::round`: the nearest integer, ties away from zero. */
  function RoundHalfAway(x: real): (n: int)
    ensures -0.5 <= n as real - x <= 0.5
    ensures n as real - x == 0.5 ==> x >= 0.0
    ensures n as real - x == -0.5 ==> x < 0.0
  {
    if x >= 0.0 then (x + 0.5).Floor else -((-x + 0.5).Floor)
  }

  /** Rust's `%` on signed integers: the remainder takes the sign of the dividend. */
  function TruncRem(a: int, b: int): (r: int)
    requires b > 0
    ensures a >= 0 ==> 0 <= r < b && r == a % b
    ensures a < 0 ==> -b < r <= 0 && -r == (-a) % b
  {
    if a >= 0 then a % b else -((-a) % b)
  }

  const USIZE_MAX: int := 0xFFFF_FFFF_FFFF_FFFF

  /** Rust's `as usize` on an integer-valued float: saturates at both ends. */
  function SaturateUsize(n: int): (u: int)
    ensures 0 <= u <= USIZE_MAX
    ensures 0 <= n <= USIZE_MAX ==> u == n
  {
    if n < 0 then 0 else if n > USIZE_MAX then USIZE_MAX else n
  }

  const ISIZE_MIN: int := -0x8000_0000_0000_0000
  const ISIZE_MAX: int := 0x7FFF_FFFF_FFFF_FFFF

  /** Rust's `as isize` on an integer-valued float: saturates at both ends. */
  function SaturateIsize(n: int): (i: int)
    ensures ISIZE_MIN <= i <= ISIZE_MAX
    ensures ISIZE_MIN <= n <= ISIZE_MAX ==> i == n
    ensures n < ISIZE_MIN ==> i == ISIZE_MIN
    ensures n > ISIZE_MAX ==> i == ISIZE_MAX
  {
    if n < ISIZE_MIN then ISIZE_MIN else if n > ISIZE_MAX then ISIZE_MAX else n
  }
}
