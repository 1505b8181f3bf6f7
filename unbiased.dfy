/**
 * Why bounded_rand is unbiased. A 32-bit word x yields v when the high
 * word of x * range is v, and it is accepted when the low word is at least
 * the threshold t = 2^32 mod range. Both together say that x * range lies
 * in the window [v 2^32 + t, (v + 1) 2^32), whose length 2^32 - t is a
 * multiple of range; so every v in [0, range) is yielded by exactly
 * 2^32 / range (rounded down) of the 2^32 words.
 */
module Unbiased {
  import opened Bits
  import opened Bounded

  /** Word x is accepted by bounded_rand's test and yields v. */
  predicate Yields(x: nat, range: nat, v: nat)
    requires 1 <= range < TWO32
  {
    var m := x * range;
    m % TWO32 >= Threshold(range) && m / TWO32 == v
  }

  /** How many of the words 0..n-1 are accepted and yield v. */
  function Hits(range: nat, v: nat, n: nat): (c: nat)
    requires 1 <= range < TWO32
    ensures c <= n
  {
    if n == 0 then 0 else Hits(range, v, n - 1) + (if Yields(n - 1, range, v) then 1 else 0)
  }

  // ---------------------------------------------------------------------
  // Counting multiples of r
  // ---------------------------------------------------------------------

  /** The number of multiples of r at or above b: ceil(b / r). */
  function Ceil(b: nat, r: nat): nat
    requires r >= 1
  {
    (b + r - 1) / r
  }

  /** How many k in 0..n-1 have k * r below b. */
  function Below(r: nat, n: nat, b: nat): nat
  {
    if n == 0 then 0 else Below(r, n - 1, b) + (if (n - 1) * r < b then 1 else 0)
  }

  /** How many k in 0..n-1 have k * r in [lo, hi). */
  function Window(r: nat, n: nat, lo: nat, hi: nat): nat
  {
    if n == 0 then 0 else Window(r, n - 1, lo, hi) + (if lo <= (n - 1) * r < hi then 1 else 0)
  }

  lemma ProductNonNegative(a: nat, b: nat)
    ensures a * b >= 0
  {
  }

  /** k * r falls below b exactly for the first ceil(b / r) values of k. */
  lemma {:induction false} BelowCeil(k: nat, r: nat, b: nat)
    requires r >= 1
    ensures k * r < b <==> k < Ceil(b, r)
  {
    var x := b + r - 1;
    var c := x / r;
    var rem := x % r;
    assert x == c * r + rem && 0 <= rem < r;
    if k < c {
      MulMonotone(k, c - 1, r);
      assert (c - 1) * r == c * r - r;
    } else {
      MulMonotone(c, k, r);
    }
  }

  /** Of 0..n-1, min(n, ceil(b / r)) values of k have k * r below b. */
  lemma {:induction false} BelowIsCeil(r: nat, n: nat, b: nat)
    requires r >= 1
    ensures Below(r, n, b) == if n <= Ceil(b, r) then n else Ceil(b, r)
    decreases n
  {
    if n > 0 {
      BelowIsCeil(r, n - 1, b);
      BelowCeil(n - 1, r, b);
    }
  }

  /** A window count is the difference of two bound counts. */
  lemma {:induction false} WindowIsDifference(r: nat, n: nat, lo: nat, hi: nat)
    requires lo <= hi
    ensures Window(r, n, lo, hi) == Below(r, n, hi) - Below(r, n, lo)
    decreases n
  {
    if n > 0 {
      WindowIsDifference(r, n - 1, lo, hi);
    }
  }

  /** Shifting b by q multiples of r shifts ceil(b / r) by q. */
  lemma CeilShift(a: nat, q: nat, r: nat)
    requires r >= 1
    ensures Ceil(a + q * r, r) == Ceil(a, r) + q
  {
    var x := a + r - 1;
    assert x == (x / r) * r + x % r;
    assert x + q * r == (x / r + q) * r + x % r;
    DivModUnique(x + q * r, r, x / r + q, x % r);
  }

  // ---------------------------------------------------------------------
  // From the sampler's test to a window
  // ---------------------------------------------------------------------

  /** The threshold is 2^32 mod range. */
  lemma ThresholdIsRemainder(range: nat)
    requires 1 <= range < TWO32
    ensures Threshold(range) == TWO32 % range
  {
    ModOfShifted(TWO32 - range, range);
  }

  /** Accepted with high word v means: the product lies in
      [v 2^32 + t, (v + 1) 2^32). */
  lemma WindowOfProduct(m: nat, t: nat, v: nat)
    requires t < TWO32
    ensures (m % TWO32 >= t && m / TWO32 == v) <==> (v * TWO32 + t <= m < v * TWO32 + TWO32)
  {
    if v * TWO32 + t <= m < v * TWO32 + TWO32 {
      DivModUnique(m, TWO32, v, m - v * TWO32);
    }
  }

  /** Counting accepted words that yield v is counting products in v's
      window. */
  lemma {:induction false} HitsIsWindow(range: nat, v: nat, n: nat)
    requires 1 <= range < TWO32
    ensures Hits(range, v, n) ==
      Window(range, n, v * TWO32 + Threshold(range), v * TWO32 + TWO32)
    decreases n
  {
    if n > 0 {
      HitsIsWindow(range, v, n - 1);
      ProductNonNegative(n - 1, range);
      var m := (n - 1) * range;
      var t := Threshold(range);
      WindowOfProduct(m, t, v);
      assert Yields(n - 1, range, v) == (v * TWO32 + t <= m < v * TWO32 + TWO32);
    }
  }

  /** Of the k in 0..n-1, ceil(hi / r) - ceil(lo / r) have k * r in
      [lo, hi), when the window lies below n * r. */
  lemma CountInWindow(r: nat, n: nat, lo: nat, hi: nat)
    requires r >= 1 && lo <= hi <= n * r
    ensures Window(r, n, lo, hi) == Ceil(hi, r) - Ceil(lo, r)
  {
    WindowIsDifference(r, n, lo, hi);
    BelowIsCeil(r, n, lo);
    BelowIsCeil(r, n, hi);
    BelowCeil(n, r, hi);
    BelowCeil(n, r, lo);
  }

  /** bounded_rand is unbiased: every value in [0, range) is yielded by
      the same number, floor(2^32 / range), of the 2^32 words a draw can
      be, counting only the draws its rejection test accepts. */
  lemma UniformHits(range: nat, v: nat)
    requires 1 <= range < TWO32 && v < range
    ensures Hits(range, v, TWO32) == TWO32 / range
  {
    var t := Threshold(range);
    var q := TWO32 / range;
    ThresholdIsRemainder(range);
    var lo := v * TWO32 + t;
    var hi := v * TWO32 + TWO32;
    assert hi == lo + q * range;
    MulMonotone(v + 1, range, TWO32);
    HitsIsWindow(range, v, TWO32);
    CountInWindow(range, TWO32, lo, hi);
    CeilShift(lo, q, range);
  }
}
