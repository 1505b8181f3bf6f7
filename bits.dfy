/**
 * Bitwise operations of C's unsigned integers, on naturals: a natural is
 * its binary digits, least significant first, so every operation recurses
 * on (n / 2, n % 2). Shifts are division and multiplication by powers of
 * two.
 */
module Bits {

  const TWO32: nat := 0x1_0000_0000

  function Pow2(k: nat): (p: nat)
    ensures p >= 1
  {
    if k == 0 then 1 else 2 * Pow2(k - 1)
  }

  lemma {:induction false} Pow2Adds(a: nat, b: nat)
    ensures Pow2(a + b) == Pow2(a) * Pow2(b)
    decreases a
  {
    if a > 0 {
      Pow2Adds(a - 1, b);
    }
  }

  lemma {:induction false} Pow2Increases(a: nat, b: nat)
    requires a < b
    ensures Pow2(a) < Pow2(b)
    decreases b
  {
    if a < b - 1 {
      Pow2Increases(a, b - 1);
    }
  }

  lemma Pow2Constants()
    ensures Pow2(30) == 0x4000_0000
    ensures Pow2(32) == TWO32
  {
    assert Pow2(10) == 1024;
    Pow2Adds(10, 10);
    Pow2Adds(20, 10);
    Pow2Adds(30, 2);
  }

  /** a << n, as repeated doubling. */
  function Shl(a: nat, n: nat): nat
  {
    if n == 0 then a else 2 * Shl(a, n - 1)
  }

  lemma {:induction false} ShlOfOne(n: nat)
    ensures Shl(1, n) == Pow2(n)
  {
    if n > 0 {
      ShlOfOne(n - 1);
    }
  }

  /** a >> m, as repeated halving. */
  function Shr(a: nat, m: nat): nat
  {
    if m == 0 then a else Shr(a, m - 1) / 2
  }

  /** A right shift never increases a number. */
  lemma {:induction false} ShrAtMost(a: nat, m: nat)
    ensures Shr(a, m) <= a
  {
    if m > 0 {
      ShrAtMost(a, m - 1);
    }
  }

  /** A natural is determined by its lowest bit and the rest. */
  lemma EqualByDigits(a: nat, b: nat)
    requires a / 2 == b / 2 && a % 2 == b % 2
    ensures a == b
  {
  }

  /** a ^ b */
  function Xor(a: nat, b: nat): nat
    decreases a + b
  {
    if a == 0 && b == 0 then 0
    else 2 * Xor(a / 2, b / 2) + (if a % 2 == b % 2 then 0 else 1)
  }

  /** a & b */
  function And(a: nat, b: nat): nat
    decreases a + b
  {
    if a == 0 || b == 0 then 0
    else 2 * And(a / 2, b / 2) + (if a % 2 == 1 && b % 2 == 1 then 1 else 0)
  }

  /** a | b */
  function Or(a: nat, b: nat): nat
    decreases a + b
  {
    if a == 0 && b == 0 then 0
    else 2 * Or(a / 2, b / 2) + (if a % 2 == 1 || b % 2 == 1 then 1 else 0)
  }

  /** The bit-wise unfolding of XOR, also when both operands are zero. */
  lemma XorDigits(a: nat, b: nat)
    ensures Xor(a, b) == 2 * Xor(a / 2, b / 2) + (if a % 2 == b % 2 then 0 else 1)
  {
  }

  /** The halves and the lowest bit of a ^ b. */
  lemma XorSplit(a: nat, b: nat)
    ensures Xor(a, b) / 2 == Xor(a / 2, b / 2)
    ensures Xor(a, b) % 2 == (if a % 2 == b % 2 then 0 else 1)
  {
    XorDigits(a, b);
  }

  /** XOR with 1 flips the lowest bit only. */
  lemma XorOne(a: nat)
    ensures Xor(a, 1) / 2 == a / 2 && Xor(a, 1) % 2 == 1 - a % 2
  {
    XorSplit(a, 1);
    XorZero(a / 2);
  }

  /** XOR with an even number leaves the lowest bit alone. */
  lemma XorEven(a: nat, p: nat)
    ensures Xor(a, 2 * p) / 2 == Xor(a / 2, p) && Xor(a, 2 * p) % 2 == a % 2
  {
    XorSplit(a, 2 * p);
  }

  /** XOR of two k-bit numbers is a k-bit number. */
  lemma {:induction false} XorBelow(a: nat, b: nat, k: nat)
    requires a < Pow2(k) && b < Pow2(k)
    ensures Xor(a, b) < Pow2(k)
    decreases k
  {
    if k > 0 && !(a == 0 && b == 0) {
      XorBelow(a / 2, b / 2, k - 1);
    }
  }

  /** OR of two k-bit numbers is a k-bit number. */
  lemma {:induction false} OrBelow(a: nat, b: nat, k: nat)
    requires a < Pow2(k) && b < Pow2(k)
    ensures Or(a, b) < Pow2(k)
    decreases k
  {
    if k > 0 && !(a == 0 && b == 0) {
      OrBelow(a / 2, b / 2, k - 1);
    }
  }

  /** Masking never exceeds the mask. */
  lemma {:induction false} AndAtMost(a: nat, b: nat)
    ensures And(a, b) <= b
    decreases a + b
  {
    if a != 0 && b != 0 {
      AndAtMost(a / 2, b / 2);
    }
  }

  lemma {:induction false} XorZero(a: nat)
    ensures Xor(a, 0) == a
    decreases a
  {
    if a != 0 {
      XorZero(a / 2);
    }
  }

  lemma {:induction false} XorSelf(a: nat)
    ensures Xor(a, a) == 0
    decreases a
  {
    if a != 0 {
      XorSelf(a / 2);
    }
  }

  lemma {:induction false} XorCommutes(a: nat, b: nat)
    ensures Xor(a, b) == Xor(b, a)
    decreases a + b
  {
    if !(a == 0 && b == 0) {
      XorCommutes(a / 2, b / 2);
    }
  }

  lemma {:induction false} XorAssociates(a: nat, b: nat, c: nat)
    ensures Xor(Xor(a, b), c) == Xor(a, Xor(b, c))
    decreases a + b + c
  {
    if !(a == 0 && b == 0 && c == 0) {
      var ab, bc := Xor(a, b), Xor(b, c);
      XorSplit(a, b);
      XorSplit(b, c);
      XorSplit(ab, c);
      XorSplit(a, bc);
      XorAssociates(a / 2, b / 2, c / 2);
      EqualByDigits(Xor(ab, c), Xor(a, bc));
    }
  }

  lemma MulAtLeast(k: int, r: int)
    requires k >= 1 && r > 0
    ensures k * r >= r
  {
    assert k * r == (k - 1) * r + r;
    assert (k - 1) * r >= 0;
  }

  lemma MulGrows(k: nat, r: nat)
    requires k >= 1
    ensures r <= k * r
  {
    assert k * r == r + (k - 1) * r;
  }

  /** Multiplying by a natural number keeps the order. */
  lemma {:induction false} MulMonotone(a: int, b: int, n: nat)
    requires a <= b
    ensures a * n <= b * n
    decreases n
  {
    if n > 0 {
      MulMonotone(a, b, n - 1);
      assert a * n == a * (n - 1) + a;
      assert b * n == b * (n - 1) + b;
    }
  }

  /** Quotient and remainder are unique. */
  lemma DivModUnique(a: int, r: int, q: int, rem: int)
    requires r > 0 && 0 <= rem < r && a == q * r + rem
    ensures a / r == q && a % r == rem
  {
    var q', rem' := a / r, a % r;
    assert a == q' * r + rem';
    assert q' * r - q * r == rem - rem';
    assert (q' - q) * r == q' * r - q * r;
    if q' > q {
      MulAtLeast(q' - q, r);
    } else if q' < q {
      MulAtLeast(q - q', r);
    }
  }
}
