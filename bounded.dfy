/**
 * bounded_rand: Lemire's multiply-and-reject method for an integer in
 * [0, range) from the 32-bit words of the Mersenne Twister. The 64-bit
 * product of a word and the range is split into its high word (the
 * candidate result) and its low word; draws whose low word falls below
 * the threshold (2^32 - range) mod range are rejected and redrawn.
 */
module Bounded {
  import opened Bits
  import opened Mersenne

  /** The rejection threshold as bounded_rand computes it: the 32-bit
      negation of range, reduced by at most one subtraction and then one
      remainder. */
  function Threshold(range: nat): (t: nat)
    requires 1 <= range < TWO32
    ensures t == (TWO32 - range) % range
    ensures t < range
  {
    var t0 := TWO32 - range;
    if t0 >= range then
      var t1 := t0 - range;
      ModOfShifted(t1, range);
      if t1 >= range then t1 % range
      else
        ModOfSmall(t1, range);
        t1
    else
      ModOfSmall(t0, range);
      t0
  }

  lemma ModOfSmall(a: nat, r: nat)
    requires a < r
    ensures a % r == a
  {
  }

  lemma ModOfShifted(a: nat, r: nat)
    requires r > 0
    ensures (a + r) % r == a % r
  {
    DivModUnique(a + r, r, a / r + 1, a % r);
  }

  /** The 64-bit product of a 32-bit word and range is below 2^32 range. */
  lemma ProductBelow(x: nat, range: nat)
    requires x < TWO32
    ensures 0 <= x * range
    ensures range >= 1 ==> x * range < TWO32 * range
  {
    var d := TWO32 - 1 - x;
    assert (TWO32 - 1) * range == x * range + d * range;
  }

  /** ... so its high word is below range. */
  lemma HighWordBelow(m: nat, range: nat)
    requires m < TWO32 * range
    ensures m / TWO32 < range
  {
  }

  /** The outcome of one bounded_rand call: the generator's new state, the
      returned value, the low word of the last product, and whether the
      last draw was accepted. */
  datatype Sample = Sample(state: MtState, value: nat, low: nat, settled: bool)

  /** The rejection loop, `while (l < t)`, with at most `fuel` redraws:
      the state and 64-bit product it ends with, and the fuel left. */
  function Rejection(st: MtState, range: nat, t: nat, m: nat, fuel: nat): (r: (MtState, nat))
    requires ValidState(st)
    requires m < TWO32 * range
    ensures ValidState(r.0)
    ensures r.1 < TWO32 * range
    decreases fuel
  {
    if m % TWO32 < t && fuel > 0 then
      var (st2, x) := Next(st);
      ProductBelow(x, range);
      Rejection(st2, range, t, x * range, fuel - 1)
    else (st, m)
  }

  /** bounded_rand with a budget of redraws. */
  function BoundedDraw(st: MtState, range: nat, budget: nat): (r: Sample)
    requires ValidState(st) && range < TWO32
  {
    var (st1, x) := Next(st);
    ProductBelow(x, range);
    var m := x * range;
    if m % TWO32 < range then
      var (st2, m2) := Rejection(st1, range, Threshold(range), m, budget);
      Sample(st2, m2 / TWO32, m2 % TWO32, m2 % TWO32 >= Threshold(range))
    else Sample(st1, m / TWO32, m % TWO32, true)
  }

  /** What bounded_rand promises: a value in [0, range) for every range of
      at least 1 (so always 0 for range 1), 0 for range 0, and, once a
      draw is accepted, a low word at or above the rejection threshold;
      the generator stays a valid state. */
  lemma BoundedDrawInRange(st: MtState, range: nat, budget: nat)
    requires ValidState(st) && range < TWO32
    ensures var r := BoundedDraw(st, range, budget);
      && ValidState(r.state)
      && (range >= 1 ==> r.value < range)
      && (range == 0 ==> r.value == 0 && r.settled)
      && (range >= 1 && r.settled ==> r.low >= (TWO32 - range) % range)
      && (range == 1 ==> r.value == 0)
  {
    var (st1, x) := Next(st);
    ProductBelow(x, range);
    var m := x * range;
    if range >= 1 {
      if m % TWO32 < range {
        var (st2, m2) := Rejection(st1, range, Threshold(range), m, budget);
        HighWordBelow(m2, range);
      } else {
        HighWordBelow(m, range);
        assert Threshold(range) < range;
      }
    }
  }

  /** The rejection loop of bounded_rand: redraw while the low word of
      the product is below the threshold t, at most `budget` times. */
  method Redraw(g: MersenneTwister, range: nat, t: nat, m0: nat, budget: nat) returns (m: nat)
    requires g.Valid() && m0 < TWO32 * range
    modifies g, g.mt
    ensures g.Valid()
    ensures (g.State(), m) == Rejection(old(g.State()), range, t, m0, budget)
  {
    m := m0;
    var l := m % TWO32;
    var fuel := budget;
    while l < t && fuel > 0
      invariant g.Valid()
      invariant m < TWO32 * range && l == m % TWO32
      invariant Rejection(g.State(), range, t, m, fuel)
                == Rejection(old(g.State()), range, t, m0, budget)
      decreases fuel
    {
      var x := g.GenrandInt32();
      ProductBelow(x, range);
      m := x * range;
      l := m % TWO32;
      fuel := fuel - 1;
    }
  }

  /** bounded_rand over the generator object: draw, and only when the low
      word falls below range compute the threshold and run the rejection
      loop. */
  method BoundedRand(g: MersenneTwister, range: nat, budget: nat) returns (value: nat, settled: bool)
    requires g.Valid() && range < TWO32
    modifies g, g.mt
    ensures g.Valid()
    ensures var r := BoundedDraw(old(g.State()), range, budget);
      g.State() == r.state && value == r.value && settled == r.settled
  {
    var x := g.GenrandInt32();
    ProductBelow(x, range);
    var m: nat := x * range;
    var l: nat := m % TWO32;
    if l < range {
      var t := Threshold(range);
      m := Redraw(g, range, t, m, budget);
      l := m % TWO32;
      settled := l >= t;
    } else {
      settled := true;
    }
    value := m / TWO32;
  }
}
