/**
 * MT19937, the Mersenne Twister of Matsumoto and Nishimura (ACM TOMACS,
 * 1998) with the 2002 seeding routine, as mkm.c carries it: a state vector
 * of N words and a cursor, refilled N words at a time by the twist
 * recurrence and tempered on output.
 *
 * The source keeps the words in C `unsigned long` and masks every store to
 * 32 bits; the model keeps them as naturals, with that mask written as the
 * reduction modulo 2^32, and proves that every stored word and every
 * output stays below 2^32.
 */
module Mersenne {
  import opened Bits

  const N: int := 624
  const M: int := 397
  /** Constant vector a of the twist. */
  const MATRIX_A: nat := 0x9908b0df
  /** Most significant w-r bits. */
  const UPPER_MASK: nat := 0x80000000
  /** Least significant r bits. */
  const LOWER_MASK: nat := 0x7fffffff
  /** Seed used when a number is asked for before any seeding. */
  const DEFAULT_SEED: nat := 5489

  /** Every word fits in 32 bits. */
  predicate Words32(s: seq<nat>)
  {
    forall i :: 0 <= i < |s| ==> s[i] < TWO32
  }

  // ---------------------------------------------------------------------
  // Seeding
  // ---------------------------------------------------------------------

  /** The word init_genrand stores at position i, from the word before it:
      Knuth's multiplier 1812433253, then the index, masked to 32 bits. The
      unsigned long arithmetic wraps modulo 2^64 first, which the 32-bit
      mask makes invisible. */
  function SeedStep(prev: nat, i: int): nat
    requires 1 <= i < N
  {
    (1812433253 * Xor(prev, prev / 0x4000_0000) + i) % TWO32
  }

  /** The first n words init_genrand produces from seed s. */
  function SeedPrefix(s: nat, n: int): (w: seq<nat>)
    requires 1 <= n <= N
    ensures |w| == n
    decreases n
  {
    if n == 1 then [s % TWO32]
    else
      var v := SeedPrefix(s, n - 1);
      v + [SeedStep(v[n - 2], n - 1)]
  }

  /** The whole state vector init_genrand produces from seed s. */
  function SeedWords(s: nat): (w: seq<nat>)
    ensures |w| == N
  {
    SeedPrefix(s, N)
  }

  /** init_genrand's words: the seed masked to 32 bits first, then each
      word from the one before it by SeedStep; all of them below 2^32. */
  lemma {:induction false} SeedPrefixRecurrence(s: nat, n: int)
    requires 1 <= n <= N
    ensures SeedPrefix(s, n)[0] == s % TWO32
    ensures forall i :: 1 <= i < n ==>
              SeedPrefix(s, n)[i] == SeedStep(SeedPrefix(s, n)[i - 1], i)
    ensures Words32(SeedPrefix(s, n))
    decreases n
  {
    if n > 1 {
      SeedPrefixRecurrence(s, n - 1);
      var v := SeedPrefix(s, n - 1);
      var w := SeedPrefix(s, n);
      assert w == v + [SeedStep(v[n - 2], n - 1)];
      forall i | 1 <= i < n
        ensures w[i] == SeedStep(w[i - 1], i)
      {
        if i < n - 1 {
          assert w[i] == v[i] && w[i - 1] == v[i - 1];
        }
      }
    }
  }

  // ---------------------------------------------------------------------
  // The twist
  // ---------------------------------------------------------------------

  /** mag01[b], the constant XORed in when the low bit b is set. */
  function Mag01(b: nat): nat
  {
    if b == 0 then 0 else MATRIX_A
  }

  /** The upper bit of `hi` joined to the lower 31 bits of `lo`, shifted
      right and multiplied by the twist matrix A: always a 32-bit word. */
  function TwistMix(hi: nat, lo: nat): (r: nat)
    ensures r < TWO32
  {
    var y := Or(And(hi, UPPER_MASK), And(lo, LOWER_MASK));
    Pow2Constants();
    AndAtMost(hi, UPPER_MASK);
    AndAtMost(lo, LOWER_MASK);
    OrBelow(And(hi, UPPER_MASK), And(lo, LOWER_MASK), 32);
    XorBelow(y / 2, Mag01(y % 2), 32);
    Xor(y / 2, Mag01(y % 2))
  }

  /** One step of the refill: the word M positions ahead XORed with the
      mix of the word being replaced and its successor. */
  function TwistFn(hi: nat, lo: nat, far: nat): (r: nat)
    ensures far < TWO32 ==> r < TWO32
  {
    var mix := TwistMix(hi, lo);
    Pow2Constants();
    if far < TWO32 then XorBelow(far, mix, 32); Xor(far, mix)
    else Xor(far, mix)
  }

  /** An index past the end of the vector wrapped back to its start. */
  function Wrap(i: int): int
  {
    if i < N then i else i - N
  }

  /** The new word at position k, computed from the vector s as it stands
      when the in-place refill reaches k (positions below k already new). */
  function TwistWord(s: seq<nat>, k: int): nat
    requires |s| == N && 0 <= k < N
  {
    TwistFn(s[k], s[Wrap(k + 1)], s[Wrap(k + M)])
  }

  /** The vector after the in-place refill has rewritten positions 0..k-1. */
  function TwistPrefix(s: seq<nat>, k: int): (t: seq<nat>)
    requires |s| == N && 0 <= k <= N
    ensures |t| == N
    ensures forall i :: k <= i < N ==> t[i] == s[i]
    ensures Words32(s) ==> Words32(t)
    decreases k
  {
    if k == 0 then s
    else
      var u := TwistPrefix(s, k - 1);
      u[k - 1 := TwistWord(u, k - 1)]
  }

  /** The refill of all N words. */
  function Twist(s: seq<nat>): (t: seq<nat>)
    requires |s| == N
    ensures |t| == N
    ensures Words32(s) ==> Words32(t)
  {
    TwistPrefix(s, N)
  }

  /** The MT19937 linear recurrence over the stream of words x[0], x[1], ...:
      x[k + N] = x[k + M] ^ ((upper bit of x[k] | lower bits of x[k + 1]) A). */
  predicate Recurrence(x: seq<nat>, k: int)
    requires 0 <= k && k + N < |x|
  {
    x[k + N] == TwistFn(x[k], x[k + 1], x[k + M])
  }

  /** Once the refill has passed a position, that position keeps its new word. */
  lemma {:induction false} TwistPrefixStable(s: seq<nat>, i: int, k: int)
    requires |s| == N && 0 <= i < k <= N
    ensures TwistPrefix(s, k)[i] == TwistPrefix(s, i + 1)[i]
    decreases k
  {
    if k > i + 1 {
      TwistPrefixStable(s, i, k - 1);
    }
  }

  /** The refill's word k is the recurrence applied at k. */
  lemma TwistStepIsRecurrence(s: seq<nat>, k: int)
    requires |s| == N && 0 <= k < N
    ensures Recurrence(s + Twist(s), k)
  {
    var x := s + Twist(s);
    var u := TwistPrefix(s, k);
    TwistNewWord(s, k);
    TwistNextOperand(s, k);
    TwistFarOperand(s, k);
    assert u[k] == x[k];
  }

  /** Word k of the refill is computed from the vector as it stands when
      the refill reaches k ... */
  lemma TwistNewWord(s: seq<nat>, k: int)
    requires |s| == N && 0 <= k < N
    ensures (s + Twist(s))[k + N] == TwistWord(TwistPrefix(s, k), k)
  {
    TwistPrefixStable(s, k, N);
    assert (s + Twist(s))[k + N] == Twist(s)[k];
  }

  /** ... where the next word is still old, except that the last word's
      successor (word 0) is already new ... */
  lemma TwistNextOperand(s: seq<nat>, k: int)
    requires |s| == N && 0 <= k < N
    ensures TwistPrefix(s, k)[Wrap(k + 1)] == (s + Twist(s))[k + 1]
  {
    var u := TwistPrefix(s, k);
    if k + 1 < N {
      assert u[Wrap(k + 1)] == u[k + 1] == s[k + 1];
      assert (s + Twist(s))[k + 1] == s[k + 1];
    } else {
      TwistPrefixStable(s, 0, N);
      TwistPrefixStable(s, 0, k);
      assert u[Wrap(k + 1)] == u[0] == Twist(s)[0];
      assert (s + Twist(s))[k + 1] == Twist(s)[0];
    }
  }

  /** ... and the word M positions ahead is old until it wraps round to
      the part already rewritten. */
  lemma TwistFarOperand(s: seq<nat>, k: int)
    requires |s| == N && 0 <= k < N
    ensures TwistPrefix(s, k)[Wrap(k + M)] == (s + Twist(s))[k + M]
  {
    if k + M >= N {
      TwistPrefixStable(s, k + M - N, N);
      TwistPrefixStable(s, k + M - N, k);
      assert (s + Twist(s))[k + M] == Twist(s)[k + M - N];
    }
  }

  /** The in-place refill computes exactly the next N words of the MT19937
      recurrence: the old vector followed by the new one satisfies the
      recurrence at every k < N. */
  lemma TwistIsRecurrence(s: seq<nat>)
    requires |s| == N
    ensures forall k :: 0 <= k < N ==> Recurrence(s + Twist(s), k)
  {
    forall k | 0 <= k < N
      ensures Recurrence(s + Twist(s), k)
    {
      TwistStepIsRecurrence(s, k);
    }
  }

  // ---------------------------------------------------------------------
  // Tempering
  // ---------------------------------------------------------------------

  /** The output transformation applied to the word taken from the state;
      a 32-bit word stays a 32-bit word (the left shifts cannot overflow an
      unsigned long from there). */
  function Temper(y: nat): (r: nat)
    requires y < TWO32
    ensures r < TWO32
  {
    Pow2Constants();
    XorBelow(y, y / 2048, 32);
    var y1 := Xor(y, y / 2048);
    AndAtMost(y1 * 128, 0x9d2c5680);
    XorBelow(y1, And(y1 * 128, 0x9d2c5680), 32);
    var y2 := Xor(y1, And(y1 * 128, 0x9d2c5680));
    AndAtMost(y2 * 32768, 0xefc60000);
    XorBelow(y2, And(y2 * 32768, 0xefc60000), 32);
    var y3 := Xor(y2, And(y2 * 32768, 0xefc60000));
    XorBelow(y3, y3 / 262144, 32);
    Xor(y3, y3 / 262144)
  }

  // ---------------------------------------------------------------------
  // The generator as a state machine
  // ---------------------------------------------------------------------

  /** The generator's state: the vector mt and the cursor mti; mti == N + 1
      means "never seeded". */
  datatype MtState = MtState(mt: seq<nat>, mti: int)

  predicate ValidState(st: MtState)
  {
    |st.mt| == N && 0 <= st.mti <= N + 1 && Words32(st.mt)
  }

  /** The state a never-seeded generator starts in (zeroed static storage). */
  function Unseeded(): MtState
  {
    MtState(seq(N, _ => 0), N + 1)
  }

  /** The state genrand_int32 reads its word from: unchanged while words
      remain, otherwise refilled by the twist (seeding with DEFAULT_SEED
      first if never seeded) with the cursor reset to 0. */
  function Refilled(st: MtState): (r: MtState)
    requires ValidState(st)
    ensures ValidState(r) && 0 <= r.mti < N
  {
    if st.mti < N then st
    else
      SeedPrefixRecurrence(DEFAULT_SEED, N);
      var words := if st.mti == N + 1 then SeedWords(DEFAULT_SEED) else st.mt;
      MtState(Twist(words), 0)
  }

  /** One call of genrand_int32: the new state and the tempered word. */
  function Next(st: MtState): (r: (MtState, nat))
    requires ValidState(st)
    ensures ValidState(r.0)
    ensures 1 <= r.0.mti <= N
    ensures r.1 < TWO32
  {
    var s := Refilled(st);
    (MtState(s.mt, s.mti + 1), Temper(s.mt[s.mti]))
  }

  /** How one call moves the cursor and which word it consumes: while words
      remain it takes the word under the cursor and advances by one; when
      the cursor has reached N it refills all N words and takes word 0; a
      never-seeded generator behaves as one seeded with 5489. */
  lemma NextConsumesOneWord(st: MtState)
    requires ValidState(st)
    ensures st.mti < N ==>
              Next(st) == (MtState(st.mt, st.mti + 1), Temper(st.mt[st.mti]))
    ensures st.mti == N ==>
              Next(st) == (MtState(Twist(st.mt), 1), Temper(Twist(st.mt)[0]))
    ensures st.mti == N + 1 ==>
              var t := Twist(SeedWords(DEFAULT_SEED));
              Next(st) == (MtState(t, 1), Temper(t[0]))
  {
    if st.mti < N {
      assert Refilled(st) == st;
    } else if st.mti == N {
      assert Refilled(st) == MtState(Twist(st.mt), 0);
    } else {
      assert Refilled(st) == MtState(Twist(SeedWords(DEFAULT_SEED)), 0);
    }
  }

  /** The generator: the static array mt and cursor mti of the source as
      the fields of one object. */
  class MersenneTwister {
    const mt: array<nat>
    var mti: int

    ghost predicate Valid()
      reads this, mt
    {
      mt.Length == N && ValidState(State())
    }

    ghost function State(): MtState
      reads this, mt
    {
      MtState(mt[..], mti)
    }

    /** Zeroed storage with the cursor at "never seeded". */
    constructor ()
      ensures Valid() && fresh(mt)
      ensures State() == Unseeded()
    {
      mt := new nat[N](_ => 0);
      mti := N + 1;
    }

    /** init_genrand: fills the vector from seed s; mti doubles as the loop
        counter and ends at N. */
    method InitGenrand(s: nat)
      requires mt.Length == N
      modifies this, mt
      ensures Valid()
      ensures State() == MtState(SeedWords(s), N)
    {
      mt[0] := s % TWO32;
      mti := 1;
      while mti < N
        invariant 1 <= mti <= N
        invariant mt[..mti] == SeedPrefix(s, mti)
      {
        mt[mti] := SeedStep(mt[mti - 1], mti);
        mti := mti + 1;
      }
      assert mt[..] == mt[..N];
      SeedPrefixRecurrence(s, N);
    }

    /** The refill block of genrand_int32 ("generate N words at one time"):
        three sweeps that differ only in how they reach the word M ahead. */
    method Regenerate()
      requires mt.Length == N
      modifies mt
      ensures mt[..] == Twist(old(mt[..]))
    {
      ghost var s := mt[..];
      RefillLow(s);
      RefillHigh(s);
      RefillLast(s);
    }

    /** The refill's first loop: positions 0 .. N-M-1, whose far operand
        is still old. */
    method RefillLow(ghost s: seq<nat>)
      requires mt.Length == N && mt[..] == s
      modifies mt
      ensures mt[..] == TwistPrefix(s, N - M)
    {
      var kk := 0;
      while kk < N - M
        invariant 0 <= kk <= N - M
        invariant mt[..] == TwistPrefix(s, kk)
      {
        var w := TwistFn(mt[kk], mt[kk + 1], mt[kk + M]);
        assert w == TwistWord(mt[..], kk);
        mt[kk] := w;
        kk := kk + 1;
      }
    }

    /** The refill's second loop: positions N-M .. N-2, whose far operand
        wraps round to the words already rewritten. */
    method RefillHigh(ghost s: seq<nat>)
      requires mt.Length == N && |s| == N && mt[..] == TwistPrefix(s, N - M)
      modifies mt
      ensures mt[..] == TwistPrefix(s, N - 1)
    {
      var kk := N - M;
      while kk < N - 1
        invariant N - M <= kk <= N - 1
        invariant mt[..] == TwistPrefix(s, kk)
      {
        var w := TwistFn(mt[kk], mt[kk + 1], mt[kk + (M - N)]);
        assert w == TwistWord(mt[..], kk);
        mt[kk] := w;
        kk := kk + 1;
      }
    }

    /** The refill's last word, whose successor is the new word 0. */
    method RefillLast(ghost s: seq<nat>)
      requires mt.Length == N && |s| == N && mt[..] == TwistPrefix(s, N - 1)
      modifies mt
      ensures mt[..] == TwistPrefix(s, N)
    {
      var w := TwistFn(mt[N - 1], mt[0], mt[M - 1]);
      assert w == TwistWord(mt[..], N - 1);
      mt[N - 1] := w;
    }

    /** genrand_int32: refill when the cursor has run out, then temper the
        word under the cursor and advance it. */
    method GenrandInt32() returns (y: nat)
      requires Valid()
      modifies this, mt
      ensures Valid()
      ensures (State(), y) == Next(old(State()))
    {
      if mti >= N {
        if mti == N + 1 {
          InitGenrand(DEFAULT_SEED);
        }
        Regenerate();
        mti := 0;
      }
      y := mt[mti];
      mti := mti + 1;
      y := Temper(y);
    }
  }
}
