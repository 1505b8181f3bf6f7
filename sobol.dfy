/**
 * sob_seq: the two-dimensional Sobol quasi-random sequence in the Gray-code
 * form of Bratley and Fox (the Numerical Recipes `sobseq` construction).
 * On its first call the generator derives MAXBIT direction numbers per
 * dimension from two primitive polynomials; every call then XORs into each
 * accumulator the direction number chosen by the number of trailing 1-bits
 * of the call counter, and scales the accumulators by 2^-MAXBIT.
 */
module Sobol {
  import opened Bits

  const MAXBIT: nat := 30
  /** Number of entries of the direction-number table iv. */
  const IV_SIZE: nat := 2 * MAXBIT + 1
  /** 1 << MAXBIT: every direction number and accumulator lies below it. */
  const LIMIT: nat := 0x4000_0000

  /** Degrees of the primitive polynomials of dimensions 1 and 2, the
      table mdeg = {0, 1, 2} (entry 0 is unused). */
  function Mdeg(k: nat): nat
  {
    if k == 0 then 0 else if k == 1 then 1 else 2
  }

  /** Their interior coefficients as bits, the table ip = {0, 0, 1}. */
  function Ip(k: nat): nat
  {
    if k == 2 then 1 else 0
  }

  /** The static initialiser of iv: 25 listed entries, the rest zero. */
  function InitialIv(s: int): nat
  {
    match s
      case 1 => 1
      case 2 => 1
      case 3 => 1
      case 4 => 1
      case 5 => 1
      case 6 => 1
      case 7 => 3
      case 8 => 1
      case 9 => 3
      case 10 => 3
      case 11 => 1
      case 12 => 1
      case 13 => 5
      case 14 => 7
      case 15 => 7
      case 16 => 3
      case 17 => 3
      case 18 => 5
      case 19 => 15
      case 20 => 11
      case 21 => 5
      case 22 => 15
      case 23 => 13
      case 24 => 9
      case _ => 0
  }

  /** Where iu[j][k] lives in iv: iu[j] points at iv[2 (j - 1)]. */
  function Slot(j: int, k: int): int
  {
    2 * (j - 1) + k
  }

  /** The dimension whose direction number slot s of iv holds ... */
  function DimOf(s: int): int
  {
    if s % 2 == 1 then 1 else 2
  }

  /** ... and the bit position. */
  function BitOf(s: int): int
  {
    (s - DimOf(s)) / 2 + 1
  }

  /** Slot is a bijection between (bit, dimension) pairs and the slots
      1 .. 2 MAXBIT of iv; slot 0 belongs to no direction number. */
  lemma {:induction false} SlotInverse(s: int, j: int, k: int)
    requires 1 <= j && 1 <= k <= 2
    ensures s == Slot(j, k) <==> (s >= 1 && DimOf(s) == k && BitOf(s) == j)
  {
  }

  // ---------------------------------------------------------------------
  // Direction numbers
  // ---------------------------------------------------------------------

  /** Direction number j of dimension k, as the initialisation leaves it in
      iu[j][k]: the first Mdeg(k) are the initial values shifted left by
      MAXBIT - j; the others follow the polynomial recurrence. All of them
      have at most MAXBIT bits. */
  function Dir(j: nat, k: nat): (d: nat)
    requires 1 <= j <= MAXBIT && 1 <= k <= 2
    ensures d < LIMIT
    decreases j, 1
  {
    if j <= Mdeg(k) then InitialDir(j, k)
    else Taps(j, k, Mdeg(k) - 1, Ip(k), SelfShiftXor(Dir(j - Mdeg(k), k), Mdeg(k)))
  }

  /** The first Mdeg(k) direction numbers: iu[j][k] <<= MAXBIT - j. The
      initial values there are all 1, so each is a single bit below bit
      MAXBIT. */
  function InitialDir(j: nat, k: nat): (d: nat)
    requires 1 <= j <= Mdeg(k) && 1 <= k <= 2
    ensures d < LIMIT
  {
    ShiftedOneBelowLimit(j);
    Shl(InitialIv(Slot(j, k)), MAXBIT - j)
  }

  /** i ^ (i >> m), the start of the recurrence. */
  function SelfShiftXor(i: nat, m: nat): (r: nat)
    ensures i < LIMIT ==> r < LIMIT
  {
    if i < LIMIT then
      ShrAtMost(i, m);
      XorBelowLimit(i, Shr(i, m));
      Xor(i, Shr(i, m))
    else Xor(i, Shr(i, m))
  }

  /** The inner loop of the recurrence: for l = Mdeg(k) - 1 down to 1,
      XOR in iu[j - l][k] when the next coefficient bit of ipp is set. */
  function Taps(j: nat, k: nat, l: int, ipp: nat, acc: nat): (r: nat)
    requires 1 <= j <= MAXBIT && 1 <= k <= 2 && 0 <= l < j
    ensures acc < LIMIT ==> r < LIMIT
    decreases j, 0, l
  {
    if l < 1 then acc
    else
      var d := Dir(j - l, k);
      var next := if ipp % 2 == 1 then Xor(acc, d) else acc;
      if acc < LIMIT then
        XorBelowLimit(acc, d);
        Taps(j, k, l - 1, ipp / 2, next)
      else Taps(j, k, l - 1, ipp / 2, next)
  }

  /** The facts about 1 << MAXBIT the model needs, each proved once. */
  lemma XorBelowLimit(a: nat, b: nat)
    requires a < LIMIT && b < LIMIT
    ensures Xor(a, b) < LIMIT
  {
    Pow2Constants();
    XorBelow(a, b, MAXBIT);
  }

  lemma ShiftedOneBelowLimit(j: nat)
    requires 1 <= j <= MAXBIT
    ensures Shl(1, MAXBIT - j) < LIMIT
  {
    ShlOfOne(MAXBIT - j);
    Pow2Increases(MAXBIT - j, MAXBIT);
    Pow2Constants();
  }

  /** Fewer than 2^MAXBIT - 1 calls keep the lowest 0-bit of the counter
      inside the first MAXBIT bits. */
  lemma CounterBelowLimit(n: nat)
    requires n < LIMIT - 1
    ensures TrailingOnes(n) < MAXBIT
  {
    Pow2Constants();
    TrailingOnesBelow(n, MAXBIT);
  }

  // ---------------------------------------------------------------------
  // The Gray-code counter
  // ---------------------------------------------------------------------

  /** Number of trailing 1-bits of n, i.e. the position of its lowest 0-bit. */
  function TrailingOnes(n: nat): nat
  {
    if n % 2 == 1 then 1 + TrailingOnes(n / 2) else 0
  }

  /** Bit p of n. */
  predicate Bit(n: nat, p: nat)
  {
    if p == 0 then n % 2 == 1 else Bit(n / 2, p - 1)
  }

  /** Bit p of the Gray code n ^ (n >> 1). */
  predicate GrayBit(n: nat, p: nat)
  {
    Bit(n, p) != Bit(n, p + 1)
  }

  lemma {:induction false} BitOfZero(p: nat)
    ensures !Bit(0, p)
  {
    if p > 0 {
      BitOfZero(p - 1);
    }
  }

  /** Adding one clears the trailing 1-bits of n, sets the 0-bit above
      them and keeps the higher bits. */
  lemma {:induction false} BitStep(n: nat, p: nat)
    ensures p < TrailingOnes(n) ==> Bit(n, p) && !Bit(n + 1, p)
    ensures p == TrailingOnes(n) ==> !Bit(n, p) && Bit(n + 1, p)
    ensures p > TrailingOnes(n) ==> Bit(n + 1, p) == Bit(n, p)
    decreases p
  {
    if p == 0 {
      LowBitStep(n);
    } else if n % 2 == 1 {
      BitStep(n / 2, p - 1);
      CarryStep(n, p);
    } else {
      NoCarryStep(n, p);
    }
  }

  /** Bit 0 flips on every step; it was set exactly when n has trailing 1-bits. */
  lemma LowBitStep(n: nat)
    ensures Bit(n, 0) == (n % 2 == 1) && Bit(n + 1, 0) == (n % 2 == 0)
    ensures n % 2 == 1 ==> TrailingOnes(n) > 0
    ensures n % 2 == 0 ==> TrailingOnes(n) == 0
  {
  }

  /** For odd n the carry moves on into the upper bits ... */
  lemma CarryStep(n: nat, p: nat)
    requires n % 2 == 1 && p > 0
    ensures Bit(n + 1, p) == Bit(n / 2 + 1, p - 1) && Bit(n, p) == Bit(n / 2, p - 1)
    ensures TrailingOnes(n) == 1 + TrailingOnes(n / 2)
  {
    assert (n + 1) / 2 == n / 2 + 1;
  }

  /** ... and for even n adding one only sets bit 0. */
  lemma NoCarryStep(n: nat, p: nat)
    requires n % 2 == 0 && p > 0
    ensures Bit(n + 1, p) == Bit(n, p) && TrailingOnes(n) == 0
  {
    assert (n + 1) / 2 == n / 2;
  }

  /** Going from n to n + 1 flips exactly one bit of the Gray code: the bit
      at the position of the lowest 0-bit of n. */
  lemma GrayBitStep(n: nat, p: nat)
    ensures GrayBit(n + 1, p) == (GrayBit(n, p) != (p == TrailingOnes(n)))
  {
    BitStep(n, p);
    BitStep(n, p + 1);
  }

  /** The XOR of dirs[p] over the positions i <= p < |dirs| where the
      Gray code of n has a 1-bit. */
  function GrayXor(dirs: seq<nat>, n: nat, i: nat): nat
    requires i <= |dirs|
    decreases |dirs| - i
  {
    if i == |dirs| then 0
    else
      var rest := GrayXor(dirs, n, i + 1);
      if GrayBit(n, i) then Xor(dirs[i], rest) else rest
  }

  lemma {:induction false} GrayXorOfZero(dirs: seq<nat>, i: nat)
    requires i <= |dirs|
    ensures GrayXor(dirs, 0, i) == 0
    decreases |dirs| - i
  {
    if i < |dirs| {
      BitOfZero(i);
      BitOfZero(i + 1);
      GrayXorOfZero(dirs, i + 1);
    }
  }

  /** From n to n + 1 the XOR gains (or loses) exactly the entry at the
      position of the lowest 0-bit of n. */
  lemma {:induction false} GrayXorStep(dirs: seq<nat>, n: nat, i: nat)
    requires i <= |dirs| && TrailingOnes(n) < |dirs|
    ensures GrayXor(dirs, n + 1, i)
            == if i <= TrailingOnes(n) then Xor(GrayXor(dirs, n, i), dirs[TrailingOnes(n)])
               else GrayXor(dirs, n, i)
    decreases |dirs| - i
  {
    if i < |dirs| {
      GrayXorStep(dirs, n, i + 1);
      GrayBitStep(n, i);
      GrayFlip(i, TrailingOnes(n), dirs[i], dirs[TrailingOnes(n)],
               GrayXor(dirs, n, i + 1), GrayXor(dirs, n + 1, i + 1), GrayBit(n, i), GrayBit(n + 1, i));
    }
  }

  /** One position of the Gray-code step, on values: d is the direction
      number of position i, rest and rest' the XOR of the positions above i
      before and after the step, g and g' the Gray bit at i before and
      after, and e the direction number of the flipped position t. */
  lemma GrayFlip(i: nat, t: nat, d: nat, e: nat, rest: nat, rest': nat, g: bool, g': bool)
    requires g' == (g != (i == t))
    requires rest' == if i + 1 <= t then Xor(rest, e) else rest
    requires i == t ==> d == e
    ensures (if g' then Xor(d, rest') else rest')
            == if i <= t then Xor(if g then Xor(d, rest) else rest, e)
               else if g then Xor(d, rest) else rest
  {
    if i < t && g {
      XorAssociates(d, rest, e);
    } else if i == t {
      if g {
        XorCancel(d, rest);
      } else {
        XorCommutes(rest, d);
      }
    }
  }


  /** (d ^ r) ^ d == r */
  lemma XorCancel(d: nat, r: nat)
    ensures Xor(Xor(d, r), d) == r
  {
    XorCommutes(d, r);
    XorAssociates(r, d, d);
    XorSelf(d);
    XorZero(r);
  }

  /** Fewer than 2^b - 1 calls keep the lowest 0-bit of the counter within
      the first b bits ... */
  lemma {:induction false} TrailingOnesBelow(n: nat, b: nat)
    requires n < Pow2(b) - 1
    ensures TrailingOnes(n) < b
    decreases b
  {
    if n % 2 == 1 {
      assert n / 2 < Pow2(b - 1) - 1;
      TrailingOnesBelow(n / 2, b - 1);
    }
  }

  /** ... and call number 2^b - 1 is the first whose lowest 0-bit is bit b.
      For b = MAXBIT the slots it reads, 2 MAXBIT + 1 and 2 MAXBIT + 2, lie
      past the end of iv, since the loop has no MAXBIT check. */
  lemma {:induction false} TrailingOnesOfAllOnes(b: nat)
    ensures TrailingOnes(Pow2(b) - 1) == b
    ensures Slot(TrailingOnes(Pow2(b) - 1) + 1, 1) == 2 * b + 1
    decreases b
  {
    if b > 0 {
      var x, y := Pow2(b) - 1, Pow2(b - 1) - 1;
      assert x == 2 * y + 1;
      assert x % 2 == 1 && x / 2 == y;
      TrailingOnesOfAllOnes(b - 1);
      assert TrailingOnes(x) == 1 + TrailingOnes(y) == b;
    } else {
      assert Pow2(b) - 1 == 0;
    }
    assert Slot(b + 1, 1) == 2 * b + 1;
  }

  /** The accumulator of one dimension after n calls, when dirs holds its
      direction numbers (bit p in dirs[p]): call m + 1 XORs in the entry
      picked by the position of the lowest 0-bit of the counter m. Defined
      for the counters below 2^MAXBIT, the ones whose calls read inside
      iv. */
  function Accumulate(dirs: seq<nat>, n: nat): nat
    requires |dirs| == MAXBIT && n < LIMIT
  {
    if n == 0 then 0
    else
      CounterBelowLimit(n - 1);
      Xor(Accumulate(dirs, n - 1), dirs[TrailingOnes(n - 1)])
  }

  /** The Gray-code closed form of the generator: after n calls the
      accumulator is the XOR of the entries picked by the set bits of the
      Gray code n ^ (n >> 1), bit p picking dirs[p]. So the n-th point
      depends on n alone, not on the path of calls. */
  lemma {:induction false} AccumulateIsGray(dirs: seq<nat>, n: nat)
    requires |dirs| == MAXBIT && n < LIMIT
    ensures Accumulate(dirs, n) == GrayXor(dirs, n, 0)
  {
    if n == 0 {
      GrayXorOfZero(dirs, 0);
    } else {
      AccumulateIsGray(dirs, n - 1);
      CounterBelowLimit(n - 1);
      GrayXorStep(dirs, n - 1, 0);
    }
  }

  /** Direction numbers of at most MAXBIT bits keep the accumulator below
      2^MAXBIT. */
  lemma {:induction false} AccumulateBelow(dirs: seq<nat>, n: nat)
    requires |dirs| == MAXBIT && n < LIMIT
    requires forall p :: 0 <= p < MAXBIT ==> dirs[p] < LIMIT
    ensures Accumulate(dirs, n) < LIMIT
  {
    if n > 0 {
      AccumulateBelow(dirs, n - 1);
      CounterBelowLimit(n - 1);
      XorBelowLimit(Accumulate(dirs, n - 1), dirs[TrailingOnes(n - 1)]);
    }
  }

  /** The direction numbers of dimension k, Dir(1, k) .. Dir(MAXBIT, k),
      indexed from 0. */
  function Directions(k: nat): (t: seq<nat>)
    requires 1 <= k <= 2
    ensures |t| == MAXBIT
    ensures forall p :: 0 <= p < MAXBIT ==> t[p] == Dir(p + 1, k)
  {
    seq(MAXBIT, p requires 0 <= p < MAXBIT => Dir(p + 1, k))
  }

  // ---------------------------------------------------------------------
  // The generator
  // ---------------------------------------------------------------------

  /** 1 / (1L << MAXBIT), the scale factor fac. */
  const FAC: real := 1.0 / 1073741824.0


  /** Whether bit j' of dimension k' comes before bit j of dimension k in
      the order the first-call block visits them. */
  predicate Before(j': int, k': int, j: int, k: int)
  {
    k' < k || (k' == k && j' < j)
  }

  /** The table iv as the first-call block leaves it when it reaches bit j
      of dimension k, on its way to the table f: every slot visited before
      already holds its entry of f, every other one still holds the static
      initialiser. */
  function Table(f: seq<nat>, k: nat, j: nat): (t: seq<nat>)
    requires |f| == IV_SIZE
    ensures |t| == IV_SIZE
  {
    seq(IV_SIZE, s requires 0 <= s < IV_SIZE =>
      if s >= 1 && Before(BitOf(s), DimOf(s), j, k) then f[s] else InitialIv(s))
  }

  /** Every slot visited before (j, k) holds its final entry ... */
  lemma TableDone(f: seq<nat>, k: nat, j: nat, j': nat, k': nat)
    requires |f| == IV_SIZE && 1 <= j' <= MAXBIT && 1 <= k' <= 2 && Before(j', k', j, k)
    ensures Table(f, k, j)[Slot(j', k')] == f[Slot(j', k')]
  {
    SlotInverse(Slot(j', k'), j', k');
  }

  /** ... and every later one still holds the static initialiser. */
  lemma TableFresh(f: seq<nat>, k: nat, j: nat, j': nat, k': nat)
    requires |f| == IV_SIZE && 1 <= j' <= MAXBIT && 1 <= k' <= 2 && !Before(j', k', j, k)
    ensures Table(f, k, j)[Slot(j', k')] == InitialIv(Slot(j', k'))
  {
    SlotInverse(Slot(j', k'), j', k');
  }

  /** Storing the entry for bit j of dimension k moves the table one step
      on. */
  lemma TableStep(f: seq<nat>, k: nat, j: nat)
    requires |f| == IV_SIZE && 1 <= k <= 2 && 1 <= j <= MAXBIT
    ensures Table(f, k, j + 1) == Table(f, k, j)[Slot(j, k) := f[Slot(j, k)]]
  {
    var after, stored := Table(f, k, j + 1), Table(f, k, j)[Slot(j, k) := f[Slot(j, k)]];
    forall s | 0 <= s < IV_SIZE
      ensures after[s] == stored[s]
    {
      SlotInverse(s, j, k);
    }
  }

  /** After bit MAXBIT of dimension k comes bit 1 of dimension k + 1. */
  lemma TableNextDimension(f: seq<nat>, k: nat)
    requires |f| == IV_SIZE && 1 <= k <= 2
    ensures Table(f, k, MAXBIT + 1) == Table(f, k + 1, 1)
  {
    var last, first := Table(f, k, MAXBIT + 1), Table(f, k + 1, 1);
    forall s | 0 <= s < IV_SIZE
      ensures last[s] == first[s]
    {
      if s >= 1 {
        SlotInverse(s, BitOf(s), DimOf(s));
      }
    }
  }

  /** The static initialiser of iv ... */
  predicate Initial(t: seq<nat>)
  {
    |t| == IV_SIZE && forall s :: 0 <= s < IV_SIZE ==> t[s] == InitialIv(s)
  }

  /** ... is where the first-call block starts ... */
  lemma TableStart(f: seq<nat>, t: seq<nat>)
    requires |f| == IV_SIZE && Initial(t)
    ensures t == Table(f, 1, 1)
  {
    var first := Table(f, 1, 1);
    forall s | 0 <= s < IV_SIZE
      ensures t[s] == first[s]
    {
      if s >= 1 {
        SlotInverse(s, BitOf(s), DimOf(s));
      }
    }
  }

  /** ... and after both dimensions every slot but slot 0 holds its final
      entry. */
  lemma TableEnd(f: seq<nat>)
    requires |f| == IV_SIZE && f[0] == InitialIv(0)
    ensures Table(f, 3, 1) == f
  {
    var last := Table(f, 3, 1);
    forall s | 0 <= s < IV_SIZE
      ensures last[s] == f[s]
    {
    }
  }

  /** The table the first-call block produces: the slot of bit j of
      dimension k holds Dir(j, k), and slot 0 keeps its initial value. */
  function Final(): (t: seq<nat>)
    ensures |t| == IV_SIZE
  {
    seq(IV_SIZE, s requires 0 <= s < IV_SIZE =>
      if s >= 1 then Dir(BitOf(s), DimOf(s)) else InitialIv(s))
  }

  lemma FinalAt(j: nat, k: nat)
    requires 1 <= j <= MAXBIT && 1 <= k <= 2
    ensures Final()[Slot(j, k)] == Dir(j, k)
  {
    SlotInverse(Slot(j, k), j, k);
  }

  /** The table after the first-call block: every slot holds its
      direction number, and slot 0 is untouched. */
  predicate Complete(t: seq<nat>)
  {
    && |t| == IV_SIZE
    && t[0] == InitialIv(0)
    && forall j, k {:trigger Dir(j, k)} :: 1 <= j <= MAXBIT && 1 <= k <= 2 ==> t[2 * (j - 1) + k] == Dir(j, k)
  }

  /** Column k of table t: the entries that hold iu[1][k] .. iu[MAXBIT][k],
      indexed from 0. */
  function Column(t: seq<nat>, k: nat): (c: seq<nat>)
    requires |t| == IV_SIZE && 1 <= k <= 2
    ensures |c| == MAXBIT
  {
    seq(MAXBIT, p requires 0 <= p < MAXBIT => t[2 * p + k])
  }

  /** One more call XORs into the accumulator of dimension k the entry of
      t selected by the lowest 0-bit of the counter. */
  lemma AccumulateStep(t: seq<nat>, k: nat, n: nat)
    requires |t| == IV_SIZE && 1 <= k <= 2 && n < LIMIT - 1
    ensures TrailingOnes(n) < MAXBIT
    ensures Accumulate(Column(t, k), n + 1) == Xor(Accumulate(Column(t, k), n), t[2 * TrailingOnes(n) + k])
  {
    CounterBelowLimit(n);
  }

  /** The columns of the complete table are the direction numbers. */
  lemma ColumnOfComplete(t: seq<nat>, k: nat)
    requires Complete(t) && 1 <= k <= 2
    ensures Column(t, k) == Directions(k)
  {
    forall p | 0 <= p < MAXBIT
      ensures Column(t, k)[p] == Directions(k)[p]
    {
      var j := p + 1;
      assert 2 * (j - 1) + k == 2 * p + k;
      assert Directions(k)[p] == Dir(j, k);
    }
  }

  /** The table the block produces is complete. */
  lemma FinalComplete()
    ensures Complete(Final())
  {
    forall j, k | 1 <= j <= MAXBIT && 1 <= k <= 2
      ensures Final()[2 * (j - 1) + k] == Dir(j, k)
    {
      FinalAt(j, k);
    }
  }

  /** The recurrence for direction number j of dimension k as the
      first-call block evaluates it, reading the earlier direction numbers
      from table t: i = iu[j - mdeg][k], i ^= i >> mdeg, then the taps. */
  function RecurrenceOf(t: seq<nat>, j: nat, k: nat): nat
    requires |t| == IV_SIZE && 1 <= k <= 2 && Mdeg(k) < j <= MAXBIT
  {
    var i := t[2 * (j - Mdeg(k) - 1) + k];
    TapsOf(t, j, k, Mdeg(k) - 1, Ip(k), Xor(i, Shr(i, Mdeg(k))))
  }

  /** The taps of the recurrence, reading iu[j - l][k] from table t. */
  function TapsOf(t: seq<nat>, j: nat, k: nat, l: int, ipp: nat, acc: nat): nat
    requires |t| == IV_SIZE && 1 <= k <= 2 && 0 <= l < j <= MAXBIT
    decreases l
  {
    if l < 1 then acc
    else TapsOf(t, j, k, l - 1, ipp / 2, if ipp % 2 == 1 then Xor(acc, t[2 * (j - l - 1) + k]) else acc)
  }

  /** Read from a table whose earlier entries of dimension k are the
      direction numbers, the taps are those of the recurrence ... */
  lemma {:induction false} TapsOfDirections(t: seq<nat>, k: nat, j: nat, l: int, ipp: nat, acc: nat)
    requires |t| == IV_SIZE && 1 <= k <= 2 && 0 <= l < j <= MAXBIT
    requires forall p :: j - l <= p < j ==> t[2 * (p - 1) + k] == Dir(p, k)
    ensures TapsOf(t, j, k, l, ipp, acc) == Taps(j, k, l, ipp, acc)
    decreases l
  {
    if l >= 1 {
      assert t[2 * (j - l - 1) + k] == Dir(j - l, k);
      TapsOfDirections(t, k, j, l - 1, ipp / 2, if ipp % 2 == 1 then Xor(acc, Dir(j - l, k)) else acc);
    }
  }

  /** ... so the block computes direction number j of dimension k. */
  lemma RecurrenceOfTable(k: nat, j: nat)
    requires 1 <= k <= 2 && Mdeg(k) < j <= MAXBIT
    ensures RecurrenceOf(Table(Final(), k, j), j, k) == Dir(j, k)
  {
    var t := Table(Final(), k, j);
    forall p | 1 <= p < j
      ensures t[2 * (p - 1) + k] == Dir(p, k)
    {
      TableDone(Final(), k, j, p, k);
      FinalAt(p, k);
    }
    TapsOfDirections(t, k, j, Mdeg(k) - 1, Ip(k), SelfShiftXor(Dir(j - Mdeg(k), k), Mdeg(k)));
  }

  /** The state of sob_seq as one object: the init flag, the table iv, the
      accumulators ix1 and ix2, and the call counter `in`. */
  class SobolSequence {
    var initialized: bool
    var iv: seq<nat>
    var ix1: nat
    var ix2: nat
    var index: nat

    /** Before the first call iv is the static initialiser and nothing has
        been drawn; afterwards iv holds every direction number. Each
        accumulator is what the calls so far have XORed into it. */
    ghost predicate Valid()
      reads this
    {
      && |iv| == IV_SIZE
      && (initialized ==> Complete(iv))
      && (!initialized ==> Initial(iv) && index == 0)
      && index < LIMIT
      && ix1 == Accumulate(Column(iv, 1), index)
      && ix2 == Accumulate(Column(iv, 2), index)
    }

    /** The zero-initialised statics and the initialised table, before the
        first call. */
    constructor ()
      ensures Valid() && !initialized
    {
      initialized := false;
      iv := seq(IV_SIZE, s requires 0 <= s < IV_SIZE => InitialIv(s));
      ix1 := 0;
      ix2 := 0;
      index := 0;
    }

    /** The first-call block: for each dimension, shift the initial
        direction numbers into place and run the recurrence for the rest. */
    method Initialize()
      requires Initial(iv)
      modifies this`iv
      ensures Complete(iv)
    {
      TableStart(Final(), iv);
      var k := 1;
      while k <= 2
        invariant 1 <= k <= 3
        invariant iv == Table(Final(), k, 1)
      {
        ShiftInitial(k);
        FillByRecurrence(k);
        k := k + 1;
      }
      TableEnd(Final());
      FinalComplete();
    }

    /** iu[j][k] <<= MAXBIT - j for the first Mdeg(k) direction numbers. */
    method ShiftInitial(k: nat)
      requires 1 <= k <= 2 && iv == Table(Final(), k, 1)
      modifies this`iv
      ensures iv == Table(Final(), k, Mdeg(k) + 1)
    {
      var j := 1;
      while j <= Mdeg(k)
        invariant 1 <= j <= Mdeg(k) + 1
        invariant iv == Table(Final(), k, j)
      {
        TableFresh(Final(), k, j, j, k);
        FinalAt(j, k);
        iv := iv[Slot(j, k) := Shl(iv[Slot(j, k)], MAXBIT - j)];
        TableStep(Final(), k, j);
        j := j + 1;
      }
    }

    /** Direction numbers Mdeg(k) + 1 .. MAXBIT of dimension k, each from
        the ones before it. */
    method FillByRecurrence(k: nat)
      requires 1 <= k <= 2 && iv == Table(Final(), k, Mdeg(k) + 1)
      modifies this`iv
      ensures iv == Table(Final(), k + 1, 1)
    {
      var j := Mdeg(k) + 1;
      while j <= MAXBIT
        invariant Mdeg(k) + 1 <= j <= MAXBIT + 1
        invariant iv == Table(Final(), k, j)
      {
        var i := Recurrence(j, k);
        RecurrenceOfTable(k, j);
        FinalAt(j, k);
        iv := iv[Slot(j, k) := i];
        TableStep(Final(), k, j);
        j := j + 1;
      }
      TableNextDimension(Final(), k);
    }

    /** Direction number j of dimension k from those already computed:
        i = iu[j - mdeg][k], i ^= i >> mdeg, then XOR in iu[j - l][k] for
        each set coefficient bit. */
    method Recurrence(j: nat, k: nat) returns (i: nat)
      requires 1 <= k <= 2 && Mdeg(k) < j <= MAXBIT && |iv| == IV_SIZE
      ensures i == RecurrenceOf(iv, j, k)
    {
      var ipp := Ip(k);
      i := iv[Slot(j - Mdeg(k), k)];
      i := Xor(i, Shr(i, Mdeg(k)));
      var l: int := Mdeg(k) - 1;
      while l >= 1
        invariant 0 <= l <= Mdeg(k) - 1
        invariant TapsOf(iv, j, k, l, ipp, i) == RecurrenceOf(iv, j, k)
      {
        if ipp % 2 == 1 {
          i := Xor(i, iv[Slot(j - l, k)]);
        }
        ipp := ipp / 2;
        l := l - 1;
      }
    }

    /** The position j (counting from 1) of the lowest 0-bit of n, found by
        shifting n right while its low bit is 1, for at most MAXBIT bits. */
    static method LowestZero(n: nat) returns (j: nat)
      requires TrailingOnes(n) < MAXBIT
      ensures j == TrailingOnes(n) + 1
    {
      var im: nat := n;
      j := 1;
      while j <= MAXBIT
        invariant 1 <= j <= MAXBIT + 1
        invariant TrailingOnes(n) == (j - 1) + TrailingOnes(im)
      {
        if im % 2 == 0 {
          break;
        }
        im := im / 2;
        j := j + 1;
      }
    }

    /** One call of sob_seq: initialise on the first call, then advance
        the accumulators and return them scaled by fac. The caller must
        stay below 2^MAXBIT - 1 calls: call number 2^MAXBIT - 1 would read
        past the end of iv (see TrailingOnesOfAllOnes). */
    method Next() returns (x: real, y: real)
      requires Valid() && index < LIMIT - 1
      modifies this
      ensures Valid() && initialized
      ensures index == old(index) + 1
      ensures x == Point(index).0 && y == Point(index).1
    {
      if !initialized {
        initialized := true;
        Initialize();
        index := 0;
      }
      Advance();
      ColumnOfComplete(iv, 1);
      ColumnOfComplete(iv, 2);
      x := ix1 as real * FAC;
      y := ix2 as real * FAC;
    }

    /** The per-call part of sob_seq: find the lowest 0-bit of the counter
        and XOR the direction numbers it selects into the accumulators. */
    method Advance()
      requires Valid() && initialized && index < LIMIT - 1
      modifies this
      ensures Valid() && initialized
      ensures index == old(index) + 1
    {
      AccumulateStep(iv, 1, index);
      AccumulateStep(iv, 2, index);
      var j := LowestZero(index);
      var im: nat := (j - 1) * 2;
      ix1 := Xor(ix1, iv[im + 1]);
      ix2 := Xor(ix2, iv[im + 2]);
      index := index + 1;
    }
  }

  /** An accumulator below 2^MAXBIT scales into [0, 1). */
  lemma ScaledBelowOne(v: nat)
    requires v < LIMIT
    ensures 0.0 <= v as real * FAC < 1.0
  {
  }

  /** The point (x, y) that call number n of sob_seq returns: both
      accumulators after n calls, scaled by fac; it lies in [0, 1)^2. */
  function Point(n: nat): (r: (real, real))
    requires n < LIMIT
    ensures 0.0 <= r.0 < 1.0 && 0.0 <= r.1 < 1.0
  {
    AccumulateBelow(Directions(1), n);
    AccumulateBelow(Directions(2), n);
    ScaledBelowOne(Accumulate(Directions(1), n));
    ScaledBelowOne(Accumulate(Directions(2), n));
    (Accumulate(Directions(1), n) as real * FAC, Accumulate(Directions(2), n) as real * FAC)
  }
}
