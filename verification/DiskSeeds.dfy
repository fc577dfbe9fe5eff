/** The 32-bit seed counter of the disk checker: four seeds a cycle, starting from 1. */
module DiskSeeds {
  import opened Powers
  import opened Lfsr
  import opened DiskProtocol

  /** The number in the lowest `n` bits of a word. */
  function Val(b: bv32, n: nat): nat
    decreases n
  {
    if n == 0 then 0 else 2 * Val(Half(b), n - 1) + if Odd(b) then 1 else 0
  }

  lemma Successor(b: bv32)
    ensures Odd(Inc(b)) <==> !Odd(b)
    ensures !Odd(b) ==> Half(Inc(b)) == Half(b)
    ensures Odd(b) && b != 0xFFFF_FFFF ==> Half(Inc(b)) == Inc(Half(b))
    ensures Half(b) != 0xFFFF_FFFF
  {
  }

  lemma {:induction false} ValSuccessor(b: bv32, n: nat)
    requires b != 0xFFFF_FFFF && Val(b, n) + 1 < Pow2(n)
    ensures Val(Inc(b), n) == Val(b, n) + 1
    decreases n
  {
    hide Odd, Half, Inc;
    Successor(b);
    if n != 0 && Odd(b) {
      ValSuccessor(Half(b), n - 1);
    }
  }

  lemma {:induction false} ValZero(n: nat)
    ensures Val(0, n) == 0
    decreases n
  {
    if n != 0 {
      ValZero(n - 1);
    }
  }

  lemma FourOdd(b: bv32)
    requires b & 0xF == 0xF
    ensures Odd(b) && Odd(Half(b)) && Odd(Half(Half(b))) && Odd(Half(Half(Half(b))))
    ensures Half(Half(Half(Half(b)))) == b >> 4
  {
  }

  lemma OnesFour(b: bv32, c: bv32, n: nat)
    requires b & 0xF == 0xF && b >> 4 == c && Val(c, n) + 1 == Pow2(n)
    ensures Val(b, n + 4) + 1 == Pow2(n + 4) == 16 * Pow2(n)
  {
    FourOdd(b);
    hide Odd, Half;
    var b1 := Half(b);
    var b2 := Half(b1);
    var b3 := Half(b2);
    assert Val(b3, n + 1) == 2 * Val(c, n) + 1;
    assert Val(b2, n + 2) == 2 * Val(b3, n + 1) + 1;
    assert Val(b1, n + 3) == 2 * Val(b2, n + 2) + 1;
    assert Pow2(n + 3) == 4 * Pow2(n + 1);
  }

  lemma OnesEight(b: bv32, c: bv32, n: nat)
    requires b & 0xFF == 0xFF && b >> 8 == c && Val(c, n) + 1 == Pow2(n)
    ensures Val(b, n + 8) + 1 == Pow2(n + 8) == 256 * Pow2(n)
  {
    hide Odd, Half, Val, Pow2;
    var d := b >> 4;
    assert d & 0xF == 0xF && d >> 4 == c && b & 0xF == 0xF;
    OnesFour(d, c, n);
    OnesFour(b, d, n + 4);
  }

  lemma SmallestWord()
    ensures Val(0, 0) == 0 && Pow2(0) == 1
  {
  }

  lemma LargestHalf()
    ensures Val(0xFFFF, 16) + 1 == Pow2(16) == 0x1_0000
  {
    hide Odd, Half, Val, Pow2;
    SmallestWord();
    OnesEight(0xFF, 0, 0);
    OnesEight(0xFFFF, 0xFF, 8);
  }

  lemma LargestWord()
    ensures Val(0xFFFF_FFFF, 32) + 1 == Pow2(32) == 0x1_0000_0000
  {
    hide Odd, Half, Val, Pow2;
    LargestHalf();
    OnesEight(0xFF_FFFF, 0xFFFF, 16);
    OnesEight(0xFFFF_FFFF, 0xFF_FFFF, 24);
  }

  /** Counting on from a word below the largest one. */
  lemma Increment(b: bv32)
    requires Val(b, 32) < 0xFFFF_FFFF
    ensures Val(Inc(b), 32) == Val(b, 32) + 1 && Inc(b) != 0
  {
    hide Odd, Half, Inc;
    LargestWord();
    ValSuccessor(b, 32);
    ValZero(32);
  }

  lemma SeedUnfolds(s: bv32)
    ensures Seed(s, 1) == Inc(s)
    ensures Seed(s, 2) == Inc(Inc(s))
    ensures Seed(s, 3) == Inc(Inc(Inc(s)))
    ensures Seed(s, 4) == Inc(Inc(Inc(Inc(s))))
  {
    hide Inc;
    assert Seed(s, 4) == Seed(Inc(Inc(s)), 2);
  }

  /** Seeds `s .. s + 3` count as they should as long as they fit. */
  lemma FourSeeds(s: bv32)
    requires Val(s, 32) + 3 <= 0xFFFF_FFFF && s != 0
    ensures Seed(s, 1) != 0 && Seed(s, 2) != 0 && Seed(s, 3) != 0
    ensures Val(s, 32) + 4 <= 0xFFFF_FFFF ==> Val(Seed(s, 4), 32) == Val(s, 32) + 4 && Seed(s, 4) != 0
  {
    SeedUnfolds(s);
    hide Odd, Half, Inc, Val, Seed;
    Increment(s);
    Increment(Inc(s));
    Increment(Inc(Inc(s)));
    if Val(s, 32) + 4 <= 0xFFFF_FFFF { Increment(Inc(Inc(Inc(s)))); }
  }

  /** Without the barrier test the seeds used are never multiples of four, so they never are zero,
      however often the counter wraps. */
  predicate OddCycle(s: bv32) { s & 3 == 1 }

  lemma OddCycleIncrements(s: bv32)
    requires OddCycle(s)
    ensures s != 0 && Inc(s) != 0 && Inc(Inc(s)) != 0
  {
  }

  lemma OddCycleNext(s: bv32)
    requires OddCycle(s)
    ensures OddCycle(Inc(Inc(Inc(Inc(s)))))
  {
  }

  lemma OddCycleSeeds(s: bv32)
    requires OddCycle(s)
    ensures s != 0 && Seed(s, 1) != 0 && Seed(s, 2) != 0 && OddCycle(Seed(s, 4))
  {
    SeedUnfolds(s);
    OddCycleIncrements(s);
    OddCycleNext(s);
    hide Inc, OddCycle, Seed;
  }

  // ---------------------------------------------------------------- the cycle that comes to seed zero

  lemma WordFromBits(b: bv32, c: bv32)
    requires Half(b) == Half(c) && Odd(b) == Odd(c)
    ensures b == c
  {
  }

  /** A word shifted right `n` places. */
  function Halved(b: bv32, n: nat): bv32
    decreases n
  {
    if n == 0 then b else Halved(Half(b), n - 1)
  }

  /** Four places at a time. */
  function Shift(b: bv32): bv32 { b >> 4 }

  function Shifted(b: bv32, k: nat): bv32
    decreases k
  {
    if k == 0 then b else Shifted(Shift(b), k - 1)
  }

  lemma ShiftIsHalves(b: bv32)
    ensures Half(Half(Half(Half(b)))) == Shift(b)
  {
  }

  lemma FourHalves(b: bv32, n: nat)
    ensures Halved(b, n + 4) == Halved(Shift(b), n)
  {
    ShiftIsHalves(b);
    hide Half, Shift;
    var b2 := Half(Half(b));
    assert Halved(b, n + 4) == Halved(Half(b), n + 3) == Halved(b2, n + 2);
    assert Halved(b2, n + 2) == Halved(Half(b2), n + 1) == Halved(Half(Half(b2)), n);
  }

  lemma {:induction false} HalvedByFours(b: bv32, k: nat)
    ensures Halved(b, 4 * k) == Shifted(b, k)
    decreases k
  {
    hide Half, Shift;
    if k != 0 {
      FourHalves(b, 4 * (k - 1));
      HalvedByFours(Shift(b), k - 1);
    }
  }

  lemma EightShifts(b: bv32)
    ensures Shift(Shift(Shift(Shift(Shift(Shift(Shift(Shift(b)))))))) == 0
  {
  }

  lemma HalvedAway(b: bv32)
    ensures Halved(b, 32) == 0
  {
    HalvedByFours(b, 8);
    EightShifts(b);
    hide Halved, Shift;
    assert Shifted(b, 8) == Shifted(Shift(Shift(b)), 6) == Shifted(Shift(Shift(Shift(Shift(b)))), 4);
  }

  /** Words with the same number are the same word. */
  lemma {:induction false} ValInjective(b: bv32, c: bv32, n: nat)
    requires Val(b, n) == Val(c, n) && Halved(b, n) == Halved(c, n)
    ensures b == c
    decreases n
  {
    hide Half, Odd;
    if n != 0 {
      ValInjective(Half(b), Half(c), n - 1);
      WordFromBits(b, c);
    }
  }

  lemma LargestIsUnique(b: bv32)
    requires Val(b, 32) == 0xFFFF_FFFF
    ensures b == 0xFFFF_FFFF
  {
    hide Half, Odd, Val, Halved;
    LargestWord();
    HalvedAway(b);
    HalvedAway(0xFFFF_FFFF);
    ValInjective(b, 0xFFFF_FFFF, 32);
  }

  /** The first seed of the cycle that comes to seed zero. */
  const LAST: bv32 := 0xFFFF_FFFD

  lemma LastSeeds()
    ensures Seed(LAST, 1) == 0xFFFF_FFFE && Seed(LAST, 2) == 0xFFFF_FFFF && Seed(LAST, 3) == 0 && Seed(LAST, 4) == 1
  {
    SeedUnfolds(LAST);
    hide Seed;
  }

  lemma LastIsUnique(s: bv32)
    requires Val(s, 32) == 0xFFFF_FFFD
    ensures s == LAST
  {
    hide Half, Odd, Val, Inc;
    Increment(s);
    Increment(Inc(s));
    LargestIsUnique(Inc(Inc(s)));
    IncTwice(s);
  }

  lemma IncTwice(s: bv32)
    ensures Inc(Inc(s)) == 0xFFFF_FFFF ==> s == LAST
  {
  }

  lemma BeforeLast(s: bv32)
    ensures Seed(s, 4) == LAST ==> Seed(s, 3) == 0xFFFF_FFFC
  {
    SeedUnfolds(s);
    IncOnce(Inc(Inc(Inc(s))));
    hide Inc, Seed;
  }

  lemma IncOnce(s: bv32)
    ensures Inc(s) == LAST ==> s == 0xFFFF_FFFC
  {
  }

  /** A seed that a cycle can start with when the counter has not wrapped. */
  predicate Starts(s: bv32) {
    Val(s, 32) % 4 == 1 && Val(s, 32) <= 0xFFFF_FFFD
  }

  /** Cycles that complete before the one with seed zero. */
  function Remaining(s: bv32): nat
    requires Starts(s)
  {
    (0xFFFF_FFFD - Val(s, 32)) / 4
  }

  lemma FirstStarts()
    ensures Starts(1) && Remaining(1) == 0x3FFF_FFFF
  {
    assert Half(1) == 0 && Odd(1);
    ValZero(31);
    hide Half, Odd;
  }

  lemma NextStarts(s: bv32)
    requires Starts(s)
    ensures Remaining(s) == 0 ==> s == LAST
    ensures Remaining(s) > 0 ==>
              s != 0 && Seed(s, 1) != 0 && Seed(s, 2) != 0 && Seed(s, 3) != 0 &&
              Starts(Seed(s, 4)) && Remaining(Seed(s, 4)) == Remaining(s) - 1
  {
    hide Half, Odd, Seed, Val;
    ValZero(32);
    if Remaining(s) == 0 { LastIsUnique(s); } else { FourSeeds(s); }
  }
}
