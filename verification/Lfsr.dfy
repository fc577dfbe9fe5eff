/** The pseudo-random generator of the disk checker: a 32-bit Galois LFSR.

    The register is a vector over GF(2) and one step is a linear map on it.  Everything the disk
    checker relies on follows from three facts about that map: it is linear, it has no nonzero
    fixed point, and 32 consecutive low bits determine the register. */
module Lfsr {
  import opened Powers

  const TAPS: bv32 := 0x80200003

  /** Addition of vectors over GF(2). */
  function Xor(x: bv32, y: bv32): bv32 { x ^ y }

  function Half(x: bv32): bv32 { x >> 1 }

  predicate Odd(x: bv32) { x & 1 != 0 }

  /** One call `pn(0)`. */
  function Step(x: bv32): bv32 {
    if Odd(x) then Xor(Half(x), TAPS) else Half(x)
  }

  function Steps(x: bv32, n: nat): bv32
    decreases n
  {
    if n == 0 then x else Steps(Step(x), n - 1)
  }

  /** The truncation `(BYTE)`. */
  function LowByte(x: bv32): bv8 {
    (x & 0xFF) as bv8
  }

  /** The register left by `pn(pns)`: a nonzero `pns` reseeds and clocks 33 times, zero clocks once. */
  function Seeded(reg: bv32, pns: bv32): bv32 {
    if pns != 0 then Steps(pns, 33) else Step(reg)
  }

  /** The `n` bytes obtained by `n` calls `(BYTE)pn(0)` from register `reg`. */
  function Bytes(reg: bv32, n: nat): (r: seq<bv8>)
    ensures |r| == n
    decreases n
  {
    if n == 0 then [] else [LowByte(Step(reg))] + Bytes(Step(reg), n - 1)
  }

  lemma BytesEmpty(x: bv32)
    ensures Bytes(x, 0) == [] && Steps(x, 0) == x
  {
  }

  lemma OneByte(x: bv32)
    ensures Bytes(x, 1) == [LowByte(Step(x))]
    ensures Steps(x, 1) == Step(x)
  {
    hide LowByte, Step;
    assert Bytes(Step(x), 0) == [] && Steps(Step(x), 0) == Step(x);
  }

  // ---------------------------------------------------------------- linearity

  lemma XorZero(x: bv32, y: bv32)
    ensures Xor(x, y) == 0 <==> x == y
  {
    XorSelf(x, y);
    XorNothing(y);
    if Xor(x, y) == 0 {
      hide Xor;
      assert Xor(0, y) == x;
    }
  }

  lemma XorNothing(y: bv32)
    ensures Xor(0, y) == y && Xor(y, y) == 0
  {
  }

  lemma HalfLinear(x: bv32, y: bv32)
    ensures Half(Xor(x, y)) == Xor(Half(x), Half(y))
    ensures Odd(Xor(x, y)) <==> Odd(x) != Odd(y)
  {
  }

  lemma XorAssoc(a: bv32, b: bv32, c: bv32)
    ensures Xor(Xor(a, b), c) == Xor(a, Xor(b, c))
  {
    assert (a ^ b) ^ c == a ^ (b ^ c);
  }

  lemma XorComm(a: bv32, b: bv32)
    ensures Xor(a, b) == Xor(b, a)
  {
  }

  lemma XorSelf(a: bv32, b: bv32)
    ensures Xor(Xor(a, b), b) == a
  {
    assert (a ^ b) ^ b == a;
  }

  /** A summand on one side moves out of the sum; a summand on both sides cancels. */
  lemma XorMoves(a: bv32, b: bv32, t: bv32)
    ensures Xor(Xor(a, t), b) == Xor(a, Xor(b, t)) == Xor(Xor(a, b), t)
    ensures Xor(Xor(a, t), Xor(t, b)) == Xor(Xor(a, t), Xor(b, t)) == Xor(a, b)
  {
    hide Xor;
    XorAssoc(a, b, t);
    XorAssoc(a, t, b);
    XorComm(b, t);
    XorAssoc(Xor(a, t), t, b);
    XorSelf(a, t);
  }

  lemma StepLinear(x: bv32, y: bv32)
    ensures Step(Xor(x, y)) == Xor(Step(x), Step(y))
  {
    hide Xor, Half, Odd;
    HalfLinear(x, y);
    XorMoves(Half(x), Half(y), TAPS);
  }

  lemma {:induction false} StepsLinear(x: bv32, y: bv32, n: nat)
    ensures Steps(Xor(x, y), n) == Xor(Steps(x, n), Steps(y, n))
    decreases n
  {
    hide Xor, Step;
    if n != 0 {
      StepLinear(x, y);
      StepsLinear(Step(x), Step(y), n - 1);
    }
  }

  lemma {:induction false} StepsAdd(x: bv32, m: nat, n: nat)
    ensures Steps(x, m + n) == Steps(Steps(x, m), n)
    decreases m
  {
    if m != 0 {
      StepsAdd(Step(x), m - 1, n);
    }
  }

  /** The step is a bijection: the top tap shows which branch was taken. */
  lemma StepInjective(x: bv32, y: bv32)
    requires Step(x) == Step(y)
    ensures x == y
  {
  }

  lemma {:induction false} StepsInjective(x: bv32, y: bv32, n: nat)
    requires Steps(x, n) == Steps(y, n)
    ensures x == y
    decreases n
  {
    if n != 0 {
      StepsInjective(Step(x), Step(y), n - 1);
      StepInjective(x, y);
    }
  }

  lemma {:induction false} StepsZero(n: nat)
    ensures Steps(0, n) == 0
  {
    if n != 0 {
      StepsZero(n - 1);
    }
  }

  /** A nonzero register never dies out. */
  lemma StepsNonzero(x: bv32, n: nat)
    requires x != 0
    ensures Steps(x, n) != 0
  {
    if Steps(x, n) == 0 {
      StepsZero(n);
      StepsInjective(x, 0, n);
    }
  }

  // ---------------------------------------------------------------- observability

  /** The next `n` registers, starting with `x` itself, all have a clear low bit. */
  predicate Quiet(x: bv32, n: nat)
    decreases n
  {
    n == 0 || (!Odd(x) && Quiet(Step(x), n - 1))
  }

  lemma FourSteps(x: bv32)
    ensures Steps(x, 4) == Step(Step(Step(Step(x))))
  {
    assert Steps(x, 4) == Steps(Step(x), 3) == Steps(Step(Step(x)), 2);
  }

  lemma QuietStep(x: bv32, n: nat)
    requires Quiet(x, n + 1)
    ensures !Odd(x) && Step(x) == Half(x) && Quiet(Half(x), n)
  {
    hide Odd, Half, Xor;
  }

  lemma QuietFour(x: bv32, n: nat)
    requires Quiet(x, n + 4)
    ensures Quiet(x >> 4, n) && Steps(x, 4) == x >> 4 && x & 0xF == 0
  {
    var a := Half(x);
    var b := Half(a);
    var c := Half(b);
    var d := Half(c);
    assert !Odd(x) && !Odd(a) && !Odd(b) && !Odd(c) && Quiet(d, n) && Steps(x, 4) == d by {
      hide Odd, Half, Xor;
      QuietStep(x, n + 3);
      QuietStep(a, n + 2);
      QuietStep(b, n + 1);
      QuietStep(c, n);
      FourSteps(x);
    }
    FourClear(x);
  }

  lemma FourClear(x: bv32)
    requires !Odd(x) && !Odd(Half(x)) && !Odd(Half(Half(x))) && !Odd(Half(Half(Half(x))))
    ensures Half(Half(Half(Half(x)))) == x >> 4 && x & 0xF == 0
  {
  }

  lemma QuietIsZero(x: bv32)
    requires Quiet(x, 32)
    ensures x == 0
  {
    var x1 := x >> 4;
    var x2 := x1 >> 4;
    var x3 := x2 >> 4;
    var x4 := x3 >> 4;
    var x5 := x4 >> 4;
    var x6 := x5 >> 4;
    var x7 := x6 >> 4;
    QuietFour(x, 28);
    QuietFour(x1, 24);
    QuietFour(x2, 20);
    QuietFour(x3, 16);
    QuietFour(x4, 12);
    QuietFour(x5, 8);
    QuietFour(x6, 4);
    QuietFour(x7, 0);
  }

  lemma {:induction false} EqualBytesQuiet(x: bv32, y: bv32, n: nat)
    requires Bytes(x, n) == Bytes(y, n)
    ensures Quiet(Xor(Step(x), Step(y)), n)
    decreases n
  {
    hide Xor, Step, Odd, LowByte;
    if n != 0 {
      var x', y' := Step(x), Step(y);
      assert Bytes(x, n)[0] == Bytes(y, n)[0];
      assert Bytes(x, n)[1..] == Bytes(x', n - 1);
      assert Bytes(y, n)[1..] == Bytes(y', n - 1);
      EqualBytesQuiet(x', y', n - 1);
      StepLinear(x', y');
      LowByteParity(x', y');
    }
  }

  lemma LowByteParity(x: bv32, y: bv32)
    requires LowByte(x) == LowByte(y)
    ensures !Odd(Xor(x, y))
  {
  }

  /** 32 consecutive output bytes determine the register. */
  lemma Observable(x: bv32, y: bv32)
    requires Bytes(x, 32) == Bytes(y, 32)
    ensures x == y
  {
    hide Xor, Step;
    EqualBytesQuiet(x, y, 32);
    QuietIsZero(Xor(Step(x), Step(y)));
    XorZero(Step(x), Step(y));
    StepInjective(x, y);
  }

  // ---------------------------------------------------------------- no power-of-two period

  /** The map `Step + I`. */
  function Diff(x: bv32): bv32 {
    Xor(Step(x), x)
  }

  function Diffs(x: bv32, n: nat): bv32
    decreases n
  {
    if n == 0 then x else Diffs(Diff(x), n - 1)
  }

  lemma {:induction false} DiffsAdd(x: bv32, m: nat, n: nat)
    ensures Diffs(x, m + n) == Diffs(Diffs(x, m), n)
    decreases m
  {
    if m != 0 {
      DiffsAdd(Diff(x), m - 1, n);
    }
  }

  lemma DiffNonzero(x: bv32)
    requires Diff(x) == 0
    ensures x == 0
  {
  }

  lemma {:induction false} DiffsNonzero(x: bv32, n: nat)
    requires x != 0
    ensures Diffs(x, n) != 0
    decreases n
  {
    if n != 0 {
      if Diff(x) == 0 { DiffNonzero(x); }
      DiffsNonzero(Diff(x), n - 1);
    }
  }

  /** In characteristic two, raising `Step + I` to a power `2^k` gives `Step^(2^k) + I`. */
  lemma {:induction false} Frobenius(x: bv32, k: nat)
    ensures Diffs(x, Pow2(k)) == Xor(Steps(x, Pow2(k)), x)
    decreases k
  {
    hide Xor, Step;
    if k == 0 {
      assert Steps(x, 1) == Steps(Step(x), 0);
      assert Diffs(x, 1) == Diffs(Diff(x), 0);
    } else {
      var m := Pow2(k - 1);
      var s := Steps(x, m);
      Frobenius(x, k - 1);
      Frobenius(Xor(s, x), k - 1);
      DiffsAdd(x, m, m);
      StepsAdd(x, m, m);
      StepsLinear(s, x, m);
      XorMoves(Steps(s, m), x, s);
    }
  }

  /** No nonzero register returns to itself after a power-of-two number of steps. */
  lemma NoPow2Period(x: bv32, k: nat)
    requires x != 0
    ensures Steps(x, Pow2(k)) != x
  {
    hide Xor, Step;
    Frobenius(x, k);
    DiffsNonzero(x, Pow2(k));
    XorZero(Steps(x, Pow2(k)), x);
  }

  // ---------------------------------------------------------------- sector patterns

  /** Byte `n` of an output is the low byte of the register after `n + 1` steps. */
  lemma {:induction false} ByteAt(x: bv32, len: nat, n: nat)
    requires n < len
    ensures Bytes(x, len)[n] == LowByte(Step(Steps(x, n)))
    decreases n
  {
    hide LowByte, Step;
    if n != 0 {
      ByteAt(Step(x), len - 1, n - 1);
    }
  }

  /** Extending an output by one byte. */
  lemma NextByte(x: bv32, n: nat)
    ensures Bytes(x, n + 1) == Bytes(x, n) + [LowByte(Step(Steps(x, n)))]
    ensures Steps(x, n + 1) == Step(Steps(x, n))
  {
    hide LowByte, Step;
    StepsAdd(x, n, 1);
    BytesAdd(x, n, 1);
    OneByte(Steps(x, n));
  }

  lemma {:induction false} BytesAdd(x: bv32, m: nat, n: nat)
    ensures Bytes(x, m + n) == Bytes(x, m) + Bytes(Steps(x, m), n)
    decreases m
  {
    if m != 0 {
      BytesAdd(Step(x), m - 1, n);
    }
  }

  /** The data the checker writes for a nonzero seed, from byte `from` on. */
  function Pattern(seed: bv32, from: nat, n: nat): (r: seq<bv8>)
    ensures |r| == n
  {
    Bytes(Steps(Seeded(0, seed), from), n)
  }

  /** The first 32 bytes of a longer output already determine the register. */
  lemma PrefixDetermines(x: bv32, y: bv32, n: nat)
    requires n >= 32
    requires Bytes(x, n)[..32] == Bytes(y, n)[..32]
    ensures x == y
  {
    hide Step;
    BytesAdd(x, 32, n - 32);
    BytesAdd(y, 32, n - 32);
    Observable(x, y);
  }

  /** Two different nonzero seeds give data that differ within the first 32 bytes. */
  lemma SeedsDiffer(s: bv32, t: bv32, from: nat, n: nat)
    requires s != 0 && t != 0 && s != t
    requires n >= 32
    ensures Pattern(s, from, n)[..32] != Pattern(t, from, n)[..32]
  {
    hide Step;
    if Pattern(s, from, n)[..32] == Pattern(t, from, n)[..32] {
      PrefixDetermines(Steps(Steps(s, 33), from), Steps(Steps(t, 33), from), n);
      StepsInjective(Steps(s, 33), Steps(t, 33), from);
      StepsInjective(s, t, 33);
    }
  }

  /** Two adjacent sectors of one pattern differ within their first 32 bytes when the sector size
      is a power of two. */
  lemma AdjacentSectorsDiffer(seed: bv32, k: nat)
    requires seed != 0 && Pow2(k) >= 32
    ensures var sz := Pow2(k);
            Pattern(seed, 0, sz)[..32] != Pattern(seed, sz, sz)[..32]
  {
    hide Step;
    var sz := Pow2(k);
    var x := Steps(seed, 33);
    if Pattern(seed, 0, sz)[..32] == Pattern(seed, sz, sz)[..32] {
      PrefixDetermines(x, Steps(x, sz), sz);
      StepsNonzero(seed, 33);
      NoPow2Period(x, k);
    }
  }
}
