/** Divisibility, as far as the period of the generator needs it. */
module Divisors {
  ghost predicate Divides(g: nat, a: nat) {
    exists k: nat :: a == k * g
  }

  lemma Multiple(k: nat, g: nat)
    ensures Divides(g, k * g)
  {
  }

  predicate Prime(p: nat) {
    p > 1 && forall k :: 1 < k < p ==> p % k != 0
  }

  /** A greatest common divisor as a combination of both numbers. */
  lemma {:induction false} Combination(a: nat, b: nat) returns (g: nat, u: int, v: int)
    requires a > 0
    ensures g > 0 && Divides(g, a) && Divides(g, b) && g == u * a + v * b
    decreases b
  {
    if b == 0 {
      g, u, v := a, 1, 0;
      Multiple(1, a);
      Multiple(0, a);
    } else {
      var q, r := a / b, a % b;
      var s, t;
      g, s, t := Combination(b, r);
      u, v := t, s - q * t;
      Combine(a, b, g, q, r, s, t);
    }
  }

  lemma Combine(a: nat, b: nat, g: nat, q: nat, r: nat, s: int, t: int)
    requires a == q * b + r && Divides(g, b) && Divides(g, r) && g == s * b + t * r
    ensures Divides(g, a) && g == t * a + (s - q * t) * b
  {
    MultipleOfSum(q, b, r, g);
    Distribute'(t, q * b, r);
    Associate(t, q, b);
    Distribute(s, -(q * t), b);
  }

  lemma MultipleOfSum(q: nat, b: nat, r: nat, g: nat)
    requires Divides(g, b) && Divides(g, r)
    ensures Divides(g, q * b + r)
  {
    var i: nat :| b == i * g;
    var j: nat :| r == j * g;
    Associate(q, i, g);
    Distribute(q * i, j, g);
    Multiple(q * i + j, g);
  }

  lemma Associate(x: int, y: int, z: int)
    ensures (x * y) * z == x * (y * z) == y * (x * z)
  {
  }

  lemma Distribute(x: int, y: int, z: int)
    ensures (x + y) * z == x * z + y * z && (-x) * z == -(x * z)
  {
  }

  lemma Distribute'(z: int, x: int, y: int)
    ensures z * (x + y) == z * x + z * y
  {
  }

  /** A prime that divides a product divides one of the factors. */
  lemma PrimeDivides(p: nat, a: nat, b: nat)
    requires Prime(p) && a > 0 && Divides(p, a * b)
    ensures Divides(p, a) || Divides(p, b)
  {
    var g, u, v := Combination(p, a);
    var k: nat :| a * b == k * p;
    if g == 1 {
      Quotient(p, a, b, u, v, k);
    } else {
      var i: nat :| p == i * g;
      DivisorOfPrime(p, g, i);
    }
  }

  lemma Quotient(p: nat, a: nat, b: nat, u: int, v: int, k: nat)
    requires p > 0 && 1 == u * p + v * a && a * b == k * p
    ensures Divides(p, b)
  {
    var m := u * b + v * k;
    calc {
      m * p;
      (u * b) * p + (v * k) * p;
      { assert (u * b) * p == (u * p) * b; assert (v * k) * p == v * (k * p); assert v * (a * b) == (v * a) * b; }
      (u * p) * b + (v * a) * b;
      (u * p + v * a) * b;
      b;
    }
    Sign(m, p, b);
  }

  lemma Sign(m: int, p: nat, b: nat)
    requires p > 0 && m * p == b
    ensures m >= 0
  {
  }

  lemma DivisorOfPrime(p: nat, g: nat, i: nat)
    requires Prime(p) && g > 1 && p == i * g
    ensures g == p
  {
    Remainder(i, g);
    if i >= 2 { Below(1, i, g, 0); }
  }

  lemma Remainder(i: nat, g: nat)
    requires g > 0
    ensures (i * g) % g == 0
  {
    var q, r := (i * g) / g, (i * g) % g;
    assert i * g == q * g + r;
    if q < i { Below(q, i, g, r); }
    if i < q { Below(i, q, g, 0); }
  }

  lemma Below(x: nat, y: nat, g: nat, r: nat)
    requires x < y && r < g
    ensures x * g + r < y * g
  {
    assert (x + 1) * g <= y * g;
  }

  // ---------------------------------------------------------------- the primes needed

  /** A divisor beyond the square root has a cofactor below it, so trial division decides. */
  lemma Trial(p: nat, end: nat)
    requires p > 1 && end > 1 && p < end * end && forall j :: 2 <= j < end ==> p % j != 0
    ensures Prime(p)
  {
    forall k | 1 < k < p ensures p % k != 0 {
      if p % k == 0 { Cofactor(p, k, end); }
    }
  }

  lemma Cofactor(p: nat, k: nat, end: nat)
    requires 1 < k < p && p < end * end && p % k == 0
    ensures exists j :: 2 <= j < end && p % j == 0
  {
    var i := p / k;
    assert p == i * k;
    SmallProduct(i, k);
    Remainder(k, i);
    if k >= end && i >= end { Square(i, k, end); }
  }

  lemma SmallProduct(i: nat, k: nat)
    requires i * k > k
    ensures i > 1
  {
    if i <= 1 { Below(i, 2, k + 1, 0); }
  }

  lemma Square(i: nat, k: nat, end: nat)
    requires i >= end && k >= end
    ensures i * k >= end * end
  {
    assert i * k >= end * k;
  }

  /** Sixteen numbers in a row that do not divide `p`. */
  predicate Clear(p: nat, k: nat)
    requires k > 0
  {
    p % k != 0 && p % (k + 1) != 0 && p % (k + 2) != 0 && p % (k + 3) != 0 &&
    p % (k + 4) != 0 && p % (k + 5) != 0 && p % (k + 6) != 0 && p % (k + 7) != 0 &&
    p % (k + 8) != 0 && p % (k + 9) != 0 && p % (k + 10) != 0 && p % (k + 11) != 0 &&
    p % (k + 12) != 0 && p % (k + 13) != 0 && p % (k + 14) != 0 && p % (k + 15) != 0
  }

  lemma ClearAt(p: nat, k: nat, j: nat)
    requires k > 0 && Clear(p, k) && k <= j < k + 16
    ensures p % j != 0
  {
    var i := j - k;
    assert i == 0 || i == 1 || i == 2 || i == 3 || i == 4 || i == 5 || i == 6 || i == 7 ||
           i == 8 || i == 9 || i == 10 || i == 11 || i == 12 || i == 13 || i == 14 || i == 15;
  }

  lemma ClearBlocks(b: nat)
    requires b < 16
    ensures Clear(65537, 16 * b + 2)
  {
    hide Clear;
    ClearBelow130();
    ClearAbove130();
    assert b == 0 || b == 1 || b == 2 || b == 3 || b == 4 || b == 5 || b == 6 || b == 7 ||
           b == 8 || b == 9 || b == 10 || b == 11 || b == 12 || b == 13 || b == 14 || b == 15;
  }

  lemma ClearBelow130()
    ensures Clear(65537, 2) && Clear(65537, 18) && Clear(65537, 34) && Clear(65537, 50)
    ensures Clear(65537, 66) && Clear(65537, 82) && Clear(65537, 98) && Clear(65537, 114)
  {
  }

  lemma ClearAbove130()
    ensures Clear(65537, 130) && Clear(65537, 146) && Clear(65537, 162) && Clear(65537, 178)
    ensures Clear(65537, 194) && Clear(65537, 210) && Clear(65537, 226) && Clear(65537, 242)
  {
  }

  lemma Primes()
    ensures Prime(3) && Prime(5) && Prime(17) && Prime(257) && Prime(65537)
  {
    Trial(17, 5);
    assert Clear(257, 2);
    Trial(257, 17);
    forall j | 2 <= j < 258 ensures 65537 % j != 0 {
      ClearBlocks((j - 2) / 16);
      ClearAt(65537, 16 * ((j - 2) / 16) + 2, j);
    }
    Trial(65537, 258);
  }
}

/** The generator has the largest period a 32-bit register can have: from every nonzero register it runs through
    all 2^32 - 1 nonzero words. */
module LfsrPeriod {
  import opened Lfsr
  import opened Divisors

  // ---------------------------------------------------------------- words as polynomials in the step

  /** The word whose orbit is followed; the words are the polynomials in the step applied to it. */
  const ONE: bv32 := 0x8000_0000

  function Twice(a: bv32): bv32 { a << 1 }

  predicate Top(a: bv32) { a & 0x8000_0000 != 0 }

  function Pick(a: bv32, x: bv32): bv32 {
    if Top(a) then x else 0
  }

  /** The sum of `Steps(x, i)` over the first `n` bits of `a`, from the top, that are set. */
  function Sum(a: bv32, x: bv32, n: nat): bv32
    decreases n
  {
    if n == 0 then 0 else Xor(Pick(a, x), Sum(Twice(a), Step(x), n - 1))
  }

  /** The polynomial `a` applied to `x`. */
  function Times(a: bv32, x: bv32): bv32 {
    Sum(a, x, 32)
  }

  lemma StepZero()
    ensures Step(0) == 0
  {
  }

  lemma XorIdentity(x: bv32)
    ensures Xor(x, 0) == x && Xor(0, x) == x && Xor(x, x) == 0
  {
  }

  lemma PickLinear(a: bv32, x: bv32, y: bv32)
    ensures Pick(a, Xor(x, y)) == Xor(Pick(a, x), Pick(a, y))
    ensures Step(Pick(a, x)) == Pick(a, Step(x))
  {
    hide Xor, Step, Top;
    XorIdentity(0);
    StepZero();
  }

  lemma XorExchange(a: bv32, b: bv32, c: bv32, d: bv32)
    ensures Xor(Xor(a, b), Xor(c, d)) == Xor(Xor(a, c), Xor(b, d))
  {
    hide Xor;
    XorMoves(a, Xor(c, d), b);
    XorAssoc(c, d, b);
    XorComm(d, b);
    XorAssoc(a, c, Xor(b, d));
  }

  lemma {:induction false} SumStep(a: bv32, x: bv32, n: nat)
    ensures Sum(a, Step(x), n) == Step(Sum(a, x, n))
    decreases n
  {
    hide Xor, Step, Pick, Twice;
    if n == 0 {
      StepZero();
    } else {
      SumStep(Twice(a), Step(x), n - 1);
      PickLinear(a, x, x);
      StepLinear(Pick(a, x), Sum(Twice(a), Step(x), n - 1));
    }
  }

  lemma {:induction false} SumXor(a: bv32, x: bv32, y: bv32, n: nat)
    ensures Sum(a, Xor(x, y), n) == Xor(Sum(a, x, n), Sum(a, y, n))
    decreases n
  {
    hide Xor, Step, Pick, Twice;
    if n == 0 {
      XorIdentity(0);
    } else {
      StepLinear(x, y);
      SumXor(Twice(a), Step(x), Step(y), n - 1);
      PickLinear(a, x, y);
      XorExchange(Pick(a, x), Pick(a, y), Sum(Twice(a), Step(x), n - 1), Sum(Twice(a), Step(y), n - 1));
    }
  }

  lemma {:induction false} SumZero(a: bv32, n: nat)
    ensures Sum(a, 0, n) == 0
    decreases n
  {
    hide Xor, Step, Twice;
    if n != 0 {
      StepZero();
      SumZero(Twice(a), n - 1);
      XorIdentity(0);
    }
  }

  lemma SumPick(a: bv32, b: bv32, x: bv32, n: nat)
    ensures Sum(a, Pick(b, x), n) == Pick(b, Sum(a, x, n))
  {
    hide Sum, Top;
    SumZero(a, n);
  }

  /** A polynomial in the step commutes with further steps ... */
  lemma {:induction false} SumSteps(a: bv32, x: bv32, n: nat, m: nat)
    ensures Sum(a, Steps(x, m), n) == Steps(Sum(a, x, n), m)
    decreases m
  {
    hide Sum, Step;
    if m != 0 {
      SumStep(a, x, n);
      SumSteps(a, Step(x), n, m - 1);
    }
  }

  /** ... and with any other polynomial. */
  lemma {:induction false} SumSum(a: bv32, b: bv32, x: bv32, k: nat, n: nat)
    ensures Sum(b, Sum(a, x, k), n) == Sum(a, Sum(b, x, n), k)
    decreases n
  {
    hide Xor, Step, Pick, Twice;
    if n == 0 {
      SumZero(a, k);
    } else {
      SumStep(a, x, k);
      SumSum(Twice(a), b, x, 0, 0);
      SumSum(a, Twice(b), Step(x), k, n - 1);
      SumPick(a, b, x, k);
      SumXor(a, Pick(b, x), Sum(Twice(b), Step(x), n - 1), k);
    }
  }

  // ---------------------------------------------------------------- products written out

  function Two(x: bv32): bv32 { Step(Step(x)) }

  function Four(x: bv32): bv32 { Two(Two(x)) }

  function Sixteen(x: bv32): bv32 { Four(Four(Four(Four(x)))) }

  /** Shifts to the left. */
  function By2(a: bv32): bv32 { a << 2 }
  function By3(a: bv32): bv32 { a << 3 }
  function By4(a: bv32): bv32 { a << 4 }
  function By8(a: bv32): bv32 { a << 8 }
  function By12(a: bv32): bv32 { a << 12 }
  function By16(a: bv32): bv32 { a << 16 }

  function Row(a: bv32, x: bv32): bv32 {
    Xor(Xor(Pick(a, x), Pick(a << 1, Step(x))), Xor(Pick(a << 2, Two(x)), Pick(a << 3, Step(Two(x)))))
  }

  /** Sixteen terms of a sum. */
  function Block(a: bv32, x: bv32): bv32 {
    Xor(Xor(Row(a, x), Row(a << 4, Four(x))), Xor(Row(a << 8, Four(Four(x))), Row(a << 12, Four(Four(Four(x))))))
  }

  /** `Times` without recursion. */
  function Product(a: bv32, x: bv32): bv32 {
    Xor(Block(a, x), Block(a << 16, Sixteen(x)))
  }

  /** The same with the shifts as functions. */
  lemma RowParts(a: bv32, x: bv32)
    ensures Row(a, x) ==
            Xor(Xor(Pick(a, x), Pick(Twice(a), Step(x))), Xor(Pick(By2(a), Two(x)), Pick(By3(a), Step(Two(x)))))
  {
    hide Pick, Xor, Two, Step;
  }

  lemma BlockParts(a: bv32, x: bv32)
    ensures Block(a, x) ==
            Xor(Xor(Row(a, x), Row(By4(a), Four(x))),
                Xor(Row(By8(a), Four(Four(x))), Row(By12(a), Four(Four(Four(x))))))
  {
    hide Row, Xor, Four;
  }

  lemma ProductParts(a: bv32, x: bv32)
    ensures Product(a, x) == Xor(Block(a, x), Block(By16(a), Sixteen(x)))
  {
    hide Block, Xor, Sixteen;
  }

  lemma Shifts(a: bv32)
    ensures Twice(Twice(a)) == By2(a) && Twice(By2(a)) == By3(a) && Twice(By3(a)) == By4(a)
    ensures By4(By4(a)) == By8(a) && By4(By8(a)) == By12(a) && By4(By12(a)) == By16(a)
  {
    Single(a);
    Fourfold(a);
    hide Twice, By2, By3, By4, By8, By12, By16;
  }

  lemma Single(a: bv32)
    ensures Twice(Twice(a)) == By2(a) && Twice(By2(a)) == By3(a) && Twice(By3(a)) == By4(a)
  {
    One(a);
    TwoMore(a);
    Three(a);
    hide Twice, By2, By3, By4;
  }

  lemma One(a: bv32)
    ensures Twice(Twice(a)) == By2(a)
  {
  }

  lemma TwoMore(a: bv32)
    ensures Twice(By2(a)) == By3(a)
  {
  }

  lemma Three(a: bv32)
    ensures Twice(By3(a)) == By4(a)
  {
  }

  lemma Fourfold(a: bv32)
    ensures By4(By4(a)) == By8(a) && By4(By8(a)) == By12(a) && By4(By12(a)) == By16(a)
  {
    Eight(a);
    Twelve(a);
    SixteenPlaces(a);
    hide By4, By8, By12, By16;
  }

  lemma Eight(a: bv32)
    ensures By4(By4(a)) == By8(a)
  {
  }

  lemma Twelve(a: bv32)
    ensures By4(By8(a)) == By12(a)
  {
  }

  lemma SixteenPlaces(a: bv32)
    ensures By4(By12(a)) == By16(a)
  {
  }

  lemma SumRow(a: bv32, x: bv32, n: nat)
    ensures Sum(a, x, n + 4) == Xor(Row(a, x), Sum(By4(a), Four(x), n))
  {
    hide Xor, Step, Pick, Row, Twice, By2, By3, By4;
    Shifts(a);
    RowParts(a, x);
    var p, q, r, s := Pick(a, x), Pick(Twice(a), Step(x)), Pick(By2(a), Two(x)), Pick(By3(a), Step(Two(x)));
    var t := Sum(By4(a), Four(x), n);
    assert Sum(By3(a), Step(Two(x)), n + 1) == Xor(s, t);
    assert Sum(By2(a), Two(x), n + 2) == Xor(r, Xor(s, t));
    assert Sum(Twice(a), Step(x), n + 3) == Xor(q, Xor(r, Xor(s, t)));
    XorAssoc(r, s, t);
    XorAssoc(Xor(p, q), Xor(r, s), t);
    XorAssoc(p, q, Xor(Xor(r, s), t));
  }

  lemma SumBlock(a: bv32, x: bv32, n: nat)
    ensures Sum(a, x, n + 16) == Xor(Block(a, x), Sum(By16(a), Sixteen(x), n))
  {
    hide Xor, Sum, Row, Block, Four, By4, By8, By12, By16;
    Shifts(a);
    BlockParts(a, x);
    SumRow(a, x, n + 12);
    SumRow(By4(a), Four(x), n + 8);
    SumRow(By8(a), Four(Four(x)), n + 4);
    SumRow(By12(a), Four(Four(Four(x))), n);
    var p, q := Row(a, x), Row(By4(a), Four(x));
    var r, s := Row(By8(a), Four(Four(x))), Row(By12(a), Four(Four(Four(x))));
    var t := Sum(By16(a), Sixteen(x), n);
    XorAssoc(r, s, t);
    XorAssoc(Xor(p, q), Xor(r, s), t);
    XorAssoc(p, q, Xor(Xor(r, s), t));
  }

  lemma TimesProduct(a: bv32, x: bv32)
    ensures Times(a, x) == Product(a, x)
  {
    hide Xor, Block, Product, By16, Sixteen;
    ProductParts(a, x);
    SumBlock(a, x, 16);
    SumBlock(By16(a), Sixteen(x), 0);
    XorIdentity(Block(By16(a), Sixteen(x)));
  }

  // ---------------------------------------------------------------- the multiplicative group

  lemma FoursOfOne()
    ensures Four(ONE) == 0x0800_0000 && Four(0x0800_0000) == 0x0080_0000 && Four(0x0080_0000) == 0x0008_0000
    ensures Four(0x0008_0000) == 0x8000 && Four(0x8000) == 0x0800 && Four(0x0800) == 0x0080 && Four(0x0080) == 0x0008
  {
  }

  /** The digit that a row picks. */
  lemma HighRows(a: bv32)
    ensures Row(a, 0x8000_0000) == a & 0xF000_0000 && Row(a, 0x0800_0000) == (a & 0xF000_0000) >> 4
  {
    FirstRow(a);
    SecondRow(a);
    hide Row;
  }

  lemma FirstRow(a: bv32)
    ensures Row(a, 0x8000_0000) == a & 0xF000_0000
  {
  }

  lemma SecondRow(a: bv32)
    ensures Row(a, 0x0800_0000) == (a & 0xF000_0000) >> 4
  {
  }

  lemma MiddleRows(a: bv32)
    ensures Row(a, 0x0080_0000) == (a & 0xF000_0000) >> 8 && Row(a, 0x0008_0000) == (a & 0xF000_0000) >> 12
  {
  }

  lemma LowRows(a: bv32)
    ensures Row(a, 0x8000) == (a & 0xF000_0000) >> 16 && Row(a, 0x0800) == (a & 0xF000_0000) >> 20
    ensures Row(a, 0x0080) == (a & 0xF000_0000) >> 24 && Row(a, 0x0008) == (a & 0xF000_0000) >> 28
  {
  }

  lemma HighBlock(a: bv32)
    ensures Block(a, ONE) == a & 0xFFFF_0000
  {
    FoursOfOne();
    HighRows(a);
    HighRows(a << 4);
    MiddleRows(a << 8);
    MiddleRows(a << 12);
    hide Row, Four;
  }

  lemma LowBlock(a: bv32)
    ensures Block(a, 0x8000) == (a & 0xFFFF_0000) >> 16
  {
    FoursOfOne();
    LowRows(a);
    LowRows(a << 4);
    LowRows(a << 8);
    LowRows(a << 12);
    hide Row, Four;
  }

  /** Every word is itself as a polynomial applied to `ONE`. */
  lemma TimesOne(a: bv32)
    ensures Times(a, ONE) == a
  {
    TimesProduct(a, ONE);
    HighBlock(a);
    FoursOfOne();
    LowBlock(a << 16);
    hide Times, Block, Four;
  }

  lemma TimesCommutes(a: bv32, b: bv32)
    ensures Times(a, b) == Times(b, a)
  {
    hide Sum;
    TimesOne(a);
    TimesOne(b);
    SumSum(b, a, ONE, 32, 32);
  }

  lemma TimesAssociates(a: bv32, b: bv32, c: bv32)
    ensures Times(Times(a, b), c) == Times(a, Times(b, c))
  {
    hide Sum;
    TimesCommutes(Times(a, b), c);
    SumSum(b, a, c, 32, 32);
    SumSum(a, c, b, 32, 32);
    TimesCommutes(c, b);
    assert Sum(c, Sum(a, b, 32), 32) == Sum(a, Sum(c, b, 32), 32);
  }

  /** The word reached from `ONE` after `n` steps. */
  function Power(n: nat): bv32 {
    Steps(ONE, n)
  }

  /** Running `n` steps is multiplying by that word. */
  lemma StepsTimes(x: bv32, n: nat)
    ensures Steps(x, n) == Times(x, Power(n))
  {
    hide Sum, Steps;
    TimesOne(x);
    SumSteps(x, ONE, 32, n);
  }

  lemma PowerAdd(m: nat, n: nat)
    ensures Power(m + n) == Times(Power(m), Power(n))
  {
    hide Times;
    StepsAdd(ONE, m, n);
    StepsTimes(Power(m), n);
  }

  // ---------------------------------------------------------------- squaring is linear

  /** The sum of `Steps(x, 2 * i)` over the first `n` bits of `a` that are set. */
  function Doubled(a: bv32, x: bv32, n: nat): bv32
    decreases n
  {
    if n == 0 then 0 else Xor(Pick(a, x), Doubled(Twice(a), Two(x), n - 1))
  }

  lemma PickTwice(a: bv32, x: bv32)
    ensures Pick(a, Pick(a, x)) == Pick(a, x)
  {
  }

  /** In characteristic two the mixed terms of a square cancel. */
  lemma {:induction false} SquareDoubled(a: bv32, x: bv32, n: nat)
    ensures Sum(a, Sum(a, x, n), n) == Doubled(a, x, n)
    decreases n
  {
    hide Xor, Step, Pick, Twice;
    if n != 0 {
      var b, y := Twice(a), Step(x);
      var p, u := Pick(a, x), Sum(b, y, n - 1);
      var q := Pick(a, u);
      PickLinear(a, p, u);
      PickTwice(a, x);
      StepLinear(p, u);
      PickLinear(a, x, x);
      SumXor(b, Step(p), Step(u), n - 1);
      SumPick(b, a, y, n - 1);
      SumStep(b, y, n - 1);
      SquareDoubled(b, Step(y), n - 1);
      XorMoves(p, Sum(b, Step(u), n - 1), q);
    }
  }

  /** Four terms, with the words they pick. */
  function Quad(a: bv32, x: bv32, y: bv32, z: bv32, t: bv32): bv32 {
    Xor(Xor(Pick(a, x), Pick(a << 1, y)), Xor(Pick(a << 2, z), Pick(a << 3, t)))
  }

  lemma QuadXor(a: bv32, x: bv32, y: bv32, z: bv32, t: bv32)
    ensures Quad(a, x, y, z, t) == Xor(Xor(Pick(a, x), Pick(Twice(a), y)), Xor(Pick(By2(a), z), Pick(By3(a), t)))
  {
    hide Pick, Xor;
  }

  /** The square of a word: each of its bits picks an even power. */
  function Spread(c: bv32): bv32 {
    Xor(Quad(c, 0x8000_0000, 0x2000_0000, 0x0800_0000, 0x0200_0000),
    Xor(Quad(c << 4, 0x0080_0000, 0x0020_0000, 0x0008_0000, 0x0002_0000),
    Xor(Quad(c << 8, 0x0000_8000, 0x0000_2000, 0x0000_0800, 0x0000_0200),
    Xor(Quad(c << 12, 0x0000_0080, 0x0000_0020, 0x0000_0008, 0x0000_0002),
    Xor(Quad(c << 16, 0x8020_0003, 0x6018_0001, 0xD836_0002, 0xB62D_8003),
    Xor(Quad((c << 16) << 4, 0x6D9B_6001, 0xDB56_D802, 0xB6F5_B603, 0x6DAD_6D81),
    Xor(Quad((c << 16) << 8, 0xDB5B_5B62, 0xB6F6_D6DB, 0x6DAD_B5B7, 0x5B7B_6D6C),
    Quad((c << 16) << 12, 0x16DE_DB5B, 0x45A7_B6D7, 0x5179_EDB4, 0x145E_7B6D))))))))
  }

  lemma SpreadXor(c: bv32)
    ensures Spread(c) ==
              Xor(Quad(c, 0x8000_0000, 0x2000_0000, 0x0800_0000, 0x0200_0000),
              Xor(Quad(By4(c), 0x0080_0000, 0x0020_0000, 0x0008_0000, 0x0002_0000),
              Xor(Quad(By8(c), 0x0000_8000, 0x0000_2000, 0x0000_0800, 0x0000_0200),
              Xor(Quad(By12(c), 0x0000_0080, 0x0000_0020, 0x0000_0008, 0x0000_0002),
              Xor(Quad(By16(c), 0x8020_0003, 0x6018_0001, 0xD836_0002, 0xB62D_8003),
              Xor(Quad(By4(By16(c)), 0x6D9B_6001, 0xDB56_D802, 0xB6F5_B603, 0x6DAD_6D81),
              Xor(Quad(By8(By16(c)), 0xDB5B_5B62, 0xB6F6_D6DB, 0x6DAD_B5B7, 0x5B7B_6D6C),
              Quad(By12(By16(c)), 0x16DE_DB5B, 0x45A7_B6D7, 0x5179_EDB4, 0x145E_7B6D))))))))
  {
    hide Quad, Xor;
  }

  lemma DoubledQuad(a: bv32, x: bv32, y: bv32, z: bv32, t: bv32, u: bv32, n: nat)
    requires Two(x) == y && Two(y) == z && Two(z) == t && Two(t) == u
    ensures Doubled(a, x, n + 4) == Xor(Quad(a, x, y, z, t), Doubled(By4(a), u, n))
  {
    hide Xor, Two, Pick, Quad, Twice, By2, By3, By4;
    Shifts(a);
    QuadXor(a, x, y, z, t);
    var p, q, r, s := Pick(a, x), Pick(Twice(a), y), Pick(By2(a), z), Pick(By3(a), t);
    var rest := Doubled(By4(a), u, n);
    assert Doubled(By3(a), t, n + 1) == Xor(s, rest);
    assert Doubled(By2(a), z, n + 2) == Xor(r, Xor(s, rest));
    assert Doubled(Twice(a), y, n + 3) == Xor(q, Xor(r, Xor(s, rest)));
    XorAssoc(r, s, rest);
    XorAssoc(Xor(p, q), Xor(r, s), rest);
    XorAssoc(p, q, Xor(Xor(r, s), rest));
  }

  lemma DoubledNone(a: bv32, x: bv32)
    ensures Doubled(a, x, 0) == 0
  {
  }

  lemma EvenPowers()
    ensures Two(0x8000_0000) == 0x2000_0000 && Two(0x2000_0000) == 0x0800_0000
    ensures Two(0x0800_0000) == 0x0200_0000 && Two(0x0200_0000) == 0x0080_0000
    ensures Two(0x0080_0000) == 0x0020_0000 && Two(0x0020_0000) == 0x0008_0000
    ensures Two(0x0008_0000) == 0x0002_0000 && Two(0x0002_0000) == 0x0000_8000
    ensures Two(0x0000_8000) == 0x0000_2000 && Two(0x0000_2000) == 0x0000_0800
    ensures Two(0x0000_0800) == 0x0000_0200 && Two(0x0000_0200) == 0x0000_0080
    ensures Two(0x0000_0080) == 0x0000_0020 && Two(0x0000_0020) == 0x0000_0008
    ensures Two(0x0000_0008) == 0x0000_0002 && Two(0x0000_0002) == 0x8020_0003
    ensures Two(0x8020_0003) == 0x6018_0001 && Two(0x6018_0001) == 0xD836_0002
    ensures Two(0xD836_0002) == 0xB62D_8003 && Two(0xB62D_8003) == 0x6D9B_6001
    ensures Two(0x6D9B_6001) == 0xDB56_D802 && Two(0xDB56_D802) == 0xB6F5_B603
    ensures Two(0xB6F5_B603) == 0x6DAD_6D81 && Two(0x6DAD_6D81) == 0xDB5B_5B62
    ensures Two(0xDB5B_5B62) == 0xB6F6_D6DB && Two(0xB6F6_D6DB) == 0x6DAD_B5B7
    ensures Two(0x6DAD_B5B7) == 0x5B7B_6D6C && Two(0x5B7B_6D6C) == 0x16DE_DB5B
    ensures Two(0x16DE_DB5B) == 0x45A7_B6D7 && Two(0x45A7_B6D7) == 0x5179_EDB4
    ensures Two(0x5179_EDB4) == 0x145E_7B6D && Two(0x145E_7B6D) == 0xC527_9ED9
  {
  }

  lemma SpreadDoubled(c: bv32)
    ensures Doubled(c, ONE, 32) == Spread(c)
  {
    EvenPowers();
    SpreadXor(c);
    hide Two, Doubled, Quad, Spread, Xor, By4, By8, By12, By16;
    Shifts(c);
    Shifts(By16(c));
    DoubledQuad(c, 0x8000_0000, 0x2000_0000, 0x0800_0000, 0x0200_0000, 0x0080_0000, 28);
    DoubledQuad(By4(c), 0x0080_0000, 0x0020_0000, 0x0008_0000, 0x0002_0000, 0x0000_8000, 24);
    DoubledQuad(By8(c), 0x0000_8000, 0x0000_2000, 0x0000_0800, 0x0000_0200, 0x0000_0080, 20);
    DoubledQuad(By12(c), 0x0000_0080, 0x0000_0020, 0x0000_0008, 0x0000_0002, 0x8020_0003, 16);
    DoubledQuad(By16(c), 0x8020_0003, 0x6018_0001, 0xD836_0002, 0xB62D_8003, 0x6D9B_6001, 12);
    DoubledQuad(By4(By16(c)), 0x6D9B_6001, 0xDB56_D802, 0xB6F5_B603, 0x6DAD_6D81, 0xDB5B_5B62, 8);
    DoubledQuad(By8(By16(c)), 0xDB5B_5B62, 0xB6F6_D6DB, 0x6DAD_B5B7, 0x5B7B_6D6C, 0x16DE_DB5B, 4);
    DoubledQuad(By12(By16(c)), 0x16DE_DB5B, 0x45A7_B6D7, 0x5179_EDB4, 0x145E_7B6D, 0xC527_9ED9, 0);
    DoubledNone(By16(By16(c)), 0xC527_9ED9);
    XorIdentity(Quad(By12(By16(c)), 0x16DE_DB5B, 0x45A7_B6D7, 0x5179_EDB4, 0x145E_7B6D));
  }

  lemma SquareSpread(c: bv32)
    ensures Times(c, c) == Spread(c)
  {
    hide Sum, Doubled, Spread;
    TimesOne(c);
    SquareDoubled(c, ONE, 32);
    SpreadDoubled(c);
  }

  // ---------------------------------------------------------------- powers by squaring

  function Rung(c: bv32, odd: bool): bv32 {
    if odd then Step(Spread(c)) else Spread(c)
  }

  lemma RungPower(n: nat, odd: bool)
    ensures Power(2 * n + if odd then 1 else 0) == Rung(Power(n), odd)
  {
    hide Spread, Times;
    PowerAdd(n, n);
    SquareSpread(Power(n));
    StepsAdd(ONE, 2 * n, 1);
    hide Step;
    assert Steps(Power(2 * n), 1) == Steps(Step(Power(2 * n)), 0);
  }

  /** One hexadecimal digit of the exponent: four squarings, with the bits of the digit worked in. */
  lemma Digit(n: nat, digit: nat, a: bv32, b: bv32, c: bv32, d: bv32)
    requires digit < 16 && a == Rung(Power(n), digit / 8 % 2 == 1) && b == Rung(a, digit / 4 % 2 == 1)
    requires c == Rung(b, digit / 2 % 2 == 1) && d == Rung(c, digit % 2 == 1)
    ensures Power(16 * n + digit) == d
  {
    hide Power, Rung;
    RungPower(n, digit / 8 % 2 == 1);
    var i := 2 * n + digit / 8 % 2;
    RungPower(i, digit / 4 % 2 == 1);
    var j := 2 * i + digit / 4 % 2;
    RungPower(j, digit / 2 % 2 == 1);
    RungPower(2 * j + digit / 2 % 2, digit % 2 == 1);
  }

  lemma PowerZero()
    ensures Power(0) == ONE
  {
  }

  lemma OrderRungs1()
    ensures Rung(0x8000_0000, true) == 0x4000_0000 && Rung(0x4000_0000, true) == 0x1000_0000
    ensures Rung(0x1000_0000, true) == 0x0100_0000 && Rung(0x0100_0000, true) == 0x0001_0000
    ensures Rung(0x0001_0000, true) == 0x0000_0001 && Rung(0x0000_0001, true) == 0x8A0F_3DB5
    ensures Rung(0x8A0F_3DB5, true) == 0x44C3_8D95 && Rung(0x44C3_8D95, true) == 0xD57C_C71C
  {
  }

  lemma OrderRungs2()
    ensures Rung(0xD57C_C71C, true) == 0x250B_14E1 && Rung(0x250B_14E1, true) == 0x3883_8DF4
    ensures Rung(0x3883_8DF4, true) == 0x278E_5B1F && Rung(0x278E_5B1F, true) == 0x12FC_9688
    ensures Rung(0x12FC_9688, true) == 0x4A11_E24C && Rung(0x4A11_E24C, true) == 0x25FE_07AB
    ensures Rung(0x25FE_07AB, true) == 0xF6B1_853C && Rung(0xF6B1_853C, true) == 0xFC8E_4569
  {
  }

  lemma OrderRungs3()
    ensures Rung(0xFC8E_4569, true) == 0x52CC_7B38 && Rung(0x52CC_7B38, true) == 0xDD40_4C52
    ensures Rung(0xDD40_4C52, true) == 0xE461_E703 && Rung(0xE461_E703, true) == 0xEAA3_DEAE
    ensures Rung(0xEAA3_DEAE, true) == 0x2529_B473 && Rung(0x2529_B473, true) == 0xFC04_642E
    ensures Rung(0xFC04_642E, true) == 0x533A_F6D7 && Rung(0x533A_F6D7, true) == 0xFBCE_122B
  {
  }

  lemma OrderRungs4()
    ensures Rung(0xFBCE_122B, true) == 0xCA23_374D && Rung(0xCA23_374D, true) == 0x9F86_25DB
    ensures Rung(0x9F86_25DB, true) == 0x44A4_4C7F && Rung(0x44A4_4C7F, true) == 0xB065_E2B8
    ensures Rung(0xB065_E2B8, true) == 0xFFF4_6362 && Rung(0xFFF4_6362, true) == 0xA1DF_7FBF
    ensures Rung(0xA1DF_7FBF, true) == 0x8803_9CE0 && Rung(0x8803_9CE0, true) == 0x8000_0000
  {
  }

  lemma OrderPower()
    ensures Power(0xFFFF) == 0xFC8E_4569 && Power(0xFFFF_FFFF) == ONE
  {
    hide Power, Rung;
    PowerZero();
    OrderRungs1();
    OrderRungs2();
    OrderRungs3();
    OrderRungs4();
    Digit(0x0, 0xF, 0x4000_0000, 0x1000_0000, 0x0100_0000, 0x0001_0000);
    Digit(0xF, 0xF, 0x0000_0001, 0x8A0F_3DB5, 0x44C3_8D95, 0xD57C_C71C);
    Digit(0xFF, 0xF, 0x250B_14E1, 0x3883_8DF4, 0x278E_5B1F, 0x12FC_9688);
    Digit(0xFFF, 0xF, 0x4A11_E24C, 0x25FE_07AB, 0xF6B1_853C, 0xFC8E_4569);
    Digit(0xFFFF, 0xF, 0x52CC_7B38, 0xDD40_4C52, 0xE461_E703, 0xEAA3_DEAE);
    Digit(0xFFFFF, 0xF, 0x2529_B473, 0xFC04_642E, 0x533A_F6D7, 0xFBCE_122B);
    Digit(0xFFFFFF, 0xF, 0xCA23_374D, 0x9F86_25DB, 0x44A4_4C7F, 0xB065_E2B8);
    Digit(0xFFFFFFF, 0xF, 0xFFF4_6362, 0xA1DF_7FBF, 0x8803_9CE0, 0x8000_0000);
  }

  lemma ThirdRungs1()
    ensures Rung(0x8000_0000, false) == 0x8000_0000 && Rung(0x8000_0000, true) == 0x4000_0000
    ensures Rung(0x4000_0000, false) == 0x2000_0000 && Rung(0x2000_0000, true) == 0x0400_0000
    ensures Rung(0x0400_0000, false) == 0x0020_0000 && Rung(0x0020_0000, true) == 0x0000_0400
    ensures Rung(0x0000_0400, false) == 0xDB56_D802 && Rung(0xDB56_D802, true) == 0x643E_97CE
  {
  }

  lemma ThirdRungs2()
    ensures Rung(0x643E_97CE, false) == 0x718E_84A9 && Rung(0x718E_84A9, true) == 0x6281_0B25
    ensures Rung(0x6281_0B25, false) == 0xA29F_438C && Rung(0xA29F_438C, true) == 0xDD95_37E0
    ensures Rung(0xDD95_37E0, false) == 0xCCB7_39AD && Rung(0xCCB7_39AD, true) == 0x9F8E_7FCC
    ensures Rung(0x9F8E_7FCC, false) == 0xDFE8_831C && Rung(0xDFE8_831C, true) == 0xF8C8_39F3
  {
  }

  lemma ThirdRungs3()
    ensures Rung(0xF8C8_39F3, false) == 0xDAF1_EEBA && Rung(0xDAF1_EEBA, true) == 0x184A_08AA
    ensures Rung(0x184A_08AA, false) == 0x9E4A_98B3 && Rung(0x9E4A_98B3, true) == 0xB8EA_6AF7
    ensures Rung(0xB8EA_6AF7, false) == 0xB23B_0BE5 && Rung(0xB23B_0BE5, true) == 0xB6B9_225D
    ensures Rung(0xB6B9_225D, false) == 0x4E41_91D5 && Rung(0x4E41_91D5, true) == 0x0E13_F076
  {
  }

  lemma ThirdRungs4()
    ensures Rung(0x0E13_F076, false) == 0x1A75_D76A && Rung(0x1A75_D76A, true) == 0x6437_FE10
    ensures Rung(0x6437_FE10, false) == 0xFD40_E945 && Rung(0xFD40_E945, true) == 0xBAEA_9B73
    ensures Rung(0xBAEA_9B73, false) == 0xCF41_0BD2 && Rung(0xCF41_0BD2, true) == 0x38E3_4B70
    ensures Rung(0x38E3_4B70, false) == 0x5C7B_1D88 && Rung(0x5C7B_1D88, true) == 0x4134_7F99
  {
  }

  lemma ThirdPower()
    ensures Power(0x5555_5555) == 0x4134_7F99
  {
    hide Power, Rung;
    PowerZero();
    ThirdRungs1();
    ThirdRungs2();
    ThirdRungs3();
    ThirdRungs4();
    Digit(0x0, 0x5, 0x8000_0000, 0x4000_0000, 0x2000_0000, 0x0400_0000);
    Digit(0x5, 0x5, 0x0020_0000, 0x0000_0400, 0xDB56_D802, 0x643E_97CE);
    Digit(0x55, 0x5, 0x718E_84A9, 0x6281_0B25, 0xA29F_438C, 0xDD95_37E0);
    Digit(0x555, 0x5, 0xCCB7_39AD, 0x9F8E_7FCC, 0xDFE8_831C, 0xF8C8_39F3);
    Digit(0x5555, 0x5, 0xDAF1_EEBA, 0x184A_08AA, 0x9E4A_98B3, 0xB8EA_6AF7);
    Digit(0x55555, 0x5, 0xB23B_0BE5, 0xB6B9_225D, 0x4E41_91D5, 0x0E13_F076);
    Digit(0x555555, 0x5, 0x1A75_D76A, 0x6437_FE10, 0xFD40_E945, 0xBAEA_9B73);
    Digit(0x5555555, 0x5, 0xCF41_0BD2, 0x38E3_4B70, 0x5C7B_1D88, 0x4134_7F99);
  }

  lemma FifthRungs1()
    ensures Rung(0x8000_0000, false) == 0x8000_0000 && Rung(0x8000_0000, false) == 0x8000_0000
    ensures Rung(0x8000_0000, true) == 0x4000_0000 && Rung(0x4000_0000, true) == 0x1000_0000
    ensures Rung(0x1000_0000, false) == 0x0200_0000 && Rung(0x0200_0000, false) == 0x0008_0000
    ensures Rung(0x0008_0000, true) == 0x0000_0040 && Rung(0x0000_0040, true) == 0xDB5B_6B6E
  {
  }

  lemma FifthRungs2()
    ensures Rung(0xDB5B_6B6E, false) == 0x753C_7A5E && Rung(0x753C_7A5E, false) == 0x10C2_672D
    ensures Rung(0x10C2_672D, true) == 0xC875_006D && Rung(0xC875_006D, true) == 0x9E5E_2FD4
    ensures Rung(0x9E5E_2FD4, false) == 0x447A_1729 && Rung(0x447A_1729, false) == 0xF92E_BC8A
    ensures Rung(0xF92E_BC8A, true) == 0x3744_2E92 && Rung(0x3744_2E92, true) == 0x01BE_FACC
  {
  }

  lemma FifthRungs3()
    ensures Rung(0x01BE_FACC, false) == 0x6B9B_3C9C && Rung(0x6B9B_3C9C, false) == 0x2305_E10A
    ensures Rung(0x2305_E10A, true) == 0x0D07_2DA6 && Rung(0x0D07_2DA6, true) == 0x50EE_300E
    ensures Rung(0x50EE_300E, false) == 0x4E1B_A891 && Rung(0x4E1B_A891, false) == 0x815B_2FE9
    ensures Rung(0x815B_2FE9, true) == 0x9BB0_EC9B && Rung(0x9BB0_EC9B, true) == 0xEFE8_24C4
  {
  }

  lemma FifthRungs4()
    ensures Rung(0xEFE8_24C4, false) == 0x83C0_4BEE && Rung(0x83C0_4BEE, false) == 0x54D1_A3B4
    ensures Rung(0x54D1_A3B4, true) == 0x8482_2674 && Rung(0x8482_2674, true) == 0x7819_2B6E
    ensures Rung(0x7819_2B6E, false) == 0x9D2E_5A57 && Rung(0x9D2E_5A57, false) == 0x62F4_C511
    ensures Rung(0x62F4_C511, true) == 0x18F7_04D0 && Rung(0x18F7_04D0, true) == 0xF7A0_497D
  {
  }

  lemma FifthPower()
    ensures Power(0x3333_3333) == 0xF7A0_497D
  {
    hide Power, Rung;
    PowerZero();
    FifthRungs1();
    FifthRungs2();
    FifthRungs3();
    FifthRungs4();
    Digit(0x0, 0x3, 0x8000_0000, 0x8000_0000, 0x4000_0000, 0x1000_0000);
    Digit(0x3, 0x3, 0x0200_0000, 0x0008_0000, 0x0000_0040, 0xDB5B_6B6E);
    Digit(0x33, 0x3, 0x753C_7A5E, 0x10C2_672D, 0xC875_006D, 0x9E5E_2FD4);
    Digit(0x333, 0x3, 0x447A_1729, 0xF92E_BC8A, 0x3744_2E92, 0x01BE_FACC);
    Digit(0x3333, 0x3, 0x6B9B_3C9C, 0x2305_E10A, 0x0D07_2DA6, 0x50EE_300E);
    Digit(0x33333, 0x3, 0x4E1B_A891, 0x815B_2FE9, 0x9BB0_EC9B, 0xEFE8_24C4);
    Digit(0x333333, 0x3, 0x83C0_4BEE, 0x54D1_A3B4, 0x8482_2674, 0x7819_2B6E);
    Digit(0x3333333, 0x3, 0x9D2E_5A57, 0x62F4_C511, 0x18F7_04D0, 0xF7A0_497D);
  }

  lemma SeventeenthRungs1()
    ensures Rung(0x8000_0000, true) == 0x4000_0000 && Rung(0x4000_0000, true) == 0x1000_0000
    ensures Rung(0x1000_0000, true) == 0x0100_0000 && Rung(0x0100_0000, true) == 0x0001_0000
    ensures Rung(0x0001_0000, false) == 0x0000_0002 && Rung(0x0000_0002, false) == 0x5179_EDB4
    ensures Rung(0x5179_EDB4, false) == 0x6946_CA6E && Rung(0x6946_CA6E, false) == 0xCA8F_157C
  {
  }

  lemma SeventeenthRungs2()
    ensures Rung(0xCA8F_157C, true) == 0x3983_EB53 && Rung(0x3983_EB53, true) == 0x9652_8B70
    ensures Rung(0x9652_8B70, true) == 0x1A75_CBC4 && Rung(0x1A75_CBC4, true) == 0xBE1C_D565
    ensures Rung(0xBE1C_D565, false) == 0xE0E4_99F4 && Rung(0xE0E4_99F4, false) == 0x80E7_C615
    ensures Rung(0x80E7_C615, false) == 0x0719_66FF && Rung(0x0719_66FF, false) == 0x9882_C2B7
  {
  }

  lemma SeventeenthRungs3()
    ensures Rung(0x9882_C2B7, true) == 0x1CA0_4ADF && Rung(0x1CA0_4ADF, true) == 0xCC8F_22C2
    ensures Rung(0xCC8F_22C2, true) == 0x795B_AB53 && Rung(0x795B_AB53, true) == 0x367E_DA33
    ensures Rung(0x367E_DA33, false) == 0xF4A2_32A9 && Rung(0xF4A2_32A9, false) == 0xC6B8_F0E9
    ensures Rung(0xC6B8_F0E9, false) == 0x2C8B_92BB && Rung(0x2C8B_92BB, false) == 0x362C_78B2
  {
  }

  lemma SeventeenthRungs4()
    ensures Rung(0x362C_78B2, true) == 0x6AA2_4356 && Rung(0x6AA2_4356, true) == 0xB56D_D9AC
    ensures Rung(0xB56D_D9AC, true) == 0x1CC7_133D && Rung(0x1CC7_133D, true) == 0x8F32_1ACB
  {
  }

  lemma SeventeenthPower()
    ensures Power(0x0F0F_0F0F) == 0x8F32_1ACB
  {
    hide Power, Rung;
    PowerZero();
    SeventeenthRungs1();
    SeventeenthRungs2();
    SeventeenthRungs3();
    SeventeenthRungs4();
    Digit(0x0, 0xF, 0x4000_0000, 0x1000_0000, 0x0100_0000, 0x0001_0000);
    Digit(0xF, 0x0, 0x0000_0002, 0x5179_EDB4, 0x6946_CA6E, 0xCA8F_157C);
    Digit(0xF0, 0xF, 0x3983_EB53, 0x9652_8B70, 0x1A75_CBC4, 0xBE1C_D565);
    Digit(0xF0F, 0x0, 0xE0E4_99F4, 0x80E7_C615, 0x0719_66FF, 0x9882_C2B7);
    Digit(0xF0F0, 0xF, 0x1CA0_4ADF, 0xCC8F_22C2, 0x795B_AB53, 0x367E_DA33);
    Digit(0xF0F0F, 0x0, 0xF4A2_32A9, 0xC6B8_F0E9, 0x2C8B_92BB, 0x362C_78B2);
    Digit(0xF0F0F0, 0xF, 0x6AA2_4356, 0xB56D_D9AC, 0x1CC7_133D, 0x8F32_1ACB);
  }

  lemma Of257Rungs1()
    ensures Rung(0x8000_0000, true) == 0x4000_0000 && Rung(0x4000_0000, true) == 0x1000_0000
    ensures Rung(0x1000_0000, true) == 0x0100_0000 && Rung(0x0100_0000, true) == 0x0001_0000
    ensures Rung(0x0001_0000, true) == 0x0000_0001 && Rung(0x0000_0001, true) == 0x8A0F_3DB5
    ensures Rung(0x8A0F_3DB5, true) == 0x44C3_8D95 && Rung(0x44C3_8D95, true) == 0xD57C_C71C
  {
  }

  lemma Of257Rungs2()
    ensures Rung(0xD57C_C71C, false) == 0x4A16_29C2 && Rung(0x4A16_29C2, false) == 0xC45C_6FA7
    ensures Rung(0xC45C_6FA7, false) == 0xC3ED_8FF9 && Rung(0xC3ED_8FF9, false) == 0x1444_3E74
    ensures Rung(0x1444_3E74, false) == 0xA984_16F6 && Rung(0xA984_16F6, false) == 0x1CA9_6023
    ensures Rung(0x1CA9_6023, false) == 0x9204_ABEF && Rung(0x9204_ABEF, false) == 0x7A83_78F9
  {
  }

  lemma Of257Rungs3()
    ensures Rung(0x7A83_78F9, true) == 0x8855_CAAC && Rung(0x8855_CAAC, true) == 0xAF0C_BBBE
    ensures Rung(0xAF0C_BBBE, true) == 0x1FEF_9C50 && Rung(0x1FEF_9C50, true) == 0x37F3_958F
    ensures Rung(0x37F3_958F, true) == 0x23EC_9FDF && Rung(0x23EC_9FDF, true) == 0xB9AD_2853
    ensures Rung(0xB9AD_2853, true) == 0xCBE2_E2E4 && Rung(0xCBE2_E2E4, true) == 0x35EB_4869
  {
  }

  lemma Of257Power()
    ensures Power(0x00FF_00FF) == 0x35EB_4869
  {
    hide Power, Rung;
    PowerZero();
    Of257Rungs1();
    Of257Rungs2();
    Of257Rungs3();
    Digit(0x0, 0xF, 0x4000_0000, 0x1000_0000, 0x0100_0000, 0x0001_0000);
    Digit(0xF, 0xF, 0x0000_0001, 0x8A0F_3DB5, 0x44C3_8D95, 0xD57C_C71C);
    Digit(0xFF, 0x0, 0x4A16_29C2, 0xC45C_6FA7, 0xC3ED_8FF9, 0x1444_3E74);
    Digit(0xFF0, 0x0, 0xA984_16F6, 0x1CA9_6023, 0x9204_ABEF, 0x7A83_78F9);
    Digit(0xFF00, 0xF, 0x8855_CAAC, 0xAF0C_BBBE, 0x1FEF_9C50, 0x37F3_958F);
    Digit(0xFF00F, 0xF, 0x23EC_9FDF, 0xB9AD_2853, 0xCBE2_E2E4, 0x35EB_4869);
  }

  lemma OfLargestRungs1()
    ensures Rung(0x8000_0000, false) == 0x8000_0000 && Rung(0x8000_0000, false) == 0x8000_0000
    ensures Rung(0x8000_0000, true) == 0x4000_0000 && Rung(0x4000_0000, false) == 0x2000_0000
    ensures Rung(0x2000_0000, false) == 0x0800_0000 && Rung(0x0800_0000, true) == 0x0040_0000
    ensures Rung(0x0040_0000, true) == 0x0000_1000 && Rung(0x0000_1000, false) == 0xB62D_8003
  {
  }

  lemma OfLargestRungs2()
    ensures Rung(0xB62D_8003, true) == 0x2797_CF3C && Rung(0x2797_CF3C, false) == 0xE028_54FE
    ensures Rung(0xE028_54FE, true) == 0x7E0C_42ED && Rung(0x7E0C_42ED, true) == 0xDD91_4C25
    ensures Rung(0xDD91_4C25, true) == 0xA431_A105 && Rung(0xA431_A105, true) == 0x7631_551C
    ensures Rung(0x7631_551C, false) == 0x42E4_3F63 && Rung(0x42E4_3F63, true) == 0xDEDD_5F09
  {
  }

  lemma OfLargestRungs3()
    ensures Rung(0xDEDD_5F09, false) == 0x1B88_E117 && Rung(0x1B88_E117, false) == 0x0CD2_A063
    ensures Rung(0x0CD2_A063, true) == 0x6365_2BDE && Rung(0x6365_2BDE, true) == 0x3914_F9A7
    ensures Rung(0x3914_F9A7, true) == 0x1970_A0BC && Rung(0x1970_A0BC, false) == 0xE460_C434
    ensures Rung(0xE460_C434, false) == 0xE03F_9E0C && Rung(0xE03F_9E0C, false) == 0xCD4C_E926
  {
  }

  lemma OfLargestRungs4()
    ensures Rung(0xCD4C_E926, true) == 0x70F4_E1FA && Rung(0x70F4_E1FA, true) == 0x31BF_D216
    ensures Rung(0x31BF_D216, false) == 0xA547_8AA7 && Rung(0xA547_8AA7, false) == 0x651A_38F0
    ensures Rung(0x651A_38F0, false) == 0x70D9_B7EA && Rung(0x70D9_B7EA, true) == 0xC1E9_17F3
    ensures Rung(0xC1E9_17F3, true) == 0x043E_F45D && Rung(0x043E_F45D, false) == 0xFFFF_FFFF
  {
  }

  lemma OfLargestPower()
    ensures Power(0x26BD_38C6) == 0xFFFF_FFFF
  {
    hide Power, Rung;
    PowerZero();
    OfLargestRungs1();
    OfLargestRungs2();
    OfLargestRungs3();
    OfLargestRungs4();
    Digit(0x0, 0x2, 0x8000_0000, 0x8000_0000, 0x4000_0000, 0x2000_0000);
    Digit(0x2, 0x6, 0x0800_0000, 0x0040_0000, 0x0000_1000, 0xB62D_8003);
    Digit(0x26, 0xB, 0x2797_CF3C, 0xE028_54FE, 0x7E0C_42ED, 0xDD91_4C25);
    Digit(0x26B, 0xD, 0xA431_A105, 0x7631_551C, 0x42E4_3F63, 0xDEDD_5F09);
    Digit(0x26BD, 0x3, 0x1B88_E117, 0x0CD2_A063, 0x6365_2BDE, 0x3914_F9A7);
    Digit(0x26BD3, 0x8, 0x1970_A0BC, 0xE460_C434, 0xE03F_9E0C, 0xCD4C_E926);
    Digit(0x26BD38, 0xC, 0x70F4_E1FA, 0x31BF_D216, 0xA547_8AA7, 0x651A_38F0);
    Digit(0x26BD38C, 0x6, 0x70D9_B7EA, 0xC1E9_17F3, 0x043E_F45D, 0xFFFF_FFFF);
  }

  lemma OfFourthRungs1()
    ensures Rung(0x8000_0000, false) == 0x8000_0000 && Rung(0x8000_0000, false) == 0x8000_0000
    ensures Rung(0x8000_0000, true) == 0x4000_0000 && Rung(0x4000_0000, true) == 0x1000_0000
    ensures Rung(0x1000_0000, false) == 0x0200_0000 && Rung(0x0200_0000, true) == 0x0004_0000
    ensures Rung(0x0004_0000, true) == 0x0000_0010 && Rung(0x0000_0010, false) == 0x5B7B_6D6C
  {
  }

  lemma OfFourthRungs2()
    ensures Rung(0x5B7B_6D6C, false) == 0xC9E6_F1EB && Rung(0xC9E6_F1EB, false) == 0x10F5_3026
    ensures Rung(0x10F5_3026, false) == 0x1568_C4F7 && Rung(0x1568_C4F7, false) == 0x62B7_85EC
    ensures Rung(0x62B7_85EC, true) == 0x26D5_3514 && Rung(0x26D5_3514, false) == 0xCE14_4C1B
    ensures Rung(0xCE14_4C1B, true) == 0x3F7F_CD66 && Rung(0x3F7F_CD66, true) == 0xFF1B_E391
  {
  }

  lemma OfFourthRungs3()
    ensures Rung(0xFF1B_E391, true) == 0xEEE1_4A36 && Rung(0xEEE1_4A36, true) == 0x98CB_7EDF
    ensures Rung(0x98CB_7EDF, false) == 0xAC33_350A && Rung(0xAC33_350A, true) == 0x8BD3_84B0
    ensures Rung(0x8BD3_84B0, false) == 0x3671_F9B2 && Rung(0x3671_F9B2, false) == 0x38C9_C98C
    ensures Rung(0x38C9_C98C, false) == 0x62AC_9BEE && Rung(0x62AC_9BEE, false) == 0xAAC6_0B15
  {
  }

  lemma OfFourthRungs4()
    ensures Rung(0xAAC6_0B15, true) == 0x9A44_DDBD && Rung(0x9A44_DDBD, true) == 0xD28B_F07E
    ensures Rung(0xD28B_F07E, false) == 0xAE0B_8EB1 && Rung(0xAE0B_8EB1, false) == 0xF163_F65D
    ensures Rung(0xF163_F65D, false) == 0xE328_6B5E && Rung(0xE328_6B5E, false) == 0x496A_888F
    ensures Rung(0x496A_888F, true) == 0x803E_745D && Rung(0x803E_745D, false) == 0xFFFF_FFFC
  {
  }

  lemma OfFourthPower()
    ensures Power(0x360B_D0C2) == 0xFFFF_FFFC
  {
    hide Power, Rung;
    PowerZero();
    OfFourthRungs1();
    OfFourthRungs2();
    OfFourthRungs3();
    OfFourthRungs4();
    Digit(0x0, 0x3, 0x8000_0000, 0x8000_0000, 0x4000_0000, 0x1000_0000);
    Digit(0x3, 0x6, 0x0200_0000, 0x0004_0000, 0x0000_0010, 0x5B7B_6D6C);
    Digit(0x36, 0x0, 0xC9E6_F1EB, 0x10F5_3026, 0x1568_C4F7, 0x62B7_85EC);
    Digit(0x360, 0xB, 0x26D5_3514, 0xCE14_4C1B, 0x3F7F_CD66, 0xFF1B_E391);
    Digit(0x360B, 0xD, 0xEEE1_4A36, 0x98CB_7EDF, 0xAC33_350A, 0x8BD3_84B0);
    Digit(0x360BD, 0x0, 0x3671_F9B2, 0x38C9_C98C, 0x62AC_9BEE, 0xAAC6_0B15);
    Digit(0x360BD0, 0xC, 0x9A44_DDBD, 0xD28B_F07E, 0xAE0B_8EB1, 0xF163_F65D);
    Digit(0x360BD0C, 0x2, 0xE328_6B5E, 0x496A_888F, 0x803E_745D, 0xFFFF_FFFC);
  }

  // ---------------------------------------------------------------- the period

  const ORDER: nat := 0xFFFF_FFFF

  lemma {:induction false} PeriodMultiple(x: bv32, n: nat, k: nat)
    requires Steps(x, n) == x
    ensures Steps(x, k * n) == x
    decreases k
  {
    hide Step;
    if k == 0 {
      assert Steps(x, 0) == x;
    } else {
      PeriodMultiple(x, n, k - 1);
      Distribute(k - 1, 1, n);
      StepsAdd(x, (k - 1) * n, n);
    }
  }

  lemma PeriodRest(x: bv32, a: nat, b: nat, g: nat)
    requires Steps(x, a) == x && Steps(x, b) == x && a == b + g
    ensures Steps(x, g) == x
  {
    StepsAdd(x, b, g);
  }

  /** Two periods have their greatest common divisor as a period. */
  lemma CommonPeriod(x: bv32, n: nat, o: nat) returns (g: nat)
    requires n > 0 && Steps(x, n) == x && Steps(x, o) == x
    ensures g > 0 && Divides(g, n) && Divides(g, o) && Steps(x, g) == x
  {
    hide Steps;
    var u, v;
    g, u, v := Combination(n, o);
    var i, j := if u < 0 then -u else u, if v < 0 then -v else v;
    PeriodMultiple(x, n, i);
    PeriodMultiple(x, o, j);
    Distribute(u, 0, n);
    Distribute(v, 0, o);
    Positive(n, o, g, u, v);
    if u >= 0 && v >= 0 {
      StepsAdd(x, i * n, j * o);
    } else if u >= 0 {
      PeriodRest(x, i * n, j * o, g);
    } else {
      PeriodRest(x, j * o, i * n, g);
    }
  }

  lemma Positive(n: nat, o: nat, g: nat, u: int, v: int)
    requires g == u * n + v * o && g > 0
    ensures u >= 0 || v >= 0
  {
  }

  /** 2^32 - 1 is the product of the first five Fermat primes, so a proper cofactor contains one of them. */
  lemma PrimeFactor(m: nat, g: nat) returns (p: nat)
    requires m * g == ORDER && m > 1
    ensures p in {3, 5, 17, 257, 65537} && Divides(p, m)
  {
    Primes();
    var r: nat := g;
    var n: nat := ORDER;
    var done;
    p := 3;
    done, r, n := Split(3, m, r, n);
    if done { return 3; }
    done, r, n := Split(5, m, r, n);
    if done { return 5; }
    done, r, n := Split(17, m, r, n);
    if done { return 17; }
    done, r, n := Split(257, m, r, n);
    if done { return 257; }
    done, r, n := Split(65537, m, r, n);
    if done { return 65537; }
    OneFactor(m, r);
  }

  lemma OneFactor(m: nat, r: nat)
    requires m * r == 1
    ensures m == 1
  {
    if m > 1 && r >= 1 { Below(1, m, r, 0); }
  }

  /** A prime factor of a product is in the first factor or can be taken out of the second. */
  lemma Split(p: nat, m: nat, g: nat, n: nat) returns (done: bool, r: nat, q: nat)
    requires Prime(p) && m > 0 && m * g == n && n % p == 0
    ensures if done then Divides(p, m) else q == n / p && m * r == q
  {
    Multiple(n / p, p);
    PrimeDivides(p, m, g);
    r, q := 0, 0;
    done := *;
    if Divides(p, m) {
      done := true;
    } else {
      done := false;
      var k: nat :| g == k * p;
      r, q := k, n / p;
      Associate(m, k, p);
      Cancel(m * k, n / p, p);
    }
  }

  lemma Cancel(a: nat, b: nat, p: nat)
    requires p > 0 && a * p == b * p
    ensures a == b
  {
    if a < b { Below(a, b, p, 0); }
    if b < a { Below(b, a, p, 0); }
  }

  lemma Inverses()
    ensures Product(0x4134_7F99, 0xC134_7F99) == ONE
    ensures Product(0xBB97_AB84, 0x77A0_497D) == ONE
    ensures Product(0x2CE8_F30A, 0x0F32_1ACB) == ONE
    ensures Product(0xEE51_AB6F, 0xB5EB_4869) == ONE
    ensures Product(0x74FD_BC86, 0x7C8E_4569) == ONE
  {
    InverseThird();
    InverseFifth();
    InverseSeventeenth();
    InverseOf257();
    InverseOf65537();
    hide Product;
  }

  lemma InverseThird()
    ensures Product(0x4134_7F99, 0xC134_7F99) == ONE
  {
  }

  lemma InverseFifth()
    ensures Product(0xBB97_AB84, 0x77A0_497D) == ONE
  {
  }

  lemma InverseSeventeenth()
    ensures Product(0x2CE8_F30A, 0x0F32_1ACB) == ONE
  {
  }

  lemma InverseOf257()
    ensures Product(0xEE51_AB6F, 0xB5EB_4869) == ONE
  {
  }

  lemma InverseOf65537()
    ensures Product(0x74FD_BC86, 0x7C8E_4569) == ONE
  {
  }

  /** A power whose difference to the identity has an inverse moves every nonzero word. */
  lemma MovesAll(x: bv32, n: nat, c: bv32, inverse: bv32)
    requires x != 0 && Power(n) == c && Product(inverse, Xor(c, ONE)) == ONE
    ensures Steps(x, n) != x
  {
    hide Steps, Sum, Product, Power, Xor;
    if Steps(x, n) == x {
      StepsTimes(x, n);
      TimesOne(x);
      SumXor(x, c, ONE, 32);
      XorIdentity(x);
      var d := Xor(c, ONE);
      assert Times(x, d) == 0;
      TimesProduct(inverse, d);
      TimesCommutes(inverse, d);
      TimesAssociates(x, d, inverse);
      TimesCommutes(0, inverse);
      SumZero(inverse, 32);
      assert false;
    }
  }

  lemma PrimeQuotients(x: bv32, p: nat)
    requires x != 0 && p in {3, 5, 17, 257, 65537}
    ensures Steps(x, ORDER / p) != x
  {
    hide Steps, Power, Product;
    XorValues();
    Inverses();
    hide Xor;
    ThirdPower();
    FifthPower();
    SeventeenthPower();
    Of257Power();
    OrderPower();
    if p == 3 { MovesAll(x, ORDER / 3, 0x4134_7F99, 0x4134_7F99); }
    if p == 5 { MovesAll(x, ORDER / 5, 0xF7A0_497D, 0xBB97_AB84); }
    if p == 17 { MovesAll(x, ORDER / 17, 0x8F32_1ACB, 0x2CE8_F30A); }
    if p == 257 { MovesAll(x, ORDER / 257, 0x35EB_4869, 0xEE51_AB6F); }
    if p == 65537 { MovesAll(x, ORDER / 65537, 0xFC8E_4569, 0x74FD_BC86); }
  }

  lemma XorValues()
    ensures Xor(0x4134_7F99, ONE) == 0xC134_7F99
    ensures Xor(0xF7A0_497D, ONE) == 0x77A0_497D
    ensures Xor(0x8F32_1ACB, ONE) == 0x0F32_1ACB
    ensures Xor(0x35EB_4869, ONE) == 0xB5EB_4869
    ensures Xor(0xFC8E_4569, ONE) == 0x7C8E_4569
  {
  }

  /** Every nonzero register returns after 2^32 - 1 steps, and not sooner. */
  lemma FullPeriod(x: bv32, n: nat)
    requires x != 0
    ensures Steps(x, ORDER) == x
    ensures 0 < n < ORDER ==> Steps(x, n) != x
  {
    hide Steps, Power, Product, Times, Step;
    OrderPower();
    StepsTimes(x, ORDER);
    TimesOne(x);
    if 0 < n < ORDER && Steps(x, n) == x {
      var g := CommonPeriod(x, n, ORDER);
      var m: nat :| ORDER == m * g;
      SmallDivisor(g, n);
      assert m == 1 ==> m * g == g;
      var p := PrimeFactor(m, g);
      var k: nat :| m == k * p;
      PeriodMultiple(x, g, k);
      Associate(k, p, g);
      Associate(k, g, p);
      QuotientOf(k, g, p);
      PrimeQuotients(x, p);
      assert false;
    }
  }

  lemma SmallDivisor(g: nat, n: nat)
    requires Divides(g, n) && n > 0
    ensures g <= n
  {
    var k: nat :| n == k * g;
    if k > 1 { Below(1, k, g, 0); }
  }

  lemma QuotientOf(k: nat, g: nat, p: nat)
    requires p > 0 && (k * p) * g == ORDER
    ensures ORDER / p == k * g
  {
    Associate(k, p, g);
    Associate(p, k, g);
    Remainder(k * g, p);
    var q := ORDER / p;
    assert ORDER == (k * g) * p;
    Cancel(q, k * g, p);
  }

  /** A register met again after fewer than 2^32 - 1 steps was met after the same number of steps. */
  lemma StepsDistinct(x: bv32, m: nat, n: nat)
    requires x != 0 && m < n && n - m < ORDER
    ensures Steps(x, m) != Steps(x, n)
  {
    hide Steps;
    StepsAdd(x, m, n - m);
    StepsNonzero(x, m);
    FullPeriod(Steps(x, m), n - m);
  }

  /** The largest word is followed by the word three below it, but not for a long time. */
  lemma LargestApart(n: nat)
    requires n < 256_808_956
    ensures Steps(0xFFFF_FFFF, n) != 0xFFFF_FFFC
  {
    OfLargestPower();
    OfFourthPower();
    StepsAdd(ONE, 0x26BD_38C6, n);
    StepsDistinct(ONE, 0x26BD_38C6 + n, 0x360B_D0C2);
    hide Steps;
  }
}
