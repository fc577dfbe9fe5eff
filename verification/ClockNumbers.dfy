/** What the clock tree amounts to in numbers: registers, frequencies and wait states of every target. */
module ClockNumbers {
  import opened Words
  import opened ClockTree
  import opened ClockDriver

  /** PCLK1 in Hz. */
  function Pclk1(r: Regs): nat {
    Hclk(r) / Apb1Divisor(ConfigOf(r.cfgr).ppre1)
  }

  /** The configuration word of each target, as far as its fields go. */
  lemma TargetWords()
    ensures Wanted(External) == ConfigOf(0x0000_0001)
    ensures Wanted(Mhz24) == ConfigOf(0x0013_0002) && Wanted(Mhz36) == ConfigOf(0x001F_0002)
    ensures Wanted(Mhz48) == ConfigOf(0x0011_0402) && Wanted(Mhz56) == ConfigOf(0x0015_0402)
    ensures Wanted(Mhz72) == ConfigOf(0x001D_0402)
  {
  }

  lemma TargetDivisors()
    ensures Apb1Divisor(Wanted(External).ppre1) == 1
    ensures Apb1Divisor(Wanted(Mhz24).ppre1) == 1 && Apb1Divisor(Wanted(Mhz36).ppre1) == 1
    ensures Apb1Divisor(Wanted(Mhz48).ppre1) == 2 && Apb1Divisor(Wanted(Mhz56).ppre1) == 2
    ensures Apb1Divisor(Wanted(Mhz72).ppre1) == 2
  {
  }

  lemma ReachedClock(r: Regs, t: Target)
    requires t != Internal && Reached(r, t)
    ensures Hclk(r) == Frequency(t) && ConfigOf(r.cfgr) == Wanted(t) && WaitStates(r.acr) == Latency(t)
  {
    TargetMeets(t);
    hide OscillatorsOf, ConfigOf, WaitStates, Field, Source, Wanted, Latency, Selection, Within;
  }

  /** A bring-up that came to its end with the HSE started: HCLK, PCLK1, wait states and the configuration word. */
  lemma BringUpNumbers(r: Regs, t: Target)
    requires t != Internal && Result(r, t, true)
    ensures t == External ==> Hclk(r) == 8_000_000 && Pclk1(r) == 8_000_000 && WaitStates(r.acr) == 0
    ensures t == Mhz24 ==> Hclk(r) == 24_000_000 && Pclk1(r) == 24_000_000 && WaitStates(r.acr) == 0
    ensures t == Mhz36 ==> Hclk(r) == 36_000_000 && Pclk1(r) == 36_000_000 && WaitStates(r.acr) == 1
    ensures t == Mhz48 ==> Hclk(r) == 48_000_000 && Pclk1(r) == 24_000_000 && WaitStates(r.acr) == 1
    ensures t == Mhz56 ==> Hclk(r) == 56_000_000 && Pclk1(r) == 28_000_000 && WaitStates(r.acr) == 2
    ensures t == Mhz72 ==> Hclk(r) == 72_000_000 && Pclk1(r) == 36_000_000 && WaitStates(r.acr) == 2
    ensures Field(r.acr, 0x10) != 0 && r.sws == if t == External then 1 else 2
    ensures ConfigOf(r.cfgr) ==
            ConfigOf(match t case Internal => 0 case External => 0x0000_0001
                             case Mhz24 => 0x0013_0002 case Mhz36 => 0x001F_0002 case Mhz48 => 0x0011_0402
                             case Mhz56 => 0x0015_0402 case Mhz72 => 0x001D_0402)
    ensures OscillatorsOf(r.cr) == Oscillators(true, true, false, false, t != External)
  {
    ReachedClock(r, t);
    TargetDivisors();
    TargetWords();
    hide ConfigOf, WaitStates, Field, Wanted, Hclk, OscillatorsOf, Apb1Divisor;
  }

  /** Without the HSE, or for the target that needs none, the core stays at 8 MHz, undivided. */
  lemma FallbackNumbers(r: Regs, t: Target)
    requires Result(r, t, false)
    ensures Hclk(r) == 8_000_000 && Pclk1(r) == 8_000_000 && r.sws == 0 && ConfigOf(r.cfgr) == ConfigOf(0)
  {
    assert ConfigOf(0) == Config(0, 0, 0, false, false, 0);
    hide OscillatorsOf, WaitStates;
  }

  /** The counted reads and the deciding one: the HSE is given 1281 reads. */
  lemma StartupWindow(signals: nat -> Signals, start: nat)
    ensures HseStarts(signals, start) <==> exists t :: start <= t < start + 1281 && signals(t).hse
  {
  }

  /** The flash needs a wait state for every further 24 MHz; there are at most 72 MHz, and 36 MHz on APB1. */
  lemma LimitNumbers(c: Config)
    ensures FlashLimit(0) == 24_000_000 && FlashLimit(1) == 48_000_000 && FlashLimit(2) == 72_000_000
    ensures c.hpre == 0 && c.ppre1 == 0 ==> Apb1Limit(c) == 36_000_000
    ensures c.hpre == 0 && c.ppre1 == 0x400 ==> Apb1Limit(c) == 72_000_000
  {
  }

  lemma Apb1Divisors()
    ensures Apb1Divisor(0x000) == 1 && Apb1Divisor(0x100) == 1 && Apb1Divisor(0x200) == 1 && Apb1Divisor(0x300) == 1
    ensures Apb1Divisor(0x400) == 2 && Apb1Divisor(0x500) == 4 && Apb1Divisor(0x600) == 8 && Apb1Divisor(0x700) == 16
  {
  }

  /** In every safe state the core's source is running, PCLK1 is at most 36 MHz, and the system clock at most 24, 48 or
      72 MHz with 0, 1 or 2 wait states; no more wait states are needed. */
  lemma SafeNumbers(r: Regs)
    requires Safe(r)
    ensures Pclk1(r) <= 36_000_000
    ensures var f, wait := Source(ConfigOf(r.cfgr), r.sws), WaitStates(r.acr);
            (wait == 0 ==> f <= 24_000_000) && (wait == 1 ==> f <= 48_000_000) && f <= 72_000_000 && wait <= 2
    ensures (r.sws == 0 && r.hsiReady) || (r.sws == 1 && r.hseReady) || (r.sws == 2 && r.pllReady)
  {
    var c := ConfigOf(r.cfgr);
    LimitDivided(Source(c, r.sws), AhbDivisor(c.hpre), Apb1Divisor(c.ppre1));
    assert Source(c, r.sws) > 0;
    hide ConfigOf, OscillatorsOf, WaitStates, Source, AhbDivisor, Apb1Divisor;
  }

  lemma LimitDivided(f: nat, a: nat, b: nat)
    requires a > 0 && b > 0 && f <= 36_000_000 * a * b
    ensures f / a / b <= 36_000_000
  {
    var h := f / a;
    assert h * a <= f;
    if h > 36_000_000 * b { Larger(36_000_000 * b + 1, h, a); }
    var p := h / b;
    assert p * b <= h;
    if p > 36_000_000 { Larger(36_000_001, p, b); }
  }

  lemma Larger(x: nat, y: nat, m: nat)
    requires x <= y
    ensures x * m <= y * m
  {
  }

  /** Switching an oscillator off takes its ready flag away, and leaving it on keeps it. */
  lemma FlagsFall(r: Regs, v: bv32)
    ensures var w := WriteCr(r, v);
            w.cr == v && w.cfgr == r.cfgr && w.sws == r.sws && w.acr == r.acr && w.cir == r.cir &&
            (w.hsiReady <==> r.hsiReady && v & 0x1 != 0) && (w.hseReady <==> r.hseReady && v & 0x1_0000 != 0) &&
            (w.pllReady <==> r.pllReady && v & 0x100_0000 != 0)
  {
  }

  lemma WordFields(w: bv32)
    ensures w <= 0xFF && Field(w, SWS) == 0 ==> Recomputed(w) == 8_000_000
  {
  }

  /** The recomputed frequency for each value of the AHB prescaler, with the core on the HSI. */
  lemma PrescaledNumbers()
    ensures CoreClock(0x00) == 8_000_000 && CoreClock(0x70) == 8_000_000
    ensures CoreClock(0x80) == 4_000_000 && CoreClock(0x90) == 2_000_000
    ensures CoreClock(0xA0) == 1_000_000 && CoreClock(0xB0) == 500_000
    ensures CoreClock(0xC0) == 125_000 && CoreClock(0xD0) == 62_500
    ensures CoreClock(0xE0) == 31_250 && CoreClock(0xF0) == 15_625
  {
    Divided(0x00);
    Divided(0x70);
    Divided(0x80);
    Divided(0x90);
    Divided(0xA0);
    Divided(0xB0);
    Divided(0xC0);
    Divided(0xD0);
    Divided(0xE0);
    Divided(0xF0);
    Divisors();
    hide CoreClock, AhbDivisor;
  }

  lemma Divided(w: bv32)
    requires w & 0xF0 == w
    ensures CoreClock(w) == 8_000_000 / AhbDivisor(w)
  {
    WordFields(w);
    CoreClockDivides(w);
    assert ConfigOf(w).hpre == w && Field(w, SWS) == 0 && w <= 0xFF;
    hide ConfigOf, CoreClock, AhbDivisor, Recomputed;
  }

  lemma Divisors()
    ensures AhbDivisor(0x00) == 1 && AhbDivisor(0x70) == 1 && AhbDivisor(0x80) == 2 && AhbDivisor(0x90) == 4
    ensures AhbDivisor(0xA0) == 8 && AhbDivisor(0xB0) == 16 && AhbDivisor(0xC0) == 64 && AhbDivisor(0xD0) == 128
    ensures AhbDivisor(0xE0) == 256 && AhbDivisor(0xF0) == 512
  {
  }

  /** The recomputed frequency with the core on the HSE and on the PLL, undivided: half the HSI, the HSE and half of
      it, by the smallest, the middle and the largest factors. */
  lemma SourceNumbers()
    ensures CoreClock(0x04) == 8_000_000
    ensures CoreClock(0x0000_0008) == 8_000_000 && CoreClock(0x0038_0008) == 64_000_000
    ensures CoreClock(0x0011_0008) == 48_000_000 && CoreClock(0x001D_0408) == 72_000_000
    ensures CoreClock(0x0013_0008) == 24_000_000 && CoreClock(0x001F_0008) == 36_000_000
  {
    assert Shifted(HSI, 1) == 4_000_000 && Shifted(HSE, 1) == 4_000_000;
    MultiplierNumbers();
    hide Multiplier;
  }

  /** Each encoding stands for two more than its number; the hardware takes the largest for 16. */
  lemma MultiplierNumbers()
    ensures Multiplier(0x0000_0000) == 2 && Multiplier(0x0004_0000) == 3 && Multiplier(0x0008_0000) == 4
    ensures Multiplier(0x000C_0000) == 5 && Multiplier(0x0010_0000) == 6 && Multiplier(0x0014_0000) == 7
    ensures Multiplier(0x0018_0000) == 8 && Multiplier(0x001C_0000) == 9 && Multiplier(0x0020_0000) == 10
    ensures Multiplier(0x0024_0000) == 11 && Multiplier(0x0028_0000) == 12 && Multiplier(0x002C_0000) == 13
    ensures Multiplier(0x0030_0000) == 14 && Multiplier(0x0034_0000) == 15 && Multiplier(0x0038_0000) == 16
    ensures Factor(0x0038_0000) == Factor(0x003C_0000) == 16
  {
  }
}
