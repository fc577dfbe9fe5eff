/** Bring-up of the clock tree through its registers, and recomputation of the core frequency. */
module ClockDriver {
  import opened Words
  import opened ClockTree

  /** The hardware reported a started HSE at one of the reads from `start` up to `end`. */
  ghost predicate Started(signals: nat -> Signals, start: nat, end: nat) {
    exists t :: start <= t < end && signals(t).hse
  }

  /** The HSE shows up in the bounded wait that follows its enabling at time `start`: the counted reads and the
      one deciding read after them. */
  ghost predicate HseStarts(signals: nat -> Signals, start: nat) {
    Started(signals, start, start + HSE_STARTUP_TIMEOUT + 1)
  }

  /** The hardware reported a locked PLL at one of the reads from `start` up to `end`. */
  ghost predicate Locked(signals: nat -> Signals, start: nat, end: nat) {
    exists u :: start <= u < end && signals(u).pll
  }

  /** It was willing to switch at one of them. */
  ghost predicate Switched(signals: nat -> Signals, start: nat, end: nat) {
    exists u :: start <= u < end && signals(u).switch
  }

  /** The PLL, where it is used, and the switch come in time once the HSE is up at read `start`: a PLL is waited for
      from nine reads on, the switch from eight reads on or three after the lock. */
  ghost predicate Prompt(signals: nat -> Signals, t: Target, start: nat, deadline: nat) {
    if UsesPll(t) then exists lock :: start + 9 <= lock && signals(lock).pll && Switched(signals, lock + 3, deadline)
    else Switched(signals, start + 8, deadline)
  }

  ghost predicate Locks(signals: nat -> Signals, t: nat) {
    exists u :: t <= u && signals(u).pll
  }

  ghost predicate Switches(signals: nat -> Signals, t: nat) {
    exists u :: t <= u && signals(u).switch
  }

  /** However long it takes, the PLL locks and a switch to a ready source happens. */
  ghost predicate Responsive(signals: nat -> Signals) {
    forall t: nat :: Locks(signals, t) && Switches(signals, t)
  }

  /** With responsive hardware every wait comes to an end. */
  lemma ResponsiveIsPrompt(signals: nat -> Signals, t: Target, start: nat) returns (deadline: nat)
    requires Responsive(signals)
    ensures Prompt(signals, t, start, deadline)
  {
    assert Locks(signals, start + 9);
    var lock :| start + 9 <= lock && signals(lock).pll;
    assert Switches(signals, lock + 3);
    var switch :| lock + 3 <= switch && signals(switch).switch;
    deadline := switch + 1;
    assert Switched(signals, lock + 3, deadline);
  }

  // ---------------------------------------------------------------- accesses while the core is on the HSI

  lemma QuietAdvance(r: Regs, s: Signals)
    requires Quiet(r)
    ensures var n := Advance(r, s);
            Quiet(n) && n.cr == r.cr && n.cfgr == r.cfgr && n.cir == r.cir && n.acr == r.acr &&
            (n.hseReady <==> r.hseReady || (s.hse && OscillatorsOf(r.cr).hse)) &&
            (n.pllReady <==> r.pllReady || (s.pll && OscillatorsOf(r.cr).pll))
  {
    hide OscillatorsOf, ConfigOf, WaitStates;
  }

  lemma QuietWriteCr(r: Regs, w: bv32)
    requires Quiet(r) && OscillatorsOf(w).hsi
    requires OscillatorsOf(w).pll && ConfigOf(r.cfgr).fromHse ==> r.hseReady && OscillatorsOf(w).hse
    requires var o, p := OscillatorsOf(w), OscillatorsOf(r.cr); o.bypass == p.bypass || (!o.hse && !p.hse)
    ensures Quiet(WriteCr(r, w)) && Safe(WriteCr(r, w)) && Orderly(r, WriteCr(r, w))
  {
    hide OscillatorsOf, ConfigOf, WaitStates;
    QuietSafe(WriteCr(r, w));
  }

  lemma QuietWriteCfgr(r: Regs, w: bv32)
    requires Quiet(r) && ConfigOf(w).sw == 0
    requires var c, d := ConfigOf(w), ConfigOf(r.cfgr);
             !OscillatorsOf(r.cr).pll || (c.fromHse == d.fromHse && c.halved == d.halved && c.mull == d.mull)
    ensures Quiet(WriteCfgr(r, w)) && Safe(WriteCfgr(r, w)) && Orderly(r, WriteCfgr(r, w))
  {
    hide OscillatorsOf, ConfigOf, WaitStates;
    QuietSafe(WriteCfgr(r, w));
  }

  lemma QuietWriteAcr(r: Regs, w: bv32)
    requires Quiet(r) && (WaitStates(w) == 0 || WaitStates(w) == 1 || WaitStates(w) == 2)
    ensures Quiet(WriteAcr(r, w)) && Safe(WriteAcr(r, w)) && Orderly(r, WriteAcr(r, w))
  {
    hide OscillatorsOf, ConfigOf, WaitStates;
    QuietSafe(WriteAcr(r, w));
  }

  lemma QuietWriteCir(r: Regs, w: bv32)
    requires Quiet(r)
    ensures Quiet(WriteCir(r, w)) && Safe(WriteCir(r, w)) && Orderly(r, WriteCir(r, w))
  {
    hide OscillatorsOf, ConfigOf, WaitStates;
    QuietSafe(WriteCir(r, w));
  }

  // ---------------------------------------------------------------- the switch

  /** The registers describe target `t`, its source runs, and the switch is requested or done. */
  predicate Switching(r: Regs, t: Target) {
    ConfigOf(r.cfgr) == Wanted(t) && WaitStates(r.acr) == Latency(t) && Field(r.acr, PREFETCH) != 0 &&
    r.hsiReady && r.hseReady && SourceReady(r, Selection(t)) && (r.sws == 0 || r.sws == Selection(t)) &&
    OscillatorsOf(r.cr) == Oscillators(true, true, false, false, UsesPll(t))
  }

  /** Where a bring-up waits for ever when the hardware does not answer: for the lock of the PLL, or for the switch. */
  predicate Waiting(r: Regs, t: Target) {
    (UsesPll(t) && Quiet(r) && !r.pllReady && ConfigOf(r.cfgr).hpre == 0) || (Switching(r, t) && r.sws == 0)
  }

  /** Either way the core still runs from the HSI. */
  lemma WaitingClock(r: Regs, t: Target)
    requires Waiting(r, t)
    ensures Hclk(r) == HSI
  {
    TargetFields(t);
    hide ConfigOf, OscillatorsOf, WaitStates, Field, Wanted, Selection;
  }

  /** The core runs at the frequency of target `t`. */
  predicate Reached(r: Regs, t: Target) {
    Switching(r, t) && r.sws == Selection(t)
  }

  lemma SwitchingAdvance(r: Regs, t: Target, s: Signals)
    requires Switching(r, t)
    ensures Switching(Advance(r, s), t) && (Reached(r, t) || s.switch <==> Reached(Advance(r, s), t))
    ensures Advance(r, s).cir == r.cir
  {
    TargetMeets(t);
    hide OscillatorsOf, ConfigOf, WaitStates, Latency, Wanted, Field, Selection;
  }

  /** The value of the status field that the switch loop waits for. */
  function Awaited(t: Target): bv32 {
    if t == External then 0x04 else 0x08
  }

  lemma AwaitedReads(r: Regs, t: Target)
    requires t != Internal && (r.sws == 0 || r.sws == Selection(t))
    ensures Field(CfgrWord(r), SWS) == Awaited(t) <==> r.sws == Selection(t)
  {
    CfgrWordReads(r);
    var w := CfgrWord(r);
    assert Field(w, SWS) == 0x04 ==> Field(w, SWS) >> 2 == 1;
    assert Field(w, SWS) == 0x08 ==> Field(w, SWS) >> 2 == 2;
    SwsValues(w);
    hide CfgrWord, Field;
  }

  lemma SwsValues(w: bv32)
    ensures Field(w, SWS) >> 2 == 1 ==> Field(w, SWS) == 4
    ensures Field(w, SWS) >> 2 == 2 ==> Field(w, SWS) == 8
  {
  }

  lemma NotReached(r: Regs, t: Target)
    requires Switching(r, t) && t != Internal
    ensures Reached(r, t) <==> r.sws != 0
  {
    hide ConfigOf, OscillatorsOf, WaitStates, Field, Wanted, Latency;
  }

  lemma SwitchingReads(r: Regs, t: Target)
    requires t != Internal && Switching(r, t)
    ensures Field(CfgrWord(r), SWS) == Awaited(t) <==> Reached(r, t)
  {
    AwaitedReads(r, t);
    hide CfgrWord, Field, ConfigOf, OscillatorsOf;
  }

  /** The core still runs from the HSI; wait states, oscillators `o` and fields `c` are set for target `t`. */
  predicate Staged(r: Regs, t: Target, o: Oscillators, c: Config) {
    Quiet(r) && r.hseReady && OscillatorsOf(r.cr) == o && ConfigOf(r.cfgr) == c &&
    WaitStates(r.acr) == Latency(t) && Field(r.acr, PREFETCH) != 0
  }

  /** A state that no pending switch will change. */
  predicate Settled(r: Regs) {
    ConfigOf(r.cfgr).sw == r.sws
  }

  /** The recomputed frequency of a settled state is the real one unless the top PLL encoding is in use. */
  lemma UpdateExact(r: Regs, s: Signals)
    requires Safe(r) && Settled(r)
    ensures CoreClock(CfgrWord(Advance(r, s))) == Hclk(r) <==> !TopEncoding(CfgrWord(r))
  {
    SettledWord(r, s);
    CoreClockExact(CfgrWord(r));
    hide Safe, CfgrWord, CoreClock, ConfigOf, AhbDivisor, TopEncoding, Advance, Sysclk, Source;
  }

  lemma SettledWord(r: Regs, s: Signals)
    requires Safe(r) && Settled(r)
    ensures CfgrWord(Advance(r, s)) == CfgrWord(r) && Hclk(r) == Hclk(Advance(r, s))
    ensures Sysclk(CfgrWord(r)) == Source(ConfigOf(r.cfgr), r.sws) && ConfigOf(CfgrWord(r)) == ConfigOf(r.cfgr)
  {
    hide Safe, ConfigOf, Source, AhbDivisor, Advance, Factor, Settled;
    SettledAdvance(r, s);
    CfgrWordReads(r);
    SameWord(r, Advance(r, s));
    hide CfgrWord;
  }

  lemma SameWord(r: Regs, n: Regs)
    requires r.cfgr == n.cfgr && r.sws == n.sws
    ensures CfgrWord(r) == CfgrWord(n)
  {
    hide WithStatus;
  }

  lemma SettledAdvance(r: Regs, s: Signals)
    requires Safe(r) && Settled(r)
    ensures Advance(r, s).cfgr == r.cfgr && Advance(r, s).sws == r.sws == r.sws & 3
  {
    assert r.sws == 0 || r.sws == 1 || r.sws == 2;
    hide OscillatorsOf, ConfigOf, Within, WaitStates;
  }

  /** The PLL multiplying half the HSI by its top encoding: the core runs at 64 MHz, the recomputed value is 68 MHz. */
  lemma TopEncodingExample(s: Signals)
    ensures var r := Regs(0x0100_0081, 0x003C_0402, 0, 0x12, true, false, true, 2);
            Safe(r) && Settled(r) && Hclk(r) == 64_000_000 && CoreClock(CfgrWord(Advance(r, s))) == 68_000_000
  {
    var r := Regs(0x0100_0081, 0x003C_0402, 0, 0x12, true, false, true, 2);
    assert Safe(r) && Settled(r);
    SettledWord(r, s);
    var w := CfgrWord(r);
    assert w == 0x003C_040A && TopEncoding(w);
    RecomputedSource(w);
    CoreClockDivides(w);
  }

  /** After bring-up: the frequency asked for if the HSE came up, the internal oscillator's otherwise. */
  predicate Result(r: Regs, t: Target, started: bool) {
    if t != Internal && started then Reached(r, t)
    else Quiet(r) && ConfigOf(r.cfgr) == ConfigOf(0)
  }

  /** What the core then runs at, and what recomputing the frequency then yields, whatever the hardware does. */
  lemma UpdateAfterInit(r: Regs, t: Target, started: bool, s: Signals)
    requires Result(r, t, started) && Safe(r)
    ensures Hclk(r) == if started then Frequency(t) else HSI
    ensures CoreClock(CfgrWord(Advance(r, s))) == Hclk(r)
  {
    TargetMeets(t);
    TargetFields(t);
    CfgrWordReads(r);
    assert Settled(r);
    assert ConfigOf(CfgrWord(r)).mull != 0x003C_0000 by { TargetNotTop(t); }
    assert !TopEncoding(CfgrWord(r));
    UpdateExact(r, s);
    hide ConfigOf, OscillatorsOf, WaitStates, Field, CfgrWord, Source, CoreClock, Wanted, Selection, TopEncoding, Safe;
  }

  lemma TargetNotTop(t: Target)
    ensures Wanted(t).mull != 0x003C_0000
  {
  }

  // ---------------------------------------------------------------- reset

  /** The state after reset is quiet, with everything off that a bring-up needs to find off. */
  lemma ResetQuiet(r: Regs)
    requires r == Regs(0x0000_0083, 0, 0, 0x0000_0030, true, false, false, 0)
    ensures Quiet(r) && Safe(r)
  {
    QuietSafe(r);
  }

  lemma AppendSound(run: seq<Regs>, r: Regs)
    requires Sound(run) && run != [] && Safe(r) && Orderly(run[|run| - 1], r)
    ensures Sound(run + [r])
  {
    hide Safe, Orderly;
  }

  lemma SoundLast(run: seq<Regs>)
    requires Sound(run) && run != []
    ensures Safe(run[|run| - 1])
  {
  }

  lemma LatencyValues(t: Target)
    ensures Latency(t) == 0 || Latency(t) == 1 || Latency(t) == 2
  {
  }

  lemma RequestOrderly(a: Regs, b: Regs)
    requires a.cr == b.cr && ConfigOf(b.cfgr) == ConfigOf(a.cfgr).(sw := ConfigOf(b.cfgr).sw)
    ensures Orderly(a, b)
  {
    hide ConfigOf, OscillatorsOf;
  }

  lemma NoPll(t: Target)
    requires !UsesPll(t)
    ensures Wanted(t).(sw := 0) == ConfigOf(Apb1Bits(t))
  {
  }

  lemma ClearedConfig(c: Config)
    ensures ConfigAnd(ConfigAnd(c, 0xF8FF_0000), 0xFF80_FFFF) == ConfigOf(0)
  {
  }

  lemma FirstRead(r: Regs, w: bv32)
    requires w == CfgrWord(r)
    ensures ConfigOf(r.cfgr) == ConfigOf(w) && CoreClock(w) < 0x1_0000_0000
  {
    CfgrWordReads(r);
    CoreClockExact(w);
    hide CoreClock, ConfigOf, CfgrWord;
  }

  /** A later read of RCC_CFGR may show another source, but the same setup. */
  lemma ReadAgain(r: Regs, s: Signals, first: bv32)
    requires ConfigOf(r.cfgr) == ConfigOf(first)
    ensures var n := Advance(r, s); var w := CfgrWord(n);
            ConfigOf(n.cfgr) == ConfigOf(first) && Field(w, PLL_MULL) == Field(first, PLL_MULL) &&
            Field(w, HPRE) == Field(first, HPRE) && (Field(w, PLL_SRC) == 0 <==> Field(first, PLL_SRC) == 0) &&
            (Field(w, PLL_XTPRE) == 0 <==> Field(first, PLL_XTPRE) == 0)
  {
    CfgrWordReads(Advance(r, s));
    assert Advance(r, s).cfgr == r.cfgr;
    hide CfgrWord, Field, Advance;
  }

  lemma SlowerPrompt(signals: nat -> Signals, t: Target, start: nat, later: nat, deadline: nat)
    requires start <= later
    ensures Prompt(signals, t, later, deadline) ==> Prompt(signals, t, start, deadline)
  {
    Earlier(signals, start + 8, later + 8, deadline);
    hide Switched;
  }

  lemma Earlier(signals: nat -> Signals, early: nat, start: nat, end: nat)
    requires early <= start
    ensures Locked(signals, start, end) ==> Locked(signals, early, end)
    ensures Switched(signals, start, end) ==> Switched(signals, early, end)
  {
  }

  lemma Later(signals: nat -> Signals, start: nat, end: nat, later: nat)
    requires end <= later
    ensures Locked(signals, start, end) ==> Locked(signals, start, later)
    ensures Switched(signals, start, end) ==> Switched(signals, start, later)
  {
  }

  /** Prompt hardware locks the PLL while it is waited for, and leaves time for the switch. */
  lemma LockedInTime(signals: nat -> Signals, t: Target, start: nat, end: nat, deadline: nat)
    requires UsesPll(t) && Prompt(signals, t, start, deadline)
    requires end > start + 9 && forall u :: start + 9 <= u < end - 1 ==> !signals(u).pll
    requires Locked(signals, start + 9, end) || end >= deadline
    ensures Locked(signals, start + 9, end) && Switched(signals, end + 2, deadline)
  {
    var lock :| start + 9 <= lock && signals(lock).pll && Switched(signals, lock + 3, deadline);
    assert lock >= end - 1;
    Earlier(signals, end + 2, lock + 3, deadline);
  }

  lemma StagedWaits(r: Regs, t: Target, o: Oscillators, c: Config)
    requires UsesPll(t) && Staged(r, t, o, c) && !r.pllReady && c.hpre == 0
    ensures Waiting(r, t)
  {
    hide ConfigOf, OscillatorsOf, WaitStates, Field;
  }

  class Rcc {
    const signals: nat -> Signals
    var r: Regs
    /** Number of register reads so far. */
    var time: nat
    var systemCoreClock: nat
    /** All register states so far. */
    ghost var run: seq<Regs>

    ghost predicate Valid()
      reads this
    {
      run != [] && run[|run| - 1] == r && Sound(run)
    }

    /** Out of reset; the frequency variable already holds the value it is going to be right for. */
    constructor (target: Target, signals: nat -> Signals)
      ensures Valid() && Quiet(r) && this.signals == signals && time == 0
      ensures systemCoreClock == Frequency(target)
    {
      this.signals := signals;
      r := Regs(0x0000_0083, 0, 0, 0x0000_0030, true, false, false, 0);
      time := 0;
      systemCoreClock := Frequency(target);
      run := [Regs(0x0000_0083, 0, 0, 0x0000_0030, true, false, false, 0)];
      ResetQuiet(Regs(0x0000_0083, 0, 0, 0x0000_0030, true, false, false, 0));
    }

    /** One register read: the hardware moves first. */
    method Observe()
      requires Valid()
      modifies this`r, this`time, this`run
      ensures Valid() && old(run) <= run && r == Advance(old(r), signals(old(time))) && time == old(time) + 1
    {
      hide Safe, Orderly, Advance, Sound;
      SoundLast(run);
      AdvanceSafe(r, signals(time));
      r := Advance(r, signals(time));
      AppendSound(run, r);
      run := run + [r];
      time := time + 1;
    }

    /** One register write; the new state has to be safe and the step orderly. */
    method Store(n: Regs)
      requires Valid() && Safe(n) && Orderly(r, n)
      modifies this`r, this`run
      ensures Valid() && old(run) <= run && r == n
    {
      hide Safe, Orderly, Sound;
      AppendSound(run, n);
      r := n;
      run := run + [r];
    }

    method ReadCr() returns (w: bv32)
      requires Valid()
      modifies this`r, this`time, this`run
      ensures Valid() && old(run) <= run && r == Advance(old(r), signals(old(time))) && time == old(time) + 1
      ensures w == CrWord(r)
    {
      hide Safe, Orderly, Sound, Advance, CrWord;
      Observe();
      w := CrWord(r);
    }

    method ReadCfgr() returns (w: bv32)
      requires Valid()
      modifies this`r, this`time, this`run
      ensures Valid() && old(run) <= run && r == Advance(old(r), signals(old(time))) && time == old(time) + 1
      ensures w == CfgrWord(r)
    {
      hide Safe, Orderly, Sound, Advance, CfgrWord;
      Observe();
      w := CfgrWord(r);
    }

    /** `RCC->CR |= m` while the core runs from the HSI. */
    method OrCr(m: bv32)
      requires Valid() && Quiet(r) && (m == HSI_ON || m == HSE_ON || m == PLL_ON)
      requires m == PLL_ON && ConfigOf(r.cfgr).fromHse ==> r.hseReady
      modifies this`r, this`time, this`run
      ensures Valid() && old(run) <= run && Quiet(r) && time == old(time) + 1
      ensures OscillatorsOf(r.cr) == OscillatorsOr(OscillatorsOf(old(r).cr), m)
      ensures r.cfgr == old(r).cfgr && r.acr == old(r).acr && r.cir == old(r).cir
      ensures old(r).hseReady ==> r.hseReady
      ensures !OscillatorsOf(old(r).cr).hse ==> !r.hseReady
      ensures !OscillatorsOf(old(r).cr).pll ==> !r.pllReady
    {
      hide Safe, Orderly, Sound, Advance, CrWord, OscillatorsOf, ConfigOf, WaitStates, Or;
      QuietAdvance(r, signals(time));
      var w := ReadCr();
      CrWordReads(r);
      CrOr(w, m);
      QuietWriteCr(r, Or(w, m));
      Store(WriteCr(r, Or(w, m)));
    }

    /** `RCC->CR &= m` while the core runs from the HSI. */
    method AndCr(m: bv32)
      requires Valid() && Quiet(r) && (m == 0xFEF6_FFFF || m == 0xFFFB_FFFF)
      requires m == 0xFFFB_FFFF ==> !OscillatorsOf(r.cr).hse && !OscillatorsOf(r.cr).pll
      modifies this`r, this`time, this`run
      ensures Valid() && old(run) <= run && Quiet(r) && time == old(time) + 1
      ensures OscillatorsOf(r.cr) == OscillatorsAnd(OscillatorsOf(old(r).cr), m)
      ensures r.cfgr == old(r).cfgr && r.acr == old(r).acr && r.cir == old(r).cir
    {
      hide Safe, Orderly, Sound, Advance, CrWord, OscillatorsOf, ConfigOf, WaitStates, And;
      QuietAdvance(r, signals(time));
      var w := ReadCr();
      CrWordReads(r);
      CrAnd(w, m);
      QuietWriteCr(r, And(w, m));
      Store(WriteCr(r, And(w, m)));
    }

    /** `RCC->CFGR &= m` while the core runs from the HSI. */
    method AndCfgr(m: bv32)
      requires Valid() && Quiet(r) && (m == 0xF8FF_0000 || m == 0xFF80_FFFF || m == PLL_FIELDS || m == SW_FIELD)
      requires m == 0xFF80_FFFF || m == PLL_FIELDS ==> !OscillatorsOf(r.cr).pll
      modifies this`r, this`time, this`run
      ensures Valid() && old(run) <= run && Quiet(r) && time == old(time) + 1
      ensures ConfigOf(r.cfgr) == ConfigAnd(ConfigOf(old(r).cfgr), m)
      ensures r.cr == old(r).cr && r.acr == old(r).acr && r.cir == old(r).cir
      ensures old(r).hseReady ==> r.hseReady
      ensures old(r).pllReady ==> r.pllReady
    {
      hide Safe, Orderly, Sound, Advance, CfgrWord, OscillatorsOf, ConfigOf, WaitStates, And;
      QuietAdvance(r, signals(time));
      var w := ReadCfgr();
      CfgrWordReads(r);
      CfgrAnd(w, m);
      QuietWriteCfgr(r, And(w, m));
      Store(WriteCfgr(r, And(w, m)));
    }

    /** `RCC->CFGR |= m` while the core stays on the HSI. */
    method OrCfgr(m: bv32)
      requires Valid() && Quiet(r) && Separate(ConfigOf(r.cfgr), ConfigOf(m)) && ConfigOf(m).sw == 0
      requires (ConfigOf(m).mull == 0 && !ConfigOf(m).fromHse && !ConfigOf(m).halved) || !OscillatorsOf(r.cr).pll
      modifies this`r, this`time, this`run
      ensures Valid() && old(run) <= run && Quiet(r) && time == old(time) + 1
      ensures ConfigOf(r.cfgr) == Merge(ConfigOf(old(r).cfgr), ConfigOf(m))
      ensures r.cr == old(r).cr && r.acr == old(r).acr && r.cir == old(r).cir
      ensures old(r).hseReady ==> r.hseReady
    {
      hide Safe, Orderly, Sound, Advance, CfgrWord, OscillatorsOf, ConfigOf, WaitStates, Or;
      QuietAdvance(r, signals(time));
      var w := ReadCfgr();
      CfgrWordReads(r);
      CfgrOr(w, m);
      QuietWriteCfgr(r, Or(w, m));
      Store(WriteCfgr(r, Or(w, m)));
    }

    /** Prefetch buffer on, then the wait states of the target: `FLASH->ACR` is cleared and set. */
    method SetFlash(t: Target)
      requires Valid() && Quiet(r)
      modifies this`r, this`time, this`run
      ensures Valid() && old(run) <= run && Quiet(r) && time == old(time) + 3
      ensures WaitStates(r.acr) == Latency(t) && Field(r.acr, PREFETCH) != 0
      ensures r.cr == old(r).cr && r.cfgr == old(r).cfgr && r.cir == old(r).cir
      ensures old(r).hseReady ==> r.hseReady
    {
      hide Safe, Orderly, Sound, Advance, OscillatorsOf, ConfigOf, WaitStates, And, Or, Field;
      LatencyValues(t);
      PrefetchStays(r.acr, Latency(t));
      QuietAdvance(r, signals(time));
      Observe();
      AcrPrefetch(r.acr);
      QuietWriteAcr(r, Or(r.acr, PREFETCH));
      Store(WriteAcr(r, Or(r.acr, PREFETCH)));
      QuietAdvance(r, signals(time));
      Observe();
      AcrCleared(r.acr);
      QuietWriteAcr(r, And(r.acr, 0xFFFF_FFFC));
      Store(WriteAcr(r, And(r.acr, 0xFFFF_FFFC)));
      QuietAdvance(r, signals(time));
      Observe();
      AcrLatency(r.acr, t);
      QuietWriteAcr(r, Or(r.acr, Latency(t)));
      Store(WriteAcr(r, Or(r.acr, Latency(t))));
    }

    /** The bounded wait for the HSE and the read that decides. */
    method AwaitHse() returns (ready: bool)
      requires Valid() && Quiet(r) && OscillatorsOf(r.cr).hse && !r.hseReady
      modifies this`r, this`time, this`run
      ensures Valid() && old(run) <= run && Quiet(r)
      ensures ready == r.hseReady == HseStarts(signals, old(time))
      ensures r.cr == old(r).cr && r.cfgr == old(r).cfgr && r.acr == old(r).acr && r.cir == old(r).cir
      ensures old(time) < time <= old(time) + HSE_STARTUP_TIMEOUT + 1
    {
      hide Safe, Orderly, Sound, Advance, OscillatorsOf, ConfigOf, WaitStates, CrWord, Field, Quiet;
      var counter, hseStatus := 0, 0 as bv32;
      while true
        invariant Valid() && old(run) <= run && Quiet(r)
        invariant counter < HSE_STARTUP_TIMEOUT && time == old(time) + counter
        invariant r.cr == old(r).cr && r.cfgr == old(r).cfgr && r.acr == old(r).acr && r.cir == old(r).cir
        invariant !r.hseReady && !Started(signals, old(time), time)
        decreases HSE_STARTUP_TIMEOUT - counter
      {
        QuietAdvance(r, signals(time));
        var w := ReadCr();
        CrWordReads(r);
        hseStatus := Field(w, HSE_READY);
        counter := counter + 1;
        if hseStatus != 0 || counter == HSE_STARTUP_TIMEOUT { break; }
      }
      QuietAdvance(r, signals(time));
      var w := ReadCr();
      CrWordReads(r);
      ready := Field(w, HSE_READY) != 0;
    }

    /** Wait for the lock of a running PLL, watched up to read `deadline`: the wait itself has no bound. */
    method AwaitPll(deadline: nat) returns (locked: bool)
      requires Valid() && Quiet(r) && OscillatorsOf(r.cr).pll && !r.pllReady
      modifies this`r, this`time, this`run
      ensures Valid() && old(run) <= run && Quiet(r)
      ensures locked == r.pllReady == Locked(signals, old(time), time) && (!locked ==> time >= deadline)
      ensures time > old(time) && forall u :: old(time) <= u < time - 1 ==> !signals(u).pll
      ensures r.cr == old(r).cr && r.cfgr == old(r).cfgr && r.acr == old(r).acr && r.cir == old(r).cir
      ensures old(r).hseReady ==> r.hseReady
    {
      hide Safe, Orderly, Sound, Advance, OscillatorsOf, ConfigOf, WaitStates, CrWord, Field, Quiet;
      QuietAdvance(r, signals(time));
      var w := ReadCr();
      CrWordReads(r);
      while Field(w, PLL_READY) == 0 && time < deadline
        invariant Valid() && old(run) <= run && Quiet(r) && time > old(time)
        invariant r.cr == old(r).cr && r.cfgr == old(r).cfgr && r.acr == old(r).acr && r.cir == old(r).cir
        invariant old(r).hseReady ==> r.hseReady
        invariant Field(w, PLL_READY) != 0 <==> r.pllReady
        invariant r.pllReady == signals(time - 1).pll && forall u :: old(time) <= u < time - 1 ==> !signals(u).pll
        decreases deadline - time
      {
        QuietAdvance(r, signals(time));
        w := ReadCr();
        CrWordReads(r);
      }
      locked := Field(w, PLL_READY) != 0;
    }

    /** Selecting the source of a configured target. */
    method RequestSwitch(t: Target)
      requires Valid() && Staged(r, t, Oscillators(true, true, false, false, UsesPll(t)), Wanted(t).(sw := 0))
      requires t != Internal && (UsesPll(t) ==> r.pllReady)
      modifies this`r, this`time, this`run
      ensures Valid() && old(run) <= run && Switching(r, t) && r.cir == old(r).cir
      ensures r.sws == 0 && time == old(time) + 2
    {
      hide Safe, Orderly, Sound, Advance, CfgrWord, OscillatorsOf, ConfigOf, WaitStates, And, Or, Field, Latency;
      hide Wanted;
      TargetFields(t);
      TargetMeets(t);
      AndCfgr(SW_FIELD);
      QuietAdvance(r, signals(time));
      var w := ReadCfgr();
      CfgrWordReads(r);
      CfgrOr(w, Selection(t));
      var n := WriteCfgr(r, Or(w, Selection(t)));
      SwitchSafe(n, t);
      RequestOrderly(r, n);
      Store(n);
    }

    /** Waiting until the selected source drives the core, watched up to read `deadline`. */
    method AwaitSwitch(t: Target, deadline: nat) returns (done: bool)
      requires Valid() && Switching(r, t) && t != Internal && r.sws == 0
      modifies this`r, this`time, this`run
      ensures Valid() && old(run) <= run && r.cir == old(r).cir && time > old(time)
      ensures done == Reached(r, t) == Switched(signals, old(time), time)
      ensures !done ==> Waiting(r, t) && time >= deadline
    {
      hide Safe, Orderly, Sound, Advance, CfgrWord, Field, Switching, Selection;
      ghost var start := time;
      NotReached(r, t);
      SwitchingAdvance(r, t, signals(time));
      var w := ReadCfgr();
      SwitchingReads(r, t);
      while Field(w, SWS) != Awaited(t) && time < deadline
        invariant Valid() && old(run) <= run && Switching(r, t) && r.cir == old(r).cir && time > start
        invariant Field(w, SWS) == Awaited(t) <==> Reached(r, t)
        invariant Reached(r, t) == signals(time - 1).switch && forall u :: start <= u < time - 1 ==> !signals(u).switch
        decreases deadline - time
      {
        SwitchingAdvance(r, t, signals(time));
        w := ReadCfgr();
        SwitchingReads(r, t);
      }
      done := Field(w, SWS) == Awaited(t);
      NotReached(r, t);
    }

    /** Flash and bus prescalers of a target, with the HSE up. */
    method SetBuses(t: Target)
      requires Valid() && Quiet(r) && r.hseReady && ConfigOf(r.cfgr) == ConfigOf(0)
      requires OscillatorsOf(r.cr) == Oscillators(true, true, false, false, false)
      modifies this`r, this`time, this`run
      ensures Valid() && old(run) <= run && r.cir == old(r).cir
      ensures Staged(r, t, Oscillators(true, true, false, false, false), ConfigOf(Apb1Bits(t)))
      ensures time == old(time) + 6
    {
      hide Safe, Orderly, Sound, OscillatorsOf, ConfigOf, WaitStates, Field, Latency, Apb1Bits, Quiet;
      TargetFields(t);
      SetFlash(t);
      OrCfgr(0);
      OrCfgr(0);
      OrCfgr(Apb1Bits(t));
    }

    /** PLL setup, then the PLL on and locked. */
    method StartPll(t: Target, deadline: nat) returns (locked: bool)
      requires Valid()
      requires Staged(r, t, Oscillators(true, true, false, false, false), ConfigOf(Apb1Bits(t)))
      modifies this`r, this`time, this`run
      ensures Valid() && old(run) <= run && r.cir == old(r).cir
      ensures locked == r.pllReady == Locked(signals, old(time) + 3, time) && (!locked ==> time >= deadline)
      ensures time > old(time) + 3 && forall u :: old(time) + 3 <= u < time - 1 ==> !signals(u).pll
      ensures Staged(r, t, Oscillators(true, true, false, false, true), Wanted(t).(sw := 0))
    {
      hide Safe, Orderly, Sound, OscillatorsOf, ConfigOf, WaitStates, Field, Latency, Wanted, Apb1Bits, PllBits, Quiet;
      TargetFields(t);
      AndCfgr(PLL_FIELDS);
      OrCfgr(PllBits(t));
      OrCr(PLL_ON);
      locked := AwaitPll(deadline);
    }

    /** The bring-up of one target, from the internal oscillator with everything else off. */
    method SetSysClock(t: Target, deadline: nat) returns (done: bool)
      requires Valid() && Quiet(r) && ConfigOf(r.cfgr) == ConfigOf(0)
      requires OscillatorsOf(r.cr) == Oscillators(true, false, false, false, false)
      modifies this`r, this`time, this`run
      ensures Valid() && old(run) <= run && r.cir == old(r).cir
      ensures done ==> Result(r, t, HseStarts(signals, old(time) + 1))
      ensures !done ==> Hangs(t, old(time) + 1, deadline)
      ensures Prompt(signals, t, old(time) + 1 + HSE_STARTUP_TIMEOUT + 1, deadline) ==> done
      ensures done && t != Internal && HseStarts(signals, old(time) + 1) ==> Answered(t, old(time))
    {
      hide Safe, Orderly, Sound, OscillatorsOf, ConfigOf, WaitStates, Quiet, Reached, HseStarts, Waiting, Locked;
      hide Switched;
      if t == Internal { return true; }
      OrCr(HSE_ON);
      var ready := AwaitHse();
      if !ready { return true; }
      SlowerPrompt(signals, t, time, old(time) + 1 + HSE_STARTUP_TIMEOUT + 1, deadline);
      ghost var start := time;
      done := RunFromHse(t, deadline);
      Earlier(signals, old(time), start, time);
    }

    /** The bring-up has not come to an end by read `deadline`, with the HSE started and the core on the HSI. */
    ghost predicate Hangs(t: Target, start: nat, deadline: nat)
      reads this
    {
      t != Internal && HseStarts(signals, start) && time >= deadline && Waiting(r, t) && Hclk(r) == HSI
    }

    /** The hardware has answered what the target waits for. */
    ghost predicate Answered(t: Target, start: nat)
      reads this
    {
      (UsesPll(t) ==> Locked(signals, start, time)) && Switched(signals, start, time)
    }

    /** Everything that follows the start of the HSE. */
    method RunFromHse(t: Target, deadline: nat) returns (done: bool)
      requires Valid() && Quiet(r) && r.hseReady && ConfigOf(r.cfgr) == ConfigOf(0) && t != Internal
      requires OscillatorsOf(r.cr) == Oscillators(true, true, false, false, false)
      modifies this`r, this`time, this`run
      ensures Valid() && old(run) <= run && r.cir == old(r).cir && time > old(time)
      ensures if done then Reached(r, t) && Answered(t, old(time))
              else Waiting(r, t) && Hclk(r) == HSI && time >= deadline
      ensures Prompt(signals, t, old(time), deadline) ==> done
    {
      hide Safe, Orderly, Sound, OscillatorsOf, ConfigOf, WaitStates, Field, Wanted, Apb1Bits, Quiet, Staged, Reached;
      hide Locked, Switched, Hclk, Switching, Prompt, Waiting;
      SetBuses(t);
      done := StartSource(t, deadline);
      ghost var waited := time;
      Earlier(signals, old(time), old(time) + 9, time);
      if done {
        RequestSwitch(t);
        done := AwaitSwitch(t, deadline);
        if time >= deadline { Later(signals, waited + 2, deadline, time); }
        Earlier(signals, old(time), waited + 2, time);
        Later(signals, old(time), waited, time);
      }
      if !done { WaitingClock(r, t); }
    }

    /** The PLL, if the target uses it; the HSE runs already. */
    method StartSource(t: Target, deadline: nat) returns (ready: bool)
      requires Valid() && t != Internal && time >= 6
      requires Staged(r, t, Oscillators(true, true, false, false, false), ConfigOf(Apb1Bits(t)))
      modifies this`r, this`time, this`run
      ensures Valid() && old(run) <= run && r.cir == old(r).cir && time >= old(time)
      ensures ready ==> Staged(r, t, Oscillators(true, true, false, false, UsesPll(t)), Wanted(t).(sw := 0))
      ensures ready && UsesPll(t) ==> r.pllReady && Locked(signals, old(time) + 3, time)
      ensures !ready ==> Waiting(r, t) && time >= deadline
      ensures Prompt(signals, t, old(time) - 6, deadline) ==> ready && Switched(signals, time + 2, deadline)
    {
      hide Safe, Orderly, Sound, OscillatorsOf, ConfigOf, WaitStates, Field, Wanted, Apb1Bits, Quiet, Staged;
      hide Locked, Switched, Waiting;
      ghost var start := time - 6;
      if UsesPll(t) {
        TargetFields(t);
        ready := StartPll(t, deadline);
        if Prompt(signals, t, start, deadline) { LockedInTime(signals, t, start, time, deadline); }
        if !ready { StagedWaits(r, t, Oscillators(true, true, false, false, true), Wanted(t).(sw := 0)); }
      } else {
        NoPll(t);
        ready := true;
      }
    }

    /** Bring-up from any state in which the core runs from the HSI and is not about to leave it, watched up to read
        `deadline` and safe all the way, whatever the hardware does.  It is done by then if the hardware is prompt; it
        is never done without the answers it waits for, and then it waits on the HSI. */
    method SystemInit(t: Target, deadline: nat) returns (done: bool)
      requires Valid() && Quiet(r)
      modifies this`r, this`time, this`run
      ensures Valid() && old(run) <= run && r.cir == 0
      ensures done ==> Result(r, t, HseStarts(signals, old(time) + 6))
      ensures done ==> Hclk(r) == if HseStarts(signals, old(time) + 6) then Frequency(t) else HSI
      ensures done && systemCoreClock == Frequency(t) ==>
                (systemCoreClock == Hclk(r) <==> HseStarts(signals, old(time) + 6) || Frequency(t) == HSI)
      ensures !done ==> Hangs(t, old(time) + 6, deadline)
      ensures Prompt(signals, t, old(time) + 6 + HSE_STARTUP_TIMEOUT + 1, deadline) ==> done
      ensures done && t != Internal && HseStarts(signals, old(time) + 6) ==> Answered(t, old(time) + 5)
    {
      hide Safe, Orderly, Sound, OscillatorsOf, ConfigOf, Quiet, Hclk, Result, HseStarts, CoreClock, Prompt, Waiting;
      hide Locked, Switched;
      ResetClocks();
      done := SetSysClock(t, deadline);
      if done {
        SoundLast(run);
        UpdateAfterInit(r, t, HseStarts(signals, old(time) + 6), signals(time));
      }
    }

    /** Everything back to its reset state, the PLL and the HSE off before their setup is touched. */
    method ResetClocks()
      requires Valid() && Quiet(r)
      modifies this`r, this`time, this`run
      ensures Valid() && old(run) <= run && Quiet(r) && r.cir == 0 && time == old(time) + 5
      ensures ConfigOf(r.cfgr) == ConfigOf(0)
      ensures OscillatorsOf(r.cr) == Oscillators(true, false, false, false, false)
    {
      hide Safe, Orderly, Sound, OscillatorsOf, ConfigOf, Field, WaitStates, Quiet, Advance;
      ClearedConfig(ConfigOf(r.cfgr));
      OrCr(HSI_ON);
      AndCfgr(0xF8FF_0000);
      AndCr(0xFEF6_FFFF);
      AndCr(0xFFFB_FFFF);
      AndCfgr(0xFF80_FFFF);
      QuietWriteCir(r, 0x009F_0000);
      Store(WriteCir(r, 0x009F_0000));
      assert r.cir == 0;
    }

    /** Reads the configuration anew for every field, as the hardware goes on meanwhile. */
    method SystemCoreClockUpdate()
      requires Valid()
      modifies this`r, this`time, this`run, this`systemCoreClock
      ensures Valid() && old(run) <= run
      ensures systemCoreClock == CoreClock(CfgrWord(Advance(old(r), signals(old(time)))))
      ensures systemCoreClock < 0x1_0000_0000
    {
      hide Safe, Orderly, Sound, Advance, CfgrWord, ConfigOf, Field, Shifted, Exponent, Recomputed;
      ghost var first := CfgrWord(Advance(r, signals(time)));
      FirstRead(Advance(r, signals(time)), first);
      systemCoreClock := ReadSource();
      ReadAgain(r, signals(time), first);
      var w := ReadCfgr();
      systemCoreClock := Shifted(systemCoreClock, Exponent(Field(w, HPRE)));
    }

    /** The frequency of the source seen at the first read. */
    method ReadSource() returns (f: nat)
      requires Valid()
      modifies this`r, this`time, this`run
      ensures Valid() && old(run) <= run
      ensures var first := CfgrWord(Advance(old(r), signals(old(time))));
              f == Recomputed(first) && ConfigOf(r.cfgr) == ConfigOf(first)
    {
      hide Safe, Orderly, Sound, Advance, CfgrWord, ConfigOf, Field, Shifted, Multiplier;
      var w := ReadCfgr();
      FirstRead(r, w);
      if Field(w, SWS) == 0x04 {
        f := HSE;
      } else if Field(w, SWS) == 0x08 {
        f := ReadPllClock(w);
      } else {
        f := HSI;
      }
    }

    /** The PLL case, for the setup seen in `first`. */
    method ReadPllClock(ghost first: bv32) returns (f: nat)
      requires Valid() && ConfigOf(r.cfgr) == ConfigOf(first) && Field(first, SWS) == 0x08
      modifies this`r, this`time, this`run
      ensures Valid() && old(run) <= run && ConfigOf(r.cfgr) == ConfigOf(first)
      ensures f == Recomputed(first)
    {
      hide Safe, Orderly, Sound, Advance, CfgrWord, ConfigOf, Field, Multiplier;
      ReadAgain(r, signals(time), first);
      var w := ReadCfgr();
      var pllmull := Field(w, PLL_MULL);
      ReadAgain(r, signals(time), first);
      w := ReadCfgr();
      var pllsource := Field(w, PLL_SRC);
      var factor := Multiplier(pllmull);
      ReadAgain(r, signals(time), first);
      if pllsource == 0 {
        f := Shifted(HSI, 1) * factor;
      } else {
        w := ReadCfgr();
        f := (if Field(w, PLL_XTPRE) != 0 then Shifted(HSE, 1) else HSE) * factor;
      }
      assert Shifted(HSI, 1) == 4_000_000 && Shifted(HSE, 1) == 4_000_000;
    }
  }

  /** Bring-up out of reset with an HSE that never starts, on hardware that answers everything else: what the core
      runs at, and what the variable says. */
  method NoHseExample(t: Target) returns (actual: nat, assumed: nat)
    ensures actual == HSI && assumed == Frequency(t)
    ensures actual == assumed <==> t == Internal || t == External
  {
    hide Prompt, Result, Hclk;
    var rcc := new Rcc(t, _ => Signals(false, true, true));
    assert !HseStarts(rcc.signals, 6);
    var done := rcc.SystemInit(t, 0);
    actual, assumed := Hclk(rcc.r), rcc.systemCoreClock;
  }
}
