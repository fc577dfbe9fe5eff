/** The clock tree of the device: registers, what hardware does on its own, and what must never be violated. */
module ClockTree {
  import opened Words

  /** Control bits of RCC_CR. */
  datatype Oscillators = Oscillators(hsi: bool, hse: bool, bypass: bool, css: bool, pll: bool)

  /** Control fields of RCC_CFGR: system clock switch, AHB and APB1 prescalers, PLL source, predivider, multiplier. */
  datatype Config = Config(sw: bv32, hpre: bv32, ppre1: bv32, fromHse: bool, halved: bool, mull: bv32)

  /** The control words as software wrote them, and the status flags that hardware drives. */
  datatype Regs = Regs(cr: bv32, cfgr: bv32, cir: bv32, acr: bv32,
                       hsiReady: bool, hseReady: bool, pllReady: bool, sws: bv32)

  /** What the hardware is willing to report at one register read. */
  datatype Signals = Signals(hse: bool, pll: bool, switch: bool)

  /** The variant chosen at build time. */
  datatype Target = Internal | External | Mhz24 | Mhz36 | Mhz48 | Mhz56 | Mhz72

  const HSI_ON: bv32 := 0x0000_0001
  const HSI_READY: bv32 := 0x0000_0002
  const HSE_ON: bv32 := 0x0001_0000
  const HSE_READY: bv32 := 0x0002_0000
  const HSE_BYPASS: bv32 := 0x0004_0000
  const CSS_ON: bv32 := 0x0008_0000
  const PLL_ON: bv32 := 0x0100_0000
  const PLL_READY: bv32 := 0x0200_0000

  const SW: bv32 := 0x0000_0003
  const SWS: bv32 := 0x0000_000C
  const HPRE: bv32 := 0x0000_00F0
  const PPRE1: bv32 := 0x0000_0700
  const PLL_SRC: bv32 := 0x0001_0000
  const PLL_XTPRE: bv32 := 0x0002_0000
  const PLL_MULL: bv32 := 0x003C_0000

  const PREFETCH: bv32 := 0x0000_0010

  const HSI: nat := 8_000_000
  const HSE: nat := 8_000_000
  const HSE_STARTUP_TIMEOUT: nat := 0x0500

  function OscillatorsOf(cr: bv32): Oscillators {
    Oscillators(Field(cr, HSI_ON) != 0, Field(cr, HSE_ON) != 0, Field(cr, HSE_BYPASS) != 0,
                Field(cr, CSS_ON) != 0, Field(cr, PLL_ON) != 0)
  }

  /** The fields stay in their places. */
  function ConfigOf(cfgr: bv32): Config {
    Config(Field(cfgr, SW), Field(cfgr, HPRE), Field(cfgr, PPRE1),
           Field(cfgr, PLL_SRC) != 0, Field(cfgr, PLL_XTPRE) != 0, Field(cfgr, PLL_MULL))
  }

  /** The three-bit wait state field of FLASH_ACR. */
  function WaitStates(acr: bv32): bv32 {
    Field(acr, 7)
  }

  // ---------------------------------------------------------------- hardware

  function Bit(b: bool, mask: bv32): bv32 {
    if b then mask else 0
  }

  /** The word a read of RCC_CR delivers. */
  function CrWord(r: Regs): bv32 {
    (r.cr & !(HSI_READY | HSE_READY | PLL_READY)) |
    Bit(r.hsiReady, HSI_READY) | Bit(r.hseReady, HSE_READY) | Bit(r.pllReady, PLL_READY)
  }

  /** The word a read of RCC_CFGR delivers. */
  function CfgrWord(r: Regs): bv32 {
    WithStatus(r.cfgr, r.sws)
  }

  function WithStatus(cfgr: bv32, sws: bv32): bv32 {
    (cfgr & !SWS) | ((sws & 3) << 2)
  }

  /** Status flags ignore writes; a ready flag falls with its enable bit. */
  function WriteCr(r: Regs, v: bv32): Regs {
    var o := OscillatorsOf(v);
    r.(cr := v, hsiReady := r.hsiReady && o.hsi, hseReady := r.hseReady && o.hse, pllReady := r.pllReady && o.pll)
  }

  function WriteCfgr(r: Regs, v: bv32): Regs {
    r.(cfgr := v)
  }

  /** Only the enable bits are stored; the high bits acknowledge pending flags. */
  function WriteCir(r: Regs, v: bv32): Regs {
    r.(cir := v & 0x0000_1F00)
  }

  function WriteAcr(r: Regs, v: bv32): Regs {
    r.(acr := v)
  }

  /** The source that a value of the switch field stands for can drive the core. */
  predicate SourceReady(r: Regs, sw: bv32) {
    (sw == 0 && r.hsiReady) || (sw == 1 && r.hseReady) || (sw == 2 && r.pllReady)
  }

  /** Between two accesses an enabled oscillator may become ready and a requested switch may happen. */
  function Advance(r: Regs, s: Signals): Regs {
    var o := OscillatorsOf(r.cr);
    var n := r.(hseReady := r.hseReady || (s.hse && o.hse), pllReady := r.pllReady || (s.pll && o.pll));
    var sw := ConfigOf(r.cfgr).sw;
    if s.switch && SourceReady(n, sw) then n.(sws := sw) else n
  }

  // ---------------------------------------------------------------- frequencies

  /** PLL multiplication by its encoding; the two largest encodings both stand for 16. */
  function Factor(mull: bv32): nat {
    if mull == 0x003C_0000 then 16 else Multiplier(mull)
  }

  /** The multiplier field as a number; 0 stands for 2. */
  function Multiplier(mull: bv32): nat {
    (mull >> 18) as nat + 2
  }

  function Product(input: nat, factor: nat): nat {
    input * factor
  }

  function PllInput(c: Config): nat {
    if !c.fromHse then HSI / 2 else if c.halved then HSE / 2 else HSE
  }

  /** Frequency of a source, in the encoding of the switch field. */
  function Source(c: Config, sw: bv32): nat {
    if sw == 1 then HSE else if sw == 2 then Product(PllInput(c), Factor(c.mull)) else HSI
  }

  function AhbDivisor(hpre: bv32): nat {
    if hpre == 0x80 then 2 else if hpre == 0x90 then 4 else if hpre == 0xA0 then 8 else if hpre == 0xB0 then 16
    else if hpre == 0xC0 then 64 else if hpre == 0xD0 then 128
    else if hpre == 0xE0 then 256 else if hpre == 0xF0 then 512 else 1
  }

  function Apb1Divisor(ppre1: bv32): nat {
    if ppre1 == 0x400 then 2 else if ppre1 == 0x500 then 4 else if ppre1 == 0x600 then 8
    else if ppre1 == 0x700 then 16 else 1
  }

  /** Fastest system clock the flash can serve with these wait states. */
  function FlashLimit(wait: bv32): nat {
    if wait == 0 then 24_000_000 else if wait == 1 then 48_000_000 else if wait == 2 then 72_000_000 else 0
  }

  /** Fastest system clock for which the prescalers keep PCLK1 within its 36 MHz. */
  function Apb1Limit(c: Config): (n: nat)
    ensures n >= 36_000_000
  {
    36_000_000 * AhbDivisor(c.hpre) * Apb1Divisor(c.ppre1)
  }

  /** HCLK in Hz. */
  function Hclk(r: Regs): nat {
    var c := ConfigOf(r.cfgr);
    Source(c, r.sws) / AhbDivisor(c.hpre)
  }

  // ---------------------------------------------------------------- safety

  predicate Within(c: Config, wait: bv32, sw: bv32) {
    Source(c, sw) <= FlashLimit(wait) && Source(c, sw) <= Apb1Limit(c)
  }

  /** The core is driven by a running source inside the limits of flash and APB1, a pending switch would stay
      inside them too, and the PLL only runs from a stable input. */
  predicate Safe(r: Regs) {
    var c, o := ConfigOf(r.cfgr), OscillatorsOf(r.cr);
    SourceReady(r, r.sws) && Within(c, WaitStates(r.acr), r.sws) && Within(c, WaitStates(r.acr), c.sw) &&
    (o.pll ==> if c.fromHse then r.hseReady else r.hsiReady) &&
    (r.hseReady ==> o.hse) && (r.pllReady ==> o.pll)
  }

  /** The PLL setup changes only while the PLL is off, the HSE bypass only while the HSE is off. */
  predicate Orderly(a: Regs, b: Regs) {
    var c, d, o, p := ConfigOf(a.cfgr), ConfigOf(b.cfgr), OscillatorsOf(a.cr), OscillatorsOf(b.cr);
    ((c.fromHse == d.fromHse && c.halved == d.halved && c.mull == d.mull) || (!o.pll && !p.pll)) &&
    (o.bypass == p.bypass || (!o.hse && !p.hse))
  }

  /** Every state of a run is safe and every step between two of them is orderly. */
  ghost predicate Sound(run: seq<Regs>) {
    (forall k :: 0 <= k < |run| ==> Safe(run[k])) &&
    (forall k :: 0 < k < |run| ==> Orderly(run[k - 1], run[k]))
  }

  /** Whatever the hardware does on its own is safe once the software left a safe state. */
  lemma AdvanceSafe(r: Regs, s: Signals)
    requires Safe(r)
    ensures Safe(Advance(r, s)) && Orderly(r, Advance(r, s))
  {
    hide Within, ConfigOf, OscillatorsOf, WaitStates;
  }

  /** The core runs from the internal oscillator and will stay on it. */
  predicate Quiet(r: Regs) {
    var c, o := ConfigOf(r.cfgr), OscillatorsOf(r.cr);
    c.sw == 0 && r.sws == 0 && r.hsiReady && o.hsi &&
    (WaitStates(r.acr) == 0 || WaitStates(r.acr) == 1 || WaitStates(r.acr) == 2) &&
    (o.pll ==> if c.fromHse then r.hseReady else r.hsiReady) &&
    (r.hseReady ==> o.hse) && (r.pllReady ==> o.pll)
  }

  lemma QuietSafe(r: Regs)
    requires Quiet(r)
    ensures Safe(r)
  {
    assert Source(ConfigOf(r.cfgr), 0) == HSI;
    hide ConfigOf, OscillatorsOf, WaitStates, Apb1Limit, Source;
  }

  // ---------------------------------------------------------------- targets

  function Frequency(t: Target): nat {
    match t
    case Internal => HSI
    case External => HSE
    case Mhz24 => 24_000_000
    case Mhz36 => 36_000_000
    case Mhz48 => 48_000_000
    case Mhz56 => 56_000_000
    case Mhz72 => 72_000_000
  }

  function Latency(t: Target): bv32 {
    match t
    case Mhz36 | Mhz48 => 1
    case Mhz56 | Mhz72 => 2
    case _ => 0
  }

  function Apb1Bits(t: Target): bv32 {
    match t
    case Mhz48 | Mhz56 | Mhz72 => 0x0000_0400
    case _ => 0
  }

  /** Source, predivider and multiplier bits. */
  function PllBits(t: Target): bv32 {
    match t
    case Mhz24 => PLL_SRC | PLL_XTPRE | 0x0010_0000
    case Mhz36 => PLL_SRC | PLL_XTPRE | 0x001C_0000
    case Mhz48 => PLL_SRC | 0x0010_0000
    case Mhz56 => PLL_SRC | 0x0014_0000
    case Mhz72 => PLL_SRC | 0x001C_0000
    case _ => 0
  }

  function Selection(t: Target): bv32 {
    match t
    case Internal => 0
    case External => 1
    case _ => 2
  }

  predicate UsesPll(t: Target) {
    t != Internal && t != External
  }

  /** The fields a target must end up with. */
  function Wanted(t: Target): Config {
    ConfigOf(Apb1Bits(t) | PllBits(t) | Selection(t))
  }

  /** The bits chosen for a target mean its frequency, which meets every limit with its wait states. */
  lemma TargetMeets(t: Target)
    ensures Source(Wanted(t), Selection(t)) == Frequency(t) && AhbDivisor(Wanted(t).hpre) == 1
    ensures Within(Wanted(t), Latency(t), Selection(t)) && Wanted(t).sw == Selection(t)
    ensures Within(Wanted(t), Latency(t), 0)
  {
  }

  /** Selecting the source of a configured target is safe as soon as that source is ready. */
  lemma SwitchSafe(r: Regs, t: Target)
    requires ConfigOf(r.cfgr) == Wanted(t) && WaitStates(r.acr) == Latency(t) && r.sws == 0 && r.hsiReady && r.hseReady
    requires OscillatorsOf(r.cr).hse && (r.pllReady ==> OscillatorsOf(r.cr).pll)
    ensures Safe(r)
  {
    TargetMeets(t);
    hide ConfigOf, OscillatorsOf, Wanted, Within, Latency, Selection;
  }

  // ---------------------------------------------------------------- recomputing the frequency

  /** The exponents of the AHB prescaler table. */
  function AhbPrescTable(i: bv32): (e: nat)
    ensures e <= 9
  {
    if i == 8 then 1 else if i == 9 then 2 else if i == 10 then 3 else if i == 11 then 4 else if i == 12 then 6
    else if i == 13 then 7 else if i == 14 then 8 else if i == 15 then 9 else 0
  }

  function Exponent(hpre: bv32): (e: nat)
    ensures e <= 9
  {
    AhbPrescTable(hpre >> 4)
  }

  /** `n >> e`. */
  function Shifted(n: nat, e: nat): nat {
    if e == 0 then n else Shifted(n / 2, e - 1)
  }

  /** System clock as the firmware recomputes it from the word `w` of RCC_CFGR. */
  function Recomputed(w: bv32): nat {
    if Field(w, SWS) == 0x4 then HSE
    else if Field(w, SWS) == 0x8 then
      var pllmull := Multiplier(Field(w, PLL_MULL));
      if Field(w, PLL_SRC) == 0 then Shifted(HSI, 1) * pllmull
      else if Field(w, PLL_XTPRE) != 0 then Shifted(HSE, 1) * pllmull
      else HSE * pllmull
    else HSI
  }

  function CoreClock(w: bv32): nat {
    Shifted(Recomputed(w), Exponent(Field(w, HPRE)))
  }

  /** 2 to the power of a shift of at most nine places. */
  function Power(e: nat): nat {
    if e == 0 then 1 else if e == 1 then 2 else if e == 2 then 4 else if e == 3 then 8 else if e == 4 then 16
    else if e == 5 then 32 else if e == 6 then 64 else if e == 7 then 128 else if e == 8 then 256 else 512
  }

  lemma {:induction false} ShiftDivides(n: nat, e: nat)
    requires e <= 9
    ensures Shifted(n, e) == n / Power(e)
  {
    if e > 0 { ShiftDivides(n / 2, e - 1); }
  }

  lemma PrescalerExact(hpre: bv32)
    requires Field(hpre, HPRE) == hpre
    ensures Power(Exponent(hpre)) == AhbDivisor(hpre)
  {
  }

  /** The one register content for which the recomputed system clock is wrong. */
  predicate TopEncoding(w: bv32) {
    Field(w, SWS) == 0x8 && Field(w, PLL_MULL) == 0x003C_0000
  }

  /** System clock by the meaning of the fields. */
  function Sysclk(w: bv32): nat {
    Source(ConfigOf(w), Field(w, SWS) >> 2)
  }

  lemma SmallField(m: bv32)
    requires m <= 15
    ensures m as nat <= 15
    ensures m == 15 ==> m as nat == 15
  {
    assert m == 0 || m == 1 || m == 2 || m == 3 || m == 4 || m == 5 || m == 6 || m == 7 ||
           m == 8 || m == 9 || m == 10 || m == 11 || m == 12 || m == 13 || m == 14 || m == 15;
  }

  lemma SourceBits(w: bv32)
    ensures (w & SWS) >> 2 ==
            (if w & SWS == 0x4 then 1 else if w & SWS == 0x8 then 2 else if w & SWS == 0 then 0 else 3)
    ensures (w & PLL_MULL) >> 18 <= 15
  {
  }

  lemma RecomputedSource(w: bv32)
    ensures 4_000_000 <= PllInput(ConfigOf(w)) && Recomputed(w) <= 17 * HSE
    ensures !TopEncoding(w) ==> Recomputed(w) == Sysclk(w)
    ensures TopEncoding(w) ==> Recomputed(w) == PllInput(ConfigOf(w)) * 17 && Sysclk(w) == PllInput(ConfigOf(w)) * 16
  {
    SourceBits(w);
    SmallField((w & PLL_MULL) >> 18);
    assert Shifted(HSI, 1) == 4_000_000;
  }

  /** The recomputed clock is source times PLL factor divided by the AHB divisor, and fits a 32-bit variable, for
      every register content but one: the topmost PLL encoding is taken for 17 where the hardware multiplies by 16. */
  lemma CoreClockExact(w: bv32)
    ensures CoreClock(w) == Sysclk(w) / AhbDivisor(ConfigOf(w).hpre) <==> !TopEncoding(w)
    ensures CoreClock(w) <= 17 * HSE < 0x1_0000_0000
  {
    RecomputedSource(w);
    CoreClockDivides(w);
    assert 1 <= AhbDivisor(ConfigOf(w).hpre) <= 512;
    Differs(PllInput(ConfigOf(w)), AhbDivisor(ConfigOf(w).hpre));
    hide TopEncoding, AhbDivisor, Sysclk, Recomputed, PllInput, CoreClock, ConfigOf;
  }

  lemma CoreClockDivides(w: bv32)
    ensures CoreClock(w) == Recomputed(w) / AhbDivisor(ConfigOf(w).hpre)
  {
    ShiftDivides(Recomputed(w), Exponent(Field(w, HPRE)));
    FieldTwice(w, HPRE);
    PrescalerExact(Field(w, HPRE));
    hide AhbDivisor, Recomputed, Shifted, Exponent, Power;
  }

  lemma Differs(n: nat, d: nat)
    requires 512 <= n && 1 <= d <= 512
    ensures (n * 17) / d != (n * 16) / d
  {
    assert n * 16 == d * ((n * 16) / d) + (n * 16) % d;
    assert n * 17 == d * ((n * 17) / d) + (n * 17) % d;
  }

  // ---------------------------------------------------------------- what the masks do

  lemma CrWordReads(r: Regs)
    ensures OscillatorsOf(CrWord(r)) == OscillatorsOf(r.cr)
    ensures (Field(CrWord(r), HSE_READY) != 0 <==> r.hseReady) && (Field(CrWord(r), PLL_READY) != 0 <==> r.pllReady)
  {
  }

  lemma CfgrWordReads(r: Regs)
    ensures ConfigOf(CfgrWord(r)) == ConfigOf(r.cfgr)
    ensures Field(CfgrWord(r), SWS) >> 2 == r.sws & 3
  {
  }

  /** What clearing bits of RCC_CR with mask `m` means. */
  function OscillatorsAnd(o: Oscillators, m: bv32): Oscillators {
    if m == 0xFEF6_FFFF then o.(hse := false, css := false, pll := false) else o.(bypass := false)
  }

  lemma CrAnd(w: bv32, m: bv32)
    requires m == 0xFEF6_FFFF || m == 0xFFFB_FFFF
    ensures OscillatorsOf(And(w, m)) == OscillatorsAnd(OscillatorsOf(w), m)
  {
    FieldAnd(w, m, HSI_ON);
    FieldAnd(w, m, HSE_ON);
    FieldAnd(w, m, HSE_BYPASS);
    FieldAnd(w, m, CSS_ON);
    FieldAnd(w, m, PLL_ON);
    hide Field, And;
  }

  /** What setting one enable bit of RCC_CR means. */
  function OscillatorsOr(o: Oscillators, m: bv32): Oscillators {
    if m == HSI_ON then o.(hsi := true) else if m == HSE_ON then o.(hse := true) else o.(pll := true)
  }

  lemma CrOr(w: bv32, m: bv32)
    requires m == HSI_ON || m == HSE_ON || m == PLL_ON
    ensures OscillatorsOf(Or(w, m)) == OscillatorsOr(OscillatorsOf(w), m)
  {
    FlagOr(w, m, HSI_ON);
    FlagOr(w, m, HSE_ON);
    FlagOr(w, m, HSE_BYPASS);
    FlagOr(w, m, CSS_ON);
    FlagOr(w, m, PLL_ON);
    hide Or;
  }

  const PLL_FIELDS: bv32 := 0xFFC0_FFFF
  const SW_FIELD: bv32 := 0xFFFF_FFFC

  /** What clearing bits of RCC_CFGR with mask `m` means. */
  function ConfigAnd(c: Config, m: bv32): Config {
    if m == 0xF8FF_0000 then c.(sw := 0, hpre := 0, ppre1 := 0)
    else if m == SW_FIELD then c.(sw := 0)
    else c.(fromHse := false, halved := false, mull := 0)
  }

  lemma CfgrAnd(w: bv32, m: bv32)
    requires m == 0xF8FF_0000 || m == 0xFF80_FFFF || m == PLL_FIELDS || m == SW_FIELD
    ensures ConfigOf(And(w, m)) == ConfigAnd(ConfigOf(w), m)
  {
    FieldAnd(w, m, SW);
    FieldAnd(w, m, HPRE);
    FieldAnd(w, m, PPRE1);
    FieldAnd(w, m, PLL_SRC);
    FieldAnd(w, m, PLL_XTPRE);
    FieldAnd(w, m, PLL_MULL);
    hide Field, And;
  }

  /** Fields of two words without a common field put together. */
  function Merge(a: Config, b: Config): Config {
    Config(if b.sw == 0 then a.sw else b.sw, if b.hpre == 0 then a.hpre else b.hpre,
           if b.ppre1 == 0 then a.ppre1 else b.ppre1, a.fromHse || b.fromHse, a.halved || b.halved,
           if b.mull == 0 then a.mull else b.mull)
  }

  predicate Separate(a: Config, b: Config) {
    (a.sw == 0 || b.sw == 0) && (a.hpre == 0 || b.hpre == 0) && (a.ppre1 == 0 || b.ppre1 == 0) &&
    (a.mull == 0 || b.mull == 0)
  }

  /** Setting bits puts the fields together. */
  lemma CfgrOr(w: bv32, m: bv32)
    requires Separate(ConfigOf(w), ConfigOf(m))
    ensures ConfigOf(Or(w, m)) == Merge(ConfigOf(w), ConfigOf(m))
  {
    FieldOr(w, m, SW);
    FieldOr(w, m, HPRE);
    FieldOr(w, m, PPRE1);
    FlagOr(w, m, PLL_SRC);
    FlagOr(w, m, PLL_XTPRE);
    FieldOr(w, m, PLL_MULL);
    hide Field, Or;
  }

  /** The bits of a target set exactly its own fields, one group after the other. */
  lemma TargetFields(t: Target)
    ensures ConfigOf(Apb1Bits(t)) == Config(0, 0, Wanted(t).ppre1, false, false, 0)
    ensures ConfigOf(PllBits(t)) == Config(0, 0, 0, Wanted(t).fromHse, Wanted(t).halved, Wanted(t).mull)
    ensures ConfigOf(Selection(t)) == Config(Wanted(t).sw, 0, 0, false, false, 0)
    ensures ConfigOf(0) == Config(0, 0, 0, false, false, 0) && Wanted(t).hpre == 0
  {
  }

  lemma AcrPrefetch(w: bv32)
    ensures WaitStates(Or(w, PREFETCH)) == WaitStates(w)
  {
  }

  lemma AcrCleared(w: bv32)
    requires WaitStates(w) == 0 || WaitStates(w) == 1 || WaitStates(w) == 2
    ensures WaitStates(And(w, 0xFFFF_FFFC)) == 0
  {
  }

  lemma AcrLatency(w: bv32, t: Target)
    requires WaitStates(w) == 0
    ensures WaitStates(Or(w, Latency(t))) == Latency(t)
  {
    FieldOr(w, Latency(t), 7);
    assert Field(Latency(t), 7) == Latency(t);
    hide Latency, Field, Or;
  }

  lemma PrefetchStays(w: bv32, m: bv32)
    ensures Field(Or(And(Or(w, PREFETCH), 0xFFFF_FFFC), m), PREFETCH) != 0
  {
  }
}
