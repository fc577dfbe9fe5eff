/** What the exit code of the disk checker says about the last call it made, and which calls it makes. */
module DiskDiagnosis {
  import opened Lfsr
  import opened DiskProtocol
  import opened DiskSeeds
  import opened DiskVerdicts

  // ---------------------------------------------------------------- the exit code names the call

  /** The last call of `log` is answered to the satisfaction of the checker: initialisation leaves the "not initialised"
      bit clear, the drive has 128 sectors at least, and every other call succeeds; the block size does not matter. */
  predicate Accepted(b: Behaviour, log: seq<Request>)
    requires |log| > 0
  {
    var r := b(log);
    match log[|log| - 1]
    case Initialize => r.status % 2 == 0
    case SectorCount => r.status == 0 && r.value >= 128
    case BlockSize => true
    case _ => r.status == 0
  }

  /** The sector that the last write went to. */
  function WrittenBefore(log: seq<Request>): nat {
    if |log| == 0 then 0
    else if log[|log| - 1].Write? then log[|log| - 1].lba
    else WrittenBefore(log[..|log| - 1])
  }

  /** The exit code that goes with the last call of `log` and its answer.  Sectors 0, 1 and 5 are those of the region
      tests, 6 and what lies far beyond it those of the barrier test. */
  function Blame(b: Behaviour, log: seq<Request>): nat
    requires |log| > 0
  {
    var failed := b(log).status != 0;
    match log[|log| - 1]
    case Initialize => 2
    case SectorCount => if failed then 3 else 4
    case SectorSize => 5
    case BlockSize => 0
    case Write(lba, _) =>
      if lba == 0 then 6 else if lba == 1 then 11 else if lba == 5 then 15 else if lba == 6 then 19 else 20
    case Sync =>
      var lba := WrittenBefore(log);
      if lba == 0 then 7 else if lba == 1 then 12 else if lba == 5 then 16 else 21
    case Read(lba, _) =>
      if lba == 0 then (if failed then 8 else 10)
      else if lba == 1 then (if failed then 13 else 14)
      else if lba == 5 then (if failed then 17 else 18)
      else if !failed then 24 else if lba == 6 then 22 else 23
  }

  /** An outcome reached from `log`: every call but the last was accepted, the last one too unless an exit code was
      returned, and the exit code is that of the last call, which is a read if it was accepted all the same. */
  ghost predicate Diagnosed(b: Behaviour, log: seq<Request>, o: Outcome) {
    log <= o.log && (forall k :: |log| < k < |o.log| ==> Accepted(b, o.log[..k])) &&
    if o.Stop? && o.verdict.Exit? then
      |o.log| > |log| && o.verdict.code == Blame(b, o.log) &&
      (Accepted(b, o.log) ==> o.log[|o.log| - 1].Read?)
    else |o.log| > |log| ==> Accepted(b, o.log)
  }

  lemma DiagnosisChains(b: Behaviour, log: seq<Request>, o1: Outcome, o2: Outcome)
    requires Diagnosed(b, log, o1) && o1.Done? && Diagnosed(b, o1.log, o2)
    ensures Diagnosed(b, log, o2)
  {
    hide Accepted, Blame;
    forall k | |log| < k < |o2.log| ensures Accepted(b, o2.log[..k]) {
      if k < |o1.log| {
        assert o2.log[..k] == o1.log[..k];
      } else if k == |o1.log| {
        assert o2.log[..k] == o1.log;
      }
    }
    if |o2.log| == |o1.log| { assert o2.log == o1.log; }
  }

  /** One more call that was accepted. */
  lemma OneMoreAccepted(b: Behaviour, log: seq<Request>, end: seq<Request>, req: Request)
    requires log <= end && (forall k :: |log| < k < |end| ==> Accepted(b, end[..k]))
    requires |end| > |log| ==> Accepted(b, end)
    ensures var e := end + [req]; log <= e && forall k :: |log| < k < |e| ==> Accepted(b, e[..k])
  {
    hide Accepted;
    var e := end + [req];
    forall k | |log| < k < |e| ensures Accepted(b, e[..k]) {
      if k < |end| { assert e[..k] == end[..k]; } else { assert e[..k] == end; }
    }
  }

  lemma SyncedWrite(log: seq<Request>, lba: nat, data: seq<byte>)
    ensures WrittenBefore(log + [Write(lba, data)] + [Sync]) == lba
  {
    var l := log + [Write(lba, data)];
    assert (l + [Sync])[..|l|] == l;
  }

  /** The codes of the region test at a sector: of its write, and of a difference. */
  predicate RegionCodes(lba: nat, code: nat, differs: nat) {
    (lba == 0 && code == 6 && differs == 10) || (lba == 1 && code == 11 && differs == 14) ||
    (lba == 5 && code == 15 && differs == 18)
  }

  lemma RegionDiagnosed(p: Setup, lba: nat, count: nat, reg: bv32, s: bv32, e: Extent, code: nat, differs: nat,
                        log: seq<Request>)
    requires RegionCodes(lba, code, differs)
    ensures Diagnosed(p.b, log, Perform(p, Region(lba, count, p.ssize, reg, s, e, code, differs), log))
  {
    hide Fill, Filled, Perform, RegionScript, Transfer;
    var n := count * p.ssize;
    var out := Fill(reg, s, n);
    RegionRuns(p, lba, count, out, Fill(Filled(reg, s, n), s, n), e, code, differs, log);
    var log1 := log + [Write(lba, out)];
    var log2 := log1 + [Sync];
    OneMoreAccepted(p.b, log, log, Write(lba, out));
    if p.b(log1).status == 0 {
      OneMoreAccepted(p.b, log, log1, Sync);
      if p.b(log2).status == 0 { OneMoreAccepted(p.b, log, log2, Read(lba, count)); }
    }
    SyncedWrite(log, lba, out);
    hide WrittenBefore;
  }

  /** The whole barrier test by what its calls answer. */
  lemma BarrierRuns(p: Setup, lba2: nat, out: seq<byte>, back: seq<byte>, log: seq<Request>)
    requires |out| == 2 * p.ssize
    ensures var sz := p.ssize;
            var log1 := log + [Write(6, out[..sz])];
            var log2 := log1 + [Write(lba2, out[sz..])];
            var log3 := log2 + [Sync];
            Perform(p, BarrierScript(6, lba2, out, back, sz), log) ==
            if p.room < 2 * sz then Stop(Overrun, log)
            else if p.b(log1).status != 0 then Stop(Exit(19), log1)
            else if p.b(log2).status != 0 then Stop(Exit(20), log2)
            else if p.b(log3).status != 0 then Stop(Exit(21), log3)
            else Perform(p, BarrierReadBack(6, lba2, back, sz), log3)
  {
    hide BarrierReadBack;
    var sz := p.ssize;
    var s1 := BarrierScript(6, lba2, out, back, sz).rest;
    var log1 := log + [Write(6, out[..sz])];
    var log2 := log1 + [Write(lba2, out[sz..])];
    assert p.room >= 2 * sz ==> Perform(p, Touch(2 * sz, s1), log) == Run(p.b, sz, p.room, s1, log, []);
    assert p.b(log1).status == 0 ==> Run(p.b, sz, p.room, s1, log, []) == Run(p.b, sz, p.room, s1.rest, log1, []);
    assert p.b(log2).status == 0 ==>
             Run(p.b, sz, p.room, s1.rest, log1, []) == Run(p.b, sz, p.room, s1.rest.rest, log2, []);
  }

  lemma BarrierDiagnosed(p: Setup, reg: bv32, s: bv32, log: seq<Request>)
    requires 2 <= p.ssize < 0x1_0000
    ensures Diagnosed(p.b, log, Perform(p, BarrierOf(p.ssize, reg, s), log))
  {
    var sz, lba2 := p.ssize, 6 + Barrier(p.ssize);
    BarrierAhead(sz);
    hide Fill, Filled, Perform, BarrierScript, BarrierReadBack, Transfer, Barrier;
    var out, back := Fill(reg, s, 2 * sz), Fill(Filled(reg, s, 2 * sz), s, 2 * sz);
    BarrierRuns(p, lba2, out, back, log);
    var log1 := log + [Write(6, out[..sz])];
    var log2 := log1 + [Write(lba2, out[sz..])];
    var log3 := log2 + [Sync];
    OneMoreAccepted(p.b, log, log, Write(6, out[..sz]));
    if p.b(log1).status == 0 {
      OneMoreAccepted(p.b, log, log1, Write(lba2, out[sz..]));
      if p.b(log2).status == 0 { OneMoreAccepted(p.b, log, log2, Sync); }
    }
    SyncedWrite(log1, lba2, out[sz..]);
    hide WrittenBefore;
    if p.room >= 2 * sz && p.b(log1).status == 0 && p.b(log2).status == 0 && p.b(log3).status == 0 {
      ReadBackDiagnosed(p, lba2, back, log3);
      assert Diagnosed(p.b, log, Done(log3));
      hide Diagnosed;
      DiagnosisChains(p.b, log, Done(log3), Perform(p, BarrierReadBack(6, lba2, back, sz), log3));
    }
  }

  lemma ReadBackDiagnosed(p: Setup, lba2: nat, back: seq<byte>, log: seq<Request>)
    requires lba2 > 6
    ensures Diagnosed(p.b, log, Perform(p, BarrierReadBack(6, lba2, back, p.ssize), log))
  {
    hide Perform, BarrierReadBack, Transfer;
    ReadBackRuns(p, 6, lba2, back, log);
    var log1 := log + [Read(6, 1)];
    OneMoreAccepted(p.b, log, log, Read(6, 1));
    if p.b(log1).status == 0 { OneMoreAccepted(p.b, log, log1, Read(lba2, 1)); }
  }

  lemma BarrierAhead(ssize: nat)
    requires 2 <= ssize < 0x1_0000
    ensures Barrier(ssize) >= 1
  {
  }

  lemma RegionsDiagnosed(p: Setup, log: seq<Request>, reg: bv32, s: bv32)
    ensures Diagnosed(p.b, log, Regions(p, log, reg, s))
  {
    hide Perform, Region, Replayed, Seed, Diagnosed;
    var sz := p.ssize;
    RegionDiagnosed(p, 0, 1, reg, s, Extent(sz, sz), 6, 10, log);
    var o1 := Perform(p, Region(0, 1, sz, reg, s, Extent(sz, sz), 6, 10), log);
    if o1.Done? {
      if sz == 0 {
        StopsAccepted(p.b, log, o1);
      } else {
        var r1, n := Replayed(reg, s, sz), p.Multi() * sz;
        RegionDiagnosed(p, 1, p.Multi(), r1, Seed(s, 1), Extent(n, n), 11, 14, o1.log);
        var o2 := Perform(p, Region(1, p.Multi(), sz, r1, Seed(s, 1), Extent(n, n), 11, 14), o1.log);
        DiagnosisChains(p.b, log, o1, o2);
        if o2.Done? {
          var r2, e := Replayed(r1, Seed(s, 1), n), Extent(sz + 3, sz + 5);
          RegionDiagnosed(p, 5, 1, r2, Seed(s, 2), e, 15, 18, o2.log);
          DiagnosisChains(p.b, log, o2, Perform(p, Region(5, 1, sz, r2, Seed(s, 2), e, 15, 18), o2.log));
        }
      }
    }
  }

  /** Stopping where all calls were accepted. */
  lemma StopsAccepted(b: Behaviour, log: seq<Request>, o: Outcome)
    requires Diagnosed(b, log, o) && o.Done?
    ensures Diagnosed(b, log, Stop(DivideByZero, o.log))
  {
    hide Accepted, Blame;
  }

  lemma PrologueDiagnosed(p: Setup, log: seq<Request>)
    ensures Diagnosed(p.b, log, Prologue(p, log).0)
  {
    var l1 := log + [Initialize];
    var l2 := l1 + [SectorCount];
    var l3 := l2 + [SectorSize];
    OneMoreAccepted(p.b, log, log, Initialize);
    if p.b(l1).status % 2 == 0 {
      OneMoreAccepted(p.b, log, l1, SectorCount);
      if p.b(l2).status == 0 && p.b(l2).value >= 128 {
        OneMoreAccepted(p.b, log, l2, BlockSize);
        OneMoreAccepted(p.b, log, l2, SectorSize);
        if p.b(l3).status == 0 { OneMoreAccepted(p.b, log, l3, BlockSize); }
      }
    }
  }

  lemma CycleDiagnosed(p: Setup, log: seq<Request>, reg: bv32, s: bv32)
    requires p.cfg.maxSS < 0x1_0000
    ensures Diagnosed(p.b, log, Cycle(p, log, reg, s))
  {
    PrologueDiagnosed(p, log);
    var (o0, drive, sz) := Prologue(p, log);
    assert sz < 0x1_0000;
    hide Prologue, Regions, RegionsReg, Perform, BarrierOf, Seed, Diagnosed, Large;
    if o0.Done? {
      var q := p.Sized(sz);
      RegionsDiagnosed(q, o0.log, reg, s);
      var o := Regions(q, o0.log, reg, s);
      DiagnosisChains(p.b, log, o0, o);
      if o.Done? {
        if sz < 2 {
          StopsAccepted(p.b, log, o);
        } else if Large(drive, sz) {
          BarrierDiagnosed(q, RegionsReg(q, reg, s), Seed(s, 3), o.log);
          DiagnosisChains(p.b, log, o, Perform(q, BarrierOf(sz, RegionsReg(q, reg, s), Seed(s, 3)), o.log));
        }
      }
    }
  }

  lemma {:induction false} CyclesDiagnosed(p: Setup, n: nat, log: seq<Request>, reg: bv32, s: bv32)
    requires p.cfg.maxSS < 0x1_0000
    ensures Diagnosed(p.b, log, Cycles(p, n, log, reg, s))
    decreases n
  {
    hide Cycle, CycleReg, Seed, Diagnosed;
    if n == 0 {
      NoCalls(p.b, log);
    } else {
      CycleDiagnosed(p, log, reg, s);
      var o := Cycle(p, log, reg, s);
      if o.Done? {
        CyclesDiagnosed(p, n - 1, o.log, CycleReg(p, log, reg, s), Seed(s, 4));
        DiagnosisChains(p.b, log, o, Cycles(p, n - 1, o.log, CycleReg(p, log, reg, s), Seed(s, 4)));
      }
    }
  }

  lemma NoCalls(b: Behaviour, log: seq<Request>)
    ensures Diagnosed(b, log, Done(log))
  {
  }

  /** On every driver, for every configuration of the source's widths: all calls before the last were answered to the
      checker's satisfaction, and the verdict names the last one.  An exit code other than 0 and 1 is that of the last
      call, which was not accepted, or is a read that delivered other bytes; 1 comes before any call; with any other
      verdict the last call was accepted too. */
  lemma Diagnosis(p: Setup, ncyc: nat, log: seq<Request>, reg: bv32)
    requires p.cfg.maxSS < 0x1_0000
    ensures var (v, end) := Check(p, ncyc, log, reg);
            log <= end && (forall k :: |log| < k < |end| ==> Accepted(p.b, end[..k])) &&
            (v == Exit(1) <==> p.room < p.cfg.maxSS + 4) && (v == Exit(1) ==> end == log) &&
            (v.Exit? && v.code > 1 ==>
               |end| > |log| && v.code == Blame(p.b, end) && (Accepted(p.b, end) ==> end[|end| - 1].Read?)) &&
            (|end| > |log| && (v.Exit? ==> v.code == 0) ==> Accepted(p.b, end))
  {
    hide Accepted, Blame, Cycles;
    CyclesDiagnosed(p, ncyc, log, reg, 1);
    CodesBlamed(p, ncyc, log, reg);
  }

  /** A stopped run never returns 0 or 1. */
  lemma CodesBlamed(p: Setup, ncyc: nat, log: seq<Request>, reg: bv32)
    requires p.cfg.maxSS < 0x1_0000
    ensures var o := Cycles(p, ncyc, log, reg, 1);
            o.Stop? && o.verdict.Exit? ==> o.verdict.code > 1
  {
    hide Accepted, Cycles;
    CyclesDiagnosed(p, ncyc, log, reg, 1);
    ZeroMeansCompleted(p, ncyc, log, reg, 1);
    BlameNotOne(p.b, Cycles(p, ncyc, log, reg, 1).log);
    hide Blame;
  }

  lemma BlameNotOne(b: Behaviour, log: seq<Request>)
    ensures |log| > 0 ==> Blame(b, log) != 1
  {
  }

  // ---------------------------------------------------------------- the first calls

  /** What the first calls of a run can lead to, by their answers alone. */
  lemma StartFailures(p: Setup, ncyc: nat, log: seq<Request>, reg: bv32)
    requires ncyc > 0 && p.room >= p.cfg.maxSS + 4
    ensures var l1 := log + [Initialize];
            var l2 := l1 + [SectorCount];
            var l3 := l2 + [SectorSize];
            var outcome := Check(p, ncyc, log, reg);
            if p.b(l1).status % 2 == 1 then outcome == (Exit(2), l1)
            else if p.b(l2).status != 0 then outcome == (Exit(3), l2)
            else if p.b(l2).value < 128 then outcome == (Exit(4), l2)
            else p.cfg.maxSS != p.cfg.minSS && p.b(l3).status != 0 ==> outcome == (Exit(5), l3)
  {
    hide Regions, RegionsReg, Perform, BarrierOf, Seed, CycleReg;
    assert Cycles(p, ncyc, log, reg, 1) ==
           var o := Cycle(p, log, reg, 1);
           if o.Stop? then o else Cycles(p, ncyc - 1, o.log, CycleReg(p, log, reg, 1), Seed(1, 4));
    hide Cycles;
  }

  /** A medium with fewer than 128 sectors, however good, is refused with 4. */
  lemma SmallDriveVerdict(m: Medium, cfg: Config, room: nat, ncyc: nat, log: seq<Request>, reg: bv32)
    requires m.sectors < 128 && m.span > 0 && ncyc > 0 && room >= cfg.maxSS + 4
    ensures Check(On(m, cfg, room), ncyc, log, reg).0 == Exit(4)
  {
    var p, l1 := On(m, cfg, room), log + [Initialize];
    assert p.b(l1) == Answer(m, l1) && p.b(l1 + [SectorCount]) == Answer(m, l1 + [SectorCount]);
    hide Check;
    StartFailures(p, ncyc, log, reg);
  }

  // ---------------------------------------------------------------- the calls of a completed cycle

  /** The calls of a cycle on a drive of `drive` sectors of `sz` bytes, with the data of seeds `s` to `s + 3`. */
  function Calls(cfg: Config, room: nat, drive: nat, sz: nat, s: bv32): seq<Request>
    requires sz >= 2
  {
    var ns := if room / sz > 4 then 4 else room / sz;
    Queries(cfg) +
    RegionCallsOf(sz, ns, Pattern(s, 0, sz), Pattern(Seed(s, 1), 0, ns * sz), Pattern(Seed(s, 2), 0, sz)) +
    if drive < 128 + 0x8000_0000 / (sz / 2) then [] else BarrierCallsOf(sz, Pattern(Seed(s, 3), 0, 2 * sz))
  }

  function Queries(cfg: Config): seq<Request> {
    [Initialize, SectorCount] + (if cfg.maxSS != cfg.minSS then [SectorSize] else []) + [BlockSize]
  }

  function RegionCallsOf(sz: nat, ns: nat, d1: seq<byte>, d2: seq<byte>, d3: seq<byte>): seq<Request> {
    [Write(0, d1), Sync, Read(0, 1), Write(1, d2), Sync, Read(1, ns), Write(5, d3), Sync, Read(5, 1)]
  }

  /** Sector 6 and the sector 4 GiB above it. */
  function BarrierCallsOf(sz: nat, d: seq<byte>): seq<Request>
    requires sz >= 2 && |d| == 2 * sz
  {
    var lba2 := 6 + 0x8000_0000 / (sz / 2);
    [Write(6, d[..sz]), Write(lba2, d[sz..]), Sync, Read(6, 1), Read(lba2, 1)]
  }

  /** The drive and sector size a cycle works with, by what the driver answers. */
  function DriveOf(p: Setup, log: seq<Request>): nat {
    p.b(log + [Initialize] + [SectorCount]).value
  }

  function SizeOf(p: Setup, log: seq<Request>): nat {
    if p.cfg.maxSS == p.cfg.minSS then p.cfg.maxSS
    else p.b(log + [Initialize] + [SectorCount] + [SectorSize]).value % 0x1_0000
  }

  lemma PrologueCalls(p: Setup, log: seq<Request>)
    requires Prologue(p, log).0.Done?
    ensures Prologue(p, log).1 == DriveOf(p, log) && Prologue(p, log).2 == SizeOf(p, log)
    ensures Prologue(p, log).0.log ==
            log + Queries(p.cfg)
  {
  }

  /** A completed region test made its three calls, with the data of its seed. */
  lemma RegionCalls(p: Setup, lba: nat, count: nat, reg: bv32, s: bv32, e: Extent, code: nat, differs: nat,
                    log: seq<Request>)
    requires s != 0 && Perform(p, Region(lba, count, p.ssize, reg, s, e, code, differs), log).Done?
    ensures Perform(p, Region(lba, count, p.ssize, reg, s, e, code, differs), log).log ==
            log + [Write(lba, Pattern(s, 0, count * p.ssize)), Sync, Read(lba, count)]
  {
    FillPattern(reg, s, count * p.ssize);
    hide Fill, Filled, Perform, Pattern, Region;
    RegionCompleted(p, log, lba, count, reg, s, e, code, differs);
  }

  lemma BarrierCalls(p: Setup, reg: bv32, s: bv32, log: seq<Request>)
    requires s != 0 && p.ssize >= 2 && Perform(p, BarrierOf(p.ssize, reg, s), log).Done?
    ensures Perform(p, BarrierOf(p.ssize, reg, s), log).log ==
            log + BarrierCallsOf(p.ssize, Pattern(s, 0, 2 * p.ssize))
  {
    var sz := p.ssize;
    var lba2 := 6 + Barrier(sz);
    FillPattern(reg, s, 2 * sz);
    hide Fill, Filled, Perform, Pattern, BarrierScript, BarrierReadBack, Transfer;
    var out, back := Fill(reg, s, 2 * sz), Fill(Filled(reg, s, 2 * sz), s, 2 * sz);
    BarrierRuns(p, lba2, out, back, log);
    ReadBackRuns(p, 6, lba2, back, log + [Write(6, out[..sz])] + [Write(lba2, out[sz..])] + [Sync]);
  }

  /** On every driver a completed cycle has made exactly these calls, with these data, in this order. */
  lemma CycleCalls(p: Setup, log: seq<Request>, reg: bv32, s: bv32)
    requires Cycle(p, log, reg, s).Done?
    requires s != 0 && Seed(s, 1) != 0 && Seed(s, 2) != 0
    requires SizeOf(p, log) >= 2 && DriveOf(p, log) >= 128 + 0x8000_0000 / (SizeOf(p, log) / 2) ==> Seed(s, 3) != 0
    ensures SizeOf(p, log) >= 2
    ensures Cycle(p, log, reg, s).log == log + Calls(p.cfg, p.room, DriveOf(p, log), SizeOf(p, log), s)
  {
    PrologueCalls(p, log);
    var (o0, drive, sz) := Prologue(p, log);
    var q := p.Sized(sz);
    hide Prologue, Perform, Region, RegionsReg, Replayed, Pattern, BarrierOf, Seed, DriveOf, SizeOf, Queries;
    hide RegionCallsOf, BarrierCallsOf;
    var o := Regions(q, o0.log, reg, s);
    RegionsCalls(q, o0.log, reg, s);
    hide Regions;
    var a, ns := Queries(p.cfg), if p.room / sz > 4 then 4 else p.room / sz;
    var b := RegionCallsOf(sz, ns, Pattern(s, 0, sz), Pattern(Seed(s, 1), 0, ns * sz), Pattern(Seed(s, 2), 0, sz));
    assert o.log == log + a + b;
    assert Large(drive, sz) <==> drive >= 128 + 0x8000_0000 / (sz / 2);
    if Large(drive, sz) {
      BarrierCalls(q, RegionsReg(q, reg, s), Seed(s, 3), o.log);
      Appended(log, a, b, BarrierCallsOf(sz, Pattern(Seed(s, 3), 0, 2 * sz)));
    } else {
      Appended(log, a, b, []);
    }
  }

  lemma Appended(log: seq<Request>, a: seq<Request>, b: seq<Request>, c: seq<Request>)
    ensures log + a + b + c == log + (a + b + c)
  {
  }

  /** A cycle uses its seed and the three numbers after it; the next one starts with the fourth. */
  lemma SeedNumbers(s: bv32)
    ensures Seed(s, 1) == s + 1 && Seed(s, 2) == s + 2 && Seed(s, 3) == s + 3 && Seed(s, 4) == s + 4
  {
    SeedUnfolds(s);
    IncrementsAdd(s);
    hide Seed, Inc;
  }

  lemma IncrementsAdd(s: bv32)
    ensures Inc(s) == s + 1 && Inc(s + 1) == s + 2 && Inc(s + 2) == s + 3 && Inc(s + 3) == s + 4
  {
  }

  lemma RegionsCalls(p: Setup, log: seq<Request>, reg: bv32, s: bv32)
    requires Regions(p, log, reg, s).Done? && s != 0 && Seed(s, 1) != 0 && Seed(s, 2) != 0
    ensures p.ssize > 0
    ensures var sz, ns := p.ssize, if p.room / p.ssize > 4 then 4 else p.room / p.ssize;
            Regions(p, log, reg, s).log ==
            log + RegionCallsOf(sz, ns, Pattern(s, 0, sz), Pattern(Seed(s, 1), 0, ns * sz), Pattern(Seed(s, 2), 0, sz))
  {
    hide Perform, Region, Replayed, Pattern, Seed;
    var sz := p.ssize;
    var o1 := Perform(p, Region(0, 1, sz, reg, s, Extent(sz, sz), 6, 10), log);
    var r1, n := Replayed(reg, s, sz), p.Multi() * sz;
    var o2 := Perform(p, Region(1, p.Multi(), sz, r1, Seed(s, 1), Extent(n, n), 11, 14), o1.log);
    var r2, e := Replayed(r1, Seed(s, 1), n), Extent(sz + 3, sz + 5);
    RegionCalls(p, 0, 1, reg, s, Extent(sz, sz), 6, 10, log);
    RegionCalls(p, 1, p.Multi(), r1, Seed(s, 1), Extent(n, n), 11, 14, o1.log);
    RegionCalls(p, 5, 1, r2, Seed(s, 2), e, 15, 18, o2.log);
    assert 1 * sz == sz;
  }

  /** What a cycle leaves in the register, whatever it held before: the state behind the last pattern, which is that of
      the third seed, or of the fourth, clocked once more, when the drive reaches the barrier. */
  lemma CycleRegister(p: Setup, log: seq<Request>, reg: bv32, s: bv32)
    requires Cycle(p, log, reg, s).Done? && SizeOf(p, log) >= 2 && Seed(s, 2) != 0 && Seed(s, 3) != 0
    ensures var sz := SizeOf(p, log);
            CycleReg(p, log, reg, s) ==
            if DriveOf(p, log) < 128 + 0x8000_0000 / (sz / 2) then Steps(Seed(s, 2), 33 + sz)
            else Steps(Seed(s, 3), 33 + 2 * sz + 1)
  {
    hide Prologue, Cycle, Seed, Steps, DriveOf, SizeOf, RegionsReg, BarrierReg, Large;
    CycleStarts(p, log, reg, s);
    PrologueCalls(p, log);
    var (_, drive, sz) := Prologue(p, log);
    RegionsSteps(p.Sized(sz), reg, s);
    BarrierSteps(sz, RegionsReg(p.Sized(sz), reg, s), Seed(s, 3));
    LargeMeans(drive, sz);
  }

  lemma LargeMeans(drive: nat, sz: nat)
    requires sz >= 2
    ensures Large(drive, sz) <==> drive >= 128 + 0x8000_0000 / (sz / 2)
  {
  }

  lemma CycleStarts(p: Setup, log: seq<Request>, reg: bv32, s: bv32)
    requires Cycle(p, log, reg, s).Done?
    ensures Prologue(p, log).0.Done?
  {
    hide Prologue, Regions, Perform, RegionsReg, BarrierOf, Seed, Large;
  }

  lemma RegionsSteps(p: Setup, reg: bv32, s: bv32)
    requires p.ssize > 0 && Seed(s, 2) != 0
    ensures RegionsReg(p, reg, s) == Steps(Seed(s, 2), 33 + p.ssize)
  {
    hide Seed, Replayed, Steps;
    ReplayedSteps(Replayed(Replayed(reg, s, p.ssize), Seed(s, 1), p.Multi() * p.ssize), Seed(s, 2), p.ssize);
  }

  lemma BarrierSteps(sz: nat, reg: bv32, s: bv32)
    requires s != 0
    ensures BarrierReg(sz, reg, s) == Steps(s, 33 + 2 * sz + 1)
  {
    ReplayedSteps(reg, s, 2 * sz);
    NextByte(s, 33 + 2 * sz);
    hide Replayed, Steps, Step, Bytes, LowByte;
  }

  lemma ReplayedSteps(reg: bv32, s: bv32, n: nat)
    requires s != 0
    ensures Replayed(reg, s, n) == Steps(s, 33 + n)
  {
    StepsAdd(s, 33, n);
    hide Steps, Step;
  }

  // ---------------------------------------------------------------- the data in numbers

  lemma LowEight(x: bv32)
    ensures LowByte(x) as bv32 == x & 0xFF
  {
  }

  /** The bytes of a pattern are the low eight bits of the words that the generator yields from the 34th on, of which
      the first 32 are the recursive calls and the 33rd the one that reseeds. */
  lemma PatternByte(s: bv32, from: nat, n: nat, i: nat)
    requires s != 0 && i < n
    ensures Pattern(s, from, n)[i] as bv32 == Steps(s, 34 + from + i) & 0xFF
  {
    hide Step, LowByte, Bytes, Steps;
    assert Seeded(0, s) == Steps(s, 33) by { NextByte(s, 32); }
    hide Seeded;
    StepsAdd(s, 33, from);
    ByteAt(Steps(s, 33 + from), n, i);
    StepsAdd(s, 33 + from, i);
    NextByte(s, 33 + from + i);
    LowEight(Steps(s, 34 + from + i));
  }

  /** The first words of the generator from register 1. */
  lemma GeneratorExample()
    ensures Steps(1, 1) == 0x8020_0003 && Steps(1, 2) == 0xC030_0002 && Steps(1, 3) == 0x6018_0001
    ensures Steps(1, 4) == 0xB02C_0003
  {
    var a, b, c := Step(1), Step(Step(1)), Step(Step(Step(1)));
    assert a == 0x8020_0003 && b == 0xC030_0002 && c == 0x6018_0001 && Step(c) == 0xB02C_0003;
    hide Step;
    assert Steps(1, 4) == Steps(a, 3) == Steps(b, 2) == Steps(c, 1);
    assert Steps(1, 3) == Steps(a, 2) == Steps(b, 1);
  }
}
