/** The requests a disk driver understands and what a run of them means for the disk checker. */
module DiskProtocol {
  import opened Lfsr

  type byte = bv8

  /** One call of the driver interface; writes carry their data. */
  datatype Request =
    | Initialize
    | SectorCount
    | SectorSize
    | BlockSize
    | Sync
    | Write(lba: nat, data: seq<byte>)
    | Read(lba: nat, count: nat)

  /** What the driver answers: the status word, the number an ioctl stores, the bytes a read delivers. */
  datatype Response = Response(status: nat, value: nat, data: nat -> byte)

  /** An arbitrary driver: its answer may depend on everything it was asked so far. */
  type Behaviour = seq<Request> -> Response

  /** The configured limits of the sector size. */
  datatype Config = Config(maxSS: nat, minSS: nat) {
    ghost predicate Valid() {
      2 <= minSS <= maxSS < 0x1_0000
    }
  }

  /** `Exit(c)` is `return c`; `Overrun` is an access beyond the working buffer, `DivideByZero` what its name says. */
  datatype Verdict = Exit(code: nat) | Overrun | DivideByZero

  datatype Outcome =
    | Done(log: seq<Request>)
    | Stop(verdict: Verdict, log: seq<Request>)

  /** A test as a list of obligations, in the order the checker meets them. */
  datatype Script =
    | End
    | Ask(req: Request, code: nat, rest: Script)           // the call must succeed
    | Expect(data: seq<byte>, code: nat, rest: Script)     // the bytes read so far must be `data`
    | Touch(bytes: nat, rest: Script)                      // the buffer must have this many bytes

  function Transfer(resp: Response, n: nat): seq<byte> {
    seq(n, i requires 0 <= i => resp.data(i))
  }

  /** Runs a script against a driver; `got` holds the bytes read since the last `Expect`. */
  function Run(b: Behaviour, ssize: nat, room: nat, script: Script, log: seq<Request>, got: seq<byte>): Outcome {
    match script
    case End => Done(log)
    case Touch(n, rest) =>
      if n <= room then Run(b, ssize, room, rest, log, got) else Stop(Overrun, log)
    case Expect(data, code, rest) =>
      if got == data then Run(b, ssize, room, rest, log, []) else Stop(Exit(code), log)
    case Ask(req, code, rest) =>
      var log' := log + [req];
      if b(log').status != 0 then Stop(Exit(code), log')
      else Run(b, ssize, room, rest, log',
               if req.Read? then got + Transfer(b(log'), req.count * ssize) else got)
  }

  /** Where a region test works in the buffer: the data are built in the first `fill` bytes and read back
      within the first `reach` bytes. */
  datatype Extent = Extent(fill: nat, reach: nat)

  /** Write `out` at `lba`, synchronise, read the sectors back and expect `back`. */
  function RegionScript(lba: nat, count: nat, out: seq<byte>, back: seq<byte>, e: Extent,
                        code: nat, differs: nat): Script
  {
    Touch(e.fill,
    Ask(Write(lba, out), code,
    Ask(Sync, code + 1, RegionReadBack(lba, count, back, e.reach, code, differs))))
  }

  function RegionReadBack(lba: nat, count: nat, back: seq<byte>, reach: nat, code: nat, differs: nat): Script {
    Touch(reach,
    Ask(Read(lba, count), code + 2,
    Expect(back, differs, End)))
  }

  /** Sector 6 and the sector 4 GiB above it receive the two halves of one pattern. */
  function BarrierScript(lba: nat, lba2: nat, out: seq<byte>, back: seq<byte>, ssize: nat): Script
    requires |out| == 2 * ssize
  {
    Touch(2 * ssize,
    Ask(Write(lba, out[..ssize]), 19,
    Ask(Write(lba2, out[ssize..]), 20,
    Ask(Sync, 21, BarrierReadBack(lba, lba2, back, ssize)))))
  }

  function BarrierReadBack(lba: nat, lba2: nat, back: seq<byte>, ssize: nat): Script {
    Ask(Read(lba, 1), 22,
    Ask(Read(lba2, 1), 23,
    Expect(back, 24,
    Touch(2 * ssize + 1, End))))
  }

  /** Distance in sectors between the two sides of the 4 GiB barrier. */
  function Barrier(ssize: nat): nat
    requires ssize >= 2
  {
    0x8000_0000 / (ssize / 2)
  }

  function Min(a: nat, b: nat): nat { if a < b then a else b }

  /** Sectors used by the multiple sector test. */
  function MultiOf(room: nat, sz: nat): (n: nat)
    requires sz > 0
    ensures n <= 4
  {
    Min(room / sz, 4)
  }

  lemma MultiFits(room: nat, sz: nat)
    requires sz > 0
    ensures MultiOf(room, sz) * sz <= room
    ensures room >= sz ==> MultiOf(room, sz) >= 1
  {
    assert room / sz * sz <= room;
  }

  /** The driver, the configuration, the size of the buffer, and the sector size in use. */
  datatype Setup = Setup(b: Behaviour, cfg: Config, room: nat, ssize: nat) {
    function Multi(): nat
      requires ssize > 0
    {
      MultiOf(room, ssize)
    }

    function Sized(n: nat): Setup {
      this.(ssize := n)
    }
  }

  /** A fill of `n` bytes with seed `s` started from register `reg`. */
  function Fill(reg: bv32, s: bv32, n: nat): (r: seq<byte>)
    ensures |r| == n
  {
    Bytes(Seeded(reg, s), n)
  }

  function Filled(reg: bv32, s: bv32, n: nat): bv32 {
    Steps(Seeded(reg, s), n)
  }

  /** The next seed. */
  function Inc(s: bv32): bv32 { s + 1 }

  /** The seed `k` further on. */
  function Seed(s: bv32, k: nat): bv32
    decreases k
  {
    if k == 0 then s else Seed(Inc(s), k - 1)
  }

  /** Fill, then replay for the comparison: the script of one region test. */
  function Region(lba: nat, count: nat, ssize: nat, reg: bv32, s: bv32, e: Extent, code: nat, differs: nat): Script {
    RegionScript(lba, count, Fill(reg, s, count * ssize), Fill(Filled(reg, s, count * ssize), s, count * ssize),
                 e, code, differs)
  }

  /** The register after a region test whose data matched. */
  function Replayed(reg: bv32, s: bv32, n: nat): bv32 {
    Filled(Filled(reg, s, n), s, n)
  }

  /** The start of a cycle: initialisation and the three queries.  On success the drive size and the sector size;
      the answer to the sector size query is cut to the 16 bits of the variable that receives it. */
  function Prologue(p: Setup, log: seq<Request>): (Outcome, nat, nat) {
    var l1 := log + [Initialize];
    if p.b(l1).status % 2 == 1 then (Stop(Exit(2), l1), 0, 0) else
    var l2 := l1 + [SectorCount];
    if p.b(l2).status != 0 then (Stop(Exit(3), l2), 0, 0) else
    var drive := p.b(l2).value;
    if drive < 128 then (Stop(Exit(4), l2), 0, 0) else
    if p.cfg.maxSS == p.cfg.minSS then (Done(l2 + [BlockSize]), drive, p.cfg.maxSS) else
    var l3 := l2 + [SectorSize];
    if p.b(l3).status != 0 then (Stop(Exit(5), l3), 0, 0) else
    (Done(l3 + [BlockSize]), drive, p.b(l3).value % 0x1_0000)
  }

  function Perform(p: Setup, script: Script, log: seq<Request>): Outcome {
    Run(p.b, p.ssize, p.room, script, log, [])
  }

  /** A region test by its halves: what it does up to the synchronisation, then the read back. */
  lemma RegionSplits(p: Setup, lba: nat, count: nat, out: seq<byte>, back: seq<byte>, e: Extent,
                     code: nat, differs: nat, log: seq<Request>)
    ensures var log1 := log + [Write(lba, out)];
            var log2 := log1 + [Sync];
            Perform(p, RegionScript(lba, count, out, back, e, code, differs), log) ==
            if p.room < e.fill then Stop(Overrun, log)
            else if p.b(log1).status != 0 then Stop(Exit(code), log1)
            else if p.b(log2).status != 0 then Stop(Exit(code + 1), log2)
            else Perform(p, RegionReadBack(lba, count, back, e.reach, code, differs), log2)
  {
    hide RegionReadBack;
    var s1 := RegionScript(lba, count, out, back, e, code, differs).rest;
    var log1 := log + [Write(lba, out)];
    assert p.room >= e.fill ==> Perform(p, Touch(e.fill, s1), log) == Run(p.b, p.ssize, p.room, s1, log, []);
    assert p.b(log1).status == 0 ==>
             Run(p.b, p.ssize, p.room, s1, log, []) == Run(p.b, p.ssize, p.room, s1.rest, log1, []);
  }

  /** Outcome of a region test, by what the driver answers. */
  lemma RegionRuns(p: Setup, lba: nat, count: nat, out: seq<byte>, back: seq<byte>, e: Extent,
                   code: nat, differs: nat, log: seq<Request>)
    ensures var log1 := log + [Write(lba, out)];
            var log2 := log1 + [Sync];
            var log3 := log2 + [Read(lba, count)];
            Perform(p, RegionScript(lba, count, out, back, e, code, differs), log) ==
            if p.room < e.fill then Stop(Overrun, log)
            else if p.b(log1).status != 0 then Stop(Exit(code), log1)
            else if p.b(log2).status != 0 then Stop(Exit(code + 1), log2)
            else if p.room < e.reach then Stop(Overrun, log2)
            else if p.b(log3).status != 0 then Stop(Exit(code + 2), log3)
            else if Transfer(p.b(log3), count * p.ssize) != back then Stop(Exit(differs), log3)
            else Done(log3)
  {
    hide RegionScript, RegionReadBack, Perform, Transfer;
    RegionSplits(p, lba, count, out, back, e, code, differs, log);
    ReadRuns(p, lba, count, back, e.reach, code, differs, log + [Write(lba, out)] + [Sync]);
  }

  /** Outcome of the read-back half of a region test. */
  lemma ReadRuns(p: Setup, lba: nat, count: nat, back: seq<byte>, reach: nat, code: nat, differs: nat,
                 log: seq<Request>)
    ensures var log1 := log + [Read(lba, count)];
            Perform(p, RegionReadBack(lba, count, back, reach, code, differs), log) ==
            if p.room < reach then Stop(Overrun, log)
            else if p.b(log1).status != 0 then Stop(Exit(code + 2), log1)
            else if Transfer(p.b(log1), count * p.ssize) != back then Stop(Exit(differs), log1)
            else Done(log1)
  {
    hide Transfer;
    var s := RegionReadBack(lba, count, back, reach, code, differs);
    var log1 := log + [Read(lba, count)];
    var got := Transfer(p.b(log1), count * p.ssize);
    assert [] + got == got;
    assert p.room >= reach ==> Perform(p, s, log) == Run(p.b, p.ssize, p.room, s.rest, log, []);
    assert p.b(log1).status == 0 ==>
             Run(p.b, p.ssize, p.room, s.rest, log, []) == Run(p.b, p.ssize, p.room, s.rest.rest, log1, got);
    assert got == back ==>
             Run(p.b, p.ssize, p.room, s.rest.rest, log1, got) == Run(p.b, p.ssize, p.room, End, log1, []);
  }

  /** Outcome of the read-back half of the barrier test, by what the two reads answer. */
  lemma ReadBackRuns(p: Setup, lba: nat, lba2: nat, back: seq<byte>, log: seq<Request>)
    ensures var sz := p.ssize;
            var log1 := log + [Read(lba, 1)];
            var log2 := log1 + [Read(lba2, 1)];
            Perform(p, BarrierReadBack(lba, lba2, back, sz), log) ==
            if p.b(log1).status != 0 then Stop(Exit(22), log1)
            else if p.b(log2).status != 0 then Stop(Exit(23), log2)
            else if Transfer(p.b(log1), 1 * sz) + Transfer(p.b(log2), 1 * sz) != back then Stop(Exit(24), log2)
            else if 2 * sz + 1 > p.room then Stop(Overrun, log2)
            else Done(log2)
  {
    var sz := p.ssize;
    var script := BarrierReadBack(lba, lba2, back, sz);
    var log1 := log + [Read(lba, 1)];
    var log2 := log1 + [Read(lba2, 1)];
    var first, second := Transfer(p.b(log1), 1 * sz), Transfer(p.b(log2), 1 * sz);
    hide Transfer;
    assert [] + first == first;
    assert p.b(log1).status == 0 ==>
             Perform(p, script, log) == Run(p.b, sz, p.room, script.rest, log1, first);
    assert p.b(log1).status == 0 && p.b(log2).status == 0 ==>
             Perform(p, script, log) == Run(p.b, sz, p.room, script.rest.rest, log2, first + second);
    var touch := script.rest.rest.rest;
    assert touch == Touch(2 * sz + 1, End);
    assert Run(p.b, sz, p.room, touch, log2, []) == if 2 * sz + 1 <= p.room then Done(log2) else Stop(Overrun, log2);
  }

  /** The three read-back tests of a cycle with seeds `s`, `s + 1`, `s + 2`.  The number of sectors of the second
      is a quotient by the sector size. */
  function Regions(p: Setup, log: seq<Request>, reg: bv32, s: bv32): Outcome {
    var sz := p.ssize;
    var o1 := Perform(p, Region(0, 1, sz, reg, s, Extent(sz, sz), 6, 10), log);
    if o1.Stop? then o1 else
    if sz == 0 then Stop(DivideByZero, o1.log) else
    var r1 := Replayed(reg, s, sz);
    var n := p.Multi() * sz;
    var o2 := Perform(p, Region(1, p.Multi(), sz, r1, Seed(s, 1), Extent(n, n), 11, 14), o1.log);
    if o2.Stop? then o2 else
    var r2 := Replayed(r1, Seed(s, 1), n);
    Perform(p, Region(5, 1, sz, r2, Seed(s, 2), Extent(sz + 3, sz + 5), 15, 18), o2.log)
  }

  function RegionsReg(p: Setup, reg: bv32, s: bv32): bv32
    requires p.ssize > 0
  {
    var sz := p.ssize;
    Replayed(Replayed(Replayed(reg, s, sz), Seed(s, 1), p.Multi() * sz), Seed(s, 2), sz)
  }

  function Large(drive: nat, ssize: nat): bool
    requires ssize >= 2
  {
    drive >= 128 + Barrier(ssize)
  }

  function BarrierOf(ssize: nat, reg: bv32, s: bv32): Script
    requires ssize >= 2
  {
    BarrierScript(6, 6 + Barrier(ssize), Fill(reg, s, 2 * ssize), Fill(Filled(reg, s, 2 * ssize), s, 2 * ssize), ssize)
  }

  /** The register after the comparison of the barrier test, which clocks once more than it compares. */
  function BarrierReg(ssize: nat, reg: bv32, s: bv32): bv32 {
    Step(Replayed(reg, s, 2 * ssize))
  }

  /** One whole cycle; the barrier test divides by half the sector size. */
  function Cycle(p: Setup, log: seq<Request>, reg: bv32, s: bv32): Outcome {
    var (o0, drive, sz) := Prologue(p, log);
    if o0.Stop? then o0 else
    var q := p.Sized(sz);
    var o := Regions(q, o0.log, reg, s);
    if o.Stop? then o
    else if sz < 2 then Stop(DivideByZero, o.log)
    else if !Large(drive, sz) then o
    else Perform(q, BarrierOf(sz, RegionsReg(q, reg, s), Seed(s, 3)), o.log)
  }

  /** The register after a completed cycle. */
  function CycleReg(p: Setup, log: seq<Request>, reg: bv32, s: bv32): bv32 {
    var (_, drive, sz) := Prologue(p, log);
    if sz < 2 then reg else
    var r := RegionsReg(p.Sized(sz), reg, s);
    if Large(drive, sz) then BarrierReg(sz, r, Seed(s, 3)) else r
  }

  /** The sector size of an earlier cycle plays no part in a later one. */
  lemma CycleResized(p: Setup, n: nat, log: seq<Request>, reg: bv32, s: bv32)
    ensures Cycle(p.Sized(n), log, reg, s) == Cycle(p, log, reg, s)
    ensures CycleReg(p.Sized(n), log, reg, s) == CycleReg(p, log, reg, s)
  {
    hide Regions, RegionsReg, BarrierOf, BarrierReg, Perform, Seed, Large;
    assert Prologue(p.Sized(n), log) == Prologue(p, log);
    hide Prologue;
  }

  /** `n` cycles in a row; each consumes four seeds. */
  function Cycles(p: Setup, n: nat, log: seq<Request>, reg: bv32, s: bv32): Outcome
    decreases n
  {
    if n == 0 then Done(log) else
    var o := Cycle(p, log, reg, s);
    if o.Stop? then o else Cycles(p, n - 1, o.log, CycleReg(p, log, reg, s), Seed(s, 4))
  }

  /** The verdict of the whole checker, together with the calls it made. */
  function Check(p: Setup, ncyc: nat, log: seq<Request>, reg: bv32): (Verdict, seq<Request>) {
    if p.room < p.cfg.maxSS + 4 then (Exit(1), log) else
    match Cycles(p, ncyc, log, reg, 1)
    case Done(l) => (Exit(0), l)
    case Stop(v, l) => (v, l)
  }
}

/** The checker itself, over a working buffer and the static LFSR register. */
module DiskChecker {
  import opened Lfsr
  import opened DiskProtocol

  class Driver {
    const behaviour: Behaviour
    var log: seq<Request>

    constructor (b: Behaviour)
      ensures behaviour == b && log == []
    {
      behaviour := b;
      log := [];
    }

    method Call(req: Request) returns (r: Response)
      modifies this
      ensures log == old(log) + [req]
      ensures r == behaviour(log)
    {
      log := log + [req];
      r := behaviour(log);
    }
  }

  class Checker {
    const cfg: Config
    const driver: Driver
    const buff: array<byte>
    var lfsr: bv32
    /** Sector size in use, as found out at the start of a cycle. */
    var ssize: nat

    constructor (cfg: Config, driver: Driver, buff: array<byte>)
      ensures this.cfg == cfg && this.driver == driver && this.buff == buff && lfsr == 0 && ssize == 0
    {
      this.cfg, this.driver, this.buff, lfsr, ssize := cfg, driver, buff, 0, 0;
    }

    ghost function Setup(): Setup
      reads this`ssize
    {
      DiskProtocol.Setup.Setup(driver.behaviour, cfg, buff.Length, ssize)
    }

    /** The generator: reseeds on a nonzero argument, then clocks once. */
    method Pn(pns: bv32) returns (r: bv32)
      modifies this`lfsr
      ensures r == lfsr == Seeded(old(lfsr), pns)
      decreases pns != 0
    {
      hide Step;
      if pns != 0 {
        lfsr := pns;
        for n := 0 to 32
          invariant lfsr == Steps(pns, n)
        {
          NextByte(pns, n);
          var _ := Pn(0);
        }
        NextByte(pns, 32);
      }
      lfsr := Clock(lfsr);
      return lfsr;
    }

    static method Clock(x: bv32) returns (r: bv32)
      ensures r == Step(x)
    {
      if x & 1 != 0 {
        r := x >> 1;
        r := r ^ 0x80200003;
      } else {
        r := x >> 1;
      }
    }

    /** Reseeds and stores the low bytes of `len` further words from `off` on. */
    method FillBuffer(off: nat, len: nat, s: bv32)
      requires off + len <= buff.Length
      modifies this`lfsr, buff
      ensures buff[off..off + len] == Fill(old(lfsr), s, len)
      ensures lfsr == Filled(old(lfsr), s, len)
      ensures forall i :: 0 <= i < off || off + len <= i < buff.Length ==> buff[i] == old(buff[i])
    {
      hide Step, LowByte, Bytes, Steps;
      var _ := Pn(s);
      BytesEmpty(lfsr);
      ghost var start := lfsr;
      for n := 0 to len
        invariant lfsr == Steps(start, n)
        invariant buff[off..off + n] == Bytes(start, n)
        invariant forall i :: 0 <= i < off || off + len <= i < buff.Length ==> buff[i] == old(buff[i])
      {
        NextByte(start, n);
        var w := Pn(0);
        buff[off + n] := LowByte(w);
        assert buff[off..off + n + 1] == buff[off..off + n] + [buff[off + n]];
      }
    }

    /** Reseeds and counts how many bytes from `off` on repeat the stream, up to `len`. */
    method CompareBuffer(off: nat, len: nat, s: bv32) returns (n: nat)
      requires off + len <= buff.Length
      modifies this`lfsr
      ensures n <= len
      ensures n == len <==> buff[off..off + len] == Fill(old(lfsr), s, len)
      ensures n == len ==> lfsr == Filled(old(lfsr), s, len)
    {
      hide Step, LowByte, Bytes, Steps;
      var _ := Pn(s);
      BytesEmpty(lfsr);
      ghost var start := lfsr;
      n := 0;
      while n < len
        invariant n <= len
        invariant lfsr == Steps(start, n)
        invariant buff[off..off + n] == Bytes(start, n)
      {
        NextByte(start, n);
        ByteAt(start, len, n);
        var w := Pn(0);
        assert buff[off..off + n + 1] == buff[off..off + n] + [buff[off + n]];
        if buff[off + n] != LowByte(w) {
          assert buff[off..off + len][n] != Bytes(start, len)[n];
          return;
        }
        n := n + 1;
      }
    }

    /** The comparison of the barrier test looks at the byte before it tests the index, so a full match
        also looks at byte `len`. */
    method CompareAhead(len: nat, s: bv32) returns (n: nat, overrun: bool)
      requires len <= buff.Length
      modifies this`lfsr
      ensures n <= len
      ensures n == len <==> buff[..len] == Fill(old(lfsr), s, len)
      ensures overrun <==> n == len && len == buff.Length
      ensures n == len && !overrun ==> lfsr == Step(Filled(old(lfsr), s, len))
    {
      hide Step, LowByte, Bytes, Steps;
      var _ := Pn(s);
      BytesEmpty(lfsr);
      ghost var start := lfsr;
      n := 0;
      while true
        invariant n <= len
        invariant lfsr == Steps(start, n)
        invariant buff[..n] == Bytes(start, n)
        decreases len - n
      {
        if n == buff.Length { return n, true; }
        NextByte(start, n);
        if n < len { ByteAt(start, len, n); }
        var w := Pn(0);
        assert buff[..n + 1] == buff[..n] + [buff[n]];
        if buff[n] != LowByte(w) {
          assert n < len ==> buff[..len][n] != Bytes(start, len)[n];
          return n, false;
        }
        if n >= len { return n, false; }
        n := n + 1;
      }
    }

    /** Zeroes a part of the buffer. */
    method Clear(off: nat, len: nat)
      requires off + len <= buff.Length
      modifies buff
      ensures forall i :: 0 <= i < off || off + len <= i < buff.Length ==> buff[i] == old(buff[i])
    {
      for n := 0 to len
        invariant forall i :: 0 <= i < off || off + len <= i < buff.Length ==> buff[i] == old(buff[i])
      {
        buff[off + n] := 0;
      }
    }

    /** A read: the driver fills its part of the buffer. */
    method ReadSectors(lba: nat, count: nat, off: nat) returns (status: nat)
      requires off + count * ssize <= buff.Length
      modifies driver, buff
      ensures driver.log == old(driver.log) + [Read(lba, count)]
      ensures status == driver.behaviour(driver.log).status
      ensures buff[off..off + count * ssize] == Transfer(driver.behaviour(driver.log), count * ssize)
      ensures forall i :: 0 <= i < off || off + count * ssize <= i < buff.Length ==> buff[i] == old(buff[i])
    {
      var r := driver.Call(Read(lba, count));
      var len := count * ssize;
      for n := 0 to len
        invariant driver.log == old(driver.log) + [Read(lba, count)]
        invariant forall i :: 0 <= i < n ==> buff[off + i] == r.data(i)
        invariant forall i :: 0 <= i < off || off + len <= i < buff.Length ==> buff[i] == old(buff[i])
      {
        buff[off + n] := r.data(n);
      }
      status := r.status;
    }

    /** One write, sync, read back and compare pass; 0 means the data matched. */
    method TestRegion(lba: nat, count: nat, wOff: nat, rOff: nat, s: bv32, code: nat, differs: nat)
      returns (o: Outcome)
      requires wOff <= rOff
      modifies this`lfsr, buff, driver
      ensures o == Perform(Setup(),
                           Region(lba, count, ssize, old(lfsr), s,
                                  Extent(wOff + count * ssize, rOff + count * ssize), code, differs),
                           old(driver.log))
      ensures driver.log == o.log
      ensures o.Done? ==> lfsr == Replayed(old(lfsr), s, count * ssize)
    {
      hide Step, Seeded, Bytes, Steps, Fill, Filled, Run, Perform, RegionScript, RegionReadBack, Transfer;
      var len := count * ssize;
      ghost var out, back := Fill(lfsr, s, len), Fill(Filled(lfsr, s, len), s, len);
      RegionSplits(Setup(), lba, count, out, back, Extent(wOff + len, rOff + len), code, differs, driver.log);
      if wOff + len > buff.Length { return Stop(Overrun, driver.log); }
      FillBuffer(wOff, len, s);
      var r := driver.Call(Write(lba, buff[wOff..wOff + len]));
      if r.status != 0 { return Stop(Exit(code), driver.log); }
      r := driver.Call(Sync);
      if r.status != 0 { return Stop(Exit(code + 1), driver.log); }
      o := ReadBackRegion(lba, count, rOff, s, code, differs);
    }

    /** The second half of a region test. */
    method ReadBackRegion(lba: nat, count: nat, rOff: nat, s: bv32, code: nat, differs: nat) returns (o: Outcome)
      modifies this`lfsr, buff, driver
      ensures o == Perform(Setup(), RegionReadBack(lba, count, Fill(old(lfsr), s, count * ssize),
                                                   rOff + count * ssize, code, differs), old(driver.log))
      ensures driver.log == o.log
      ensures o.Done? ==> lfsr == Filled(old(lfsr), s, count * ssize)
    {
      hide Step, Seeded, Bytes, Steps, Fill, Filled, Run, Perform, RegionReadBack, Transfer;
      var len := count * ssize;
      ReadRuns(Setup(), lba, count, Fill(lfsr, s, len), rOff + len, code, differs, driver.log);
      if rOff + len > buff.Length { return Stop(Overrun, driver.log); }
      Clear(rOff, len);
      var status := ReadSectors(lba, count, rOff);
      if status != 0 { return Stop(Exit(code + 2), driver.log); }
      var n := CompareBuffer(rOff, len, s);
      if n != len { return Stop(Exit(differs), driver.log); }
      return Done(driver.log);
    }

    /** The 4 GiB barrier test. */
    method TestBarrier(s: bv32) returns (o: Outcome)
      requires ssize >= 2
      modifies this`lfsr, buff, driver
      ensures o == Perform(Setup(), BarrierOf(ssize, old(lfsr), s), old(driver.log))
      ensures driver.log == o.log
      ensures o.Done? ==> lfsr == BarrierReg(ssize, old(lfsr), s)
    {
      hide Step, Seeded, Bytes, Steps, Fill, Filled, Barrier, BarrierReadBack;
      var sz := ssize;
      var lba := 6;
      var lba2 := lba + Barrier(sz);
      ghost var p := Setup();
      ghost var s0 := BarrierOf(sz, lfsr, s);
      ghost var o0 := Perform(p, s0, driver.log);
      if 2 * sz > buff.Length { return Stop(Overrun, driver.log); }
      assert o0 == Run(p.b, sz, p.room, s0.rest, driver.log, []);
      FillBuffer(0, 2 * sz, s);
      ghost var out := buff[0..0 + 2 * sz];
      assert out[..sz] == buff[..sz] && out[sz..] == buff[sz..2 * sz];
      var r := driver.Call(Write(lba, buff[..sz]));
      if r.status != 0 { return Stop(Exit(19), driver.log); }
      ghost var s2 := s0.rest.rest;
      assert o0 == Run(p.b, sz, p.room, s2, driver.log, []);
      r := driver.Call(Write(lba2, buff[sz..2 * sz]));
      if r.status != 0 { return Stop(Exit(20), driver.log); }
      assert o0 == Run(p.b, sz, p.room, s2.rest, driver.log, []);
      r := driver.Call(Sync);
      if r.status != 0 { return Stop(Exit(21), driver.log); }
      assert o0 == Run(p.b, sz, p.room, s2.rest.rest, driver.log, []);
      Clear(0, 2 * sz);
      o := ReadBackBarrier(lba, lba2, s);
    }

    /** The second half of the barrier test. */
    method ReadBackBarrier(lba: nat, lba2: nat, s: bv32) returns (o: Outcome)
      requires 2 * ssize <= buff.Length
      modifies this`lfsr, buff, driver
      ensures o == Perform(Setup(), BarrierReadBack(lba, lba2, Fill(old(lfsr), s, 2 * ssize), ssize),
                           old(driver.log))
      ensures driver.log == o.log
      ensures o.Done? ==> lfsr == Step(Filled(old(lfsr), s, 2 * ssize))
    {
      hide Step, Seeded, Bytes, Steps, Fill, Filled, Run, Perform, BarrierReadBack, Transfer;
      var sz := ssize;
      ReadBackRuns(Setup(), lba, lba2, Fill(lfsr, s, 2 * sz), driver.log);
      var status := ReadSectors(lba, 1, 0);
      if status != 0 { return Stop(Exit(22), driver.log); }
      ghost var first := buff[0..0 + 1 * sz];
      status := ReadSectors(lba2, 1, sz);
      if status != 0 { return Stop(Exit(23), driver.log); }
      assert buff[..2 * sz] == first + buff[sz..sz + 1 * sz];
      var n, overrun := CompareAhead(2 * sz, s);
      if n != 2 * sz { return Stop(Exit(24), driver.log); }
      if overrun { return Stop(Overrun, driver.log); }
      return Done(driver.log);
    }

    /** The three read-back tests of a cycle. */
    method TestRegions(s: bv32) returns (o: Outcome)
      modifies this`lfsr, buff, driver
      ensures o == Regions(Setup(), old(driver.log), old(lfsr), s)
      ensures driver.log == o.log
      ensures o.Done? ==> ssize > 0 && lfsr == RegionsReg(Setup(), old(lfsr), s)
    {
      hide Step, Seeded, Bytes, Perform, Region, Replayed, Seed;
      o := TestRegion(0, 1, 0, 0, s, 6, 10);
      if o.Stop? { return; }
      if ssize == 0 { return Stop(DivideByZero, driver.log); }
      var ns := buff.Length / ssize;
      if ns > 4 { ns := 4; }
      o := TestRegion(1, ns, 0, 0, Seed(s, 1), 11, 14);
      if o.Stop? { return; }
      o := TestRegion(5, 1, 3, 5, Seed(s, 2), 15, 18);
    }

    /** Initialisation, size queries and the four tests of one cycle. */
    method RunCycle(s: bv32) returns (o: Outcome)
      modifies this`lfsr, this`ssize, buff, driver
      ensures o == Cycle(old(Setup()), old(driver.log), old(lfsr), s)
      ensures driver.log == o.log
      ensures o.Done? ==> lfsr == CycleReg(old(Setup()), old(driver.log), old(lfsr), s)
    {
      hide Step, Seeded, Bytes, Perform, Regions, RegionsReg, BarrierOf, BarrierReg, Seed;
      ghost var p := Setup();
      var r := driver.Call(Initialize);
      if r.status % 2 == 1 { return Stop(Exit(2), driver.log); }
      r := driver.Call(SectorCount);
      if r.status != 0 { return Stop(Exit(3), driver.log); }
      var drive := r.value;
      if drive < 128 { return Stop(Exit(4), driver.log); }
      if cfg.maxSS != cfg.minSS {
        r := driver.Call(SectorSize);
        if r.status != 0 { return Stop(Exit(5), driver.log); }
        ssize := r.value % 0x1_0000;
      } else {
        ssize := cfg.maxSS;
      }
      r := driver.Call(BlockSize);
      assert Prologue(p, old(driver.log)) == (Done(driver.log), drive, ssize) && Setup() == p.Sized(ssize);
      hide Prologue;
      o := TestRegions(s);
      if o.Stop? { return; }
      if ssize / 2 == 0 { return Stop(DivideByZero, driver.log); }
      if drive >= 128 + 0x8000_0000 / (ssize / 2) {
        o := TestBarrier(Seed(s, 3));
      }
    }

    /** The seeds a cycle uses up. */
    static method NextCycle(s: bv32) returns (r: bv32)
      ensures r == Seed(s, 4)
    {
      hide Inc;
      r := Inc(s);
      r := Inc(r);
      r := Inc(r);
      r := Inc(r);
      assert Seed(s, 4) == Seed(Inc(Inc(s)), 2);
    }

    /** The checker: `ncyc` cycles, each with four fresh seeds. */
    method TestDiskio(ncyc: nat) returns (v: Verdict)
      modifies this`lfsr, this`ssize, buff, driver
      ensures (v, driver.log) == Check(old(Setup()), ncyc, old(driver.log), old(lfsr))
    {
      hide Cycle, CycleReg;
      if buff.Length < cfg.maxSS + 4 { return Exit(1); }
      hide Inc;
      var pns: bv32 := 1;
      ghost var p := Setup();
      for cc := 0 to ncyc
        invariant Cycles(p, ncyc, old(driver.log), old(lfsr), 1) == Cycles(p, ncyc - cc, driver.log, lfsr, pns)
      {
        CycleResized(p, ssize, driver.log, lfsr, pns);
        assert Setup() == p.Sized(ssize);
        var o := RunCycle(pns);
        if o.Stop? { return o.verdict; }
        pns := NextCycle(pns);
      }
      v := Exit(0);
    }
  }
}
