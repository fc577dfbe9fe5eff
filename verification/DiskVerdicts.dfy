/** What the checker concludes about disks that are honest, that wrap, or that lose writes. */
module DiskVerdicts {
  import opened Powers
  import opened Lfsr
  import opened LfsrPeriod
  import opened DiskProtocol
  import opened DiskSeeds

  /** A disk whose byte addresses are taken modulo `span` and that carries out the `i`-th call, when it
      is a write, only if `keep(i)`.  `erase` is whatever the erase-block query returns. */
  datatype Medium = Medium(sectors: nat, ssize: nat, span: nat, keep: nat -> bool, blank: nat -> byte, erase: nat) {
    ghost predicate Usable() {
      128 <= sectors && 1 <= ssize < 0x1_0000 && 0 < span
    }

    /** Half a sector is at least a byte. */
    ghost predicate Valid() {
      Usable() && ssize >= 2
    }

    /** Every sector has storage of its own. */
    ghost predicate Unaliased() {
      Valid() && sectors * ssize <= span
    }
  }

  const FOUR_GIB: nat := 0x1_0000_0000

  /** How far address `a` lies behind address `base`, going round the address space. */
  function Offset(span: nat, base: nat, a: nat): nat
    requires span > 0
  {
    var d := a % span - base % span;
    if d < 0 then d + span else d
  }

  function Place(m: Medium, lba: nat, a: nat): nat
    requires m.span > 0
  {
    Offset(m.span, lba * m.ssize, a)
  }

  predicate Writes(m: Medium, req: Request, i: nat, a: nat)
    requires m.span > 0
  {
    req.Write? && m.keep(i) && Place(m, req.lba, a) < |req.data|
  }

  /** The byte at address `a` after the calls in `log`. */
  function Content(m: Medium, log: seq<Request>, a: nat): byte
    requires m.span > 0
  {
    if |log| == 0 then m.blank(a % m.span) else
    var last := |log| - 1;
    if Writes(m, log[last], last, a) then log[last].data[Place(m, log[last].lba, a)]
    else Content(m, log[..last], a)
  }

  function Store(m: Medium, log: seq<Request>, lba: nat, n: nat): (r: seq<byte>)
    requires m.span > 0
    ensures |r| == n
  {
    seq(n, i requires 0 <= i => Content(m, log, lba * m.ssize + i))
  }

  function Answer(m: Medium, log: seq<Request>): Response
    requires m.span > 0
  {
    if |log| == 0 then Response(0, 0, _ => 0) else
    match log[|log| - 1]
    case SectorCount => Response(0, m.sectors, _ => 0)
    case SectorSize => Response(0, m.ssize, _ => 0)
    case BlockSize => Response(m.erase, 0, _ => 0)
    case Read(lba, count) => Response(0, 0, (i: nat) => Content(m, log, lba * m.ssize + i))
    case _ => Response(0, 0, _ => 0)
  }

  function On(m: Medium, cfg: Config, room: nat): Setup
    requires m.span > 0
  {
    Setup((log: seq<Request>) => Answer(m, log), cfg, room, m.ssize)
  }

  /** With a fixed sector size configured, the medium has that one. */
  predicate Matches(m: Medium, cfg: Config) {
    cfg.maxSS == cfg.minSS ==> m.ssize == cfg.maxSS
  }

  // ---------------------------------------------------------------- the store

  lemma ContentStep(m: Medium, log: seq<Request>, req: Request, a: nat)
    requires m.span > 0
    ensures Content(m, log + [req], a) ==
            if Writes(m, req, |log|, a) then req.data[Place(m, req.lba, a)] else Content(m, log, a)
  {
    assert (log + [req])[..|log|] == log;
  }

  /** A call that is not a kept write leaves the store alone. */
  lemma StoreSame(m: Medium, log: seq<Request>, req: Request, lba: nat, n: nat)
    requires m.span > 0
    requires req.Write? ==> !m.keep(|log|)
    ensures Store(m, log + [req], lba, n) == Store(m, log, lba, n)
  {
    forall i | 0 <= i < n ensures Store(m, log + [req], lba, n)[i] == Store(m, log, lba, n)[i] {
      ContentStep(m, log, req, lba * m.ssize + i);
    }
  }

  lemma PlaceWithin(m: Medium, lba: nat, i: nat)
    requires i < m.span
    ensures Place(m, lba, lba * m.ssize + i) == i
  {
    AddMod(lba * m.ssize, i, m.span);
  }

  lemma AddMod(x: nat, i: nat, d: nat)
    requires i < d
    ensures (x + i) % d == if x % d + i < d then x % d + i else x % d + i - d
  {
    var r := x % d + i;
    var q := x / d;
    assert x + i == q * d + r;
    DivUnique(x + i, d, if r < d then q else q + 1, if r < d then r else r - d);
  }

  lemma DivUnique(x: nat, d: nat, q: nat, r: nat)
    requires r < d && x == q * d + r
    ensures x % d == r
  {
    var k := x / d - q;
    assert x == x / d * d + x % d;
    assert k * d == x / d * d - q * d;
    if k >= 1 {
      MulMono(1, k, d);
    } else if k <= -1 {
      MulMono(1, -k, d);
    }
  }

  lemma StoreWritten(m: Medium, log: seq<Request>, lba: nat, data: seq<byte>)
    requires |data| <= m.span && m.span > 0
    requires m.keep(|log|)
    ensures Store(m, log + [Write(lba, data)], lba, |data|) == data
  {
    var req := Write(lba, data);
    forall i | 0 <= i < |data| ensures Store(m, log + [req], lba, |data|)[i] == data[i] {
      ContentStep(m, log, req, lba * m.ssize + i);
      PlaceWithin(m, lba, i);
    }
  }

  lemma SmallMod(x: nat, d: nat)
    requires x < d
    ensures x % d == x
  {
  }

  /** Sector ranges that do not overlap. */
  predicate Apart(lba: nat, count: nat, lba': nat, count': nat) {
    lba + count <= lba' || lba' + count' <= lba
  }

  /** An address in a byte range that a sector range does not overlap is not reached from that sector range. */
  lemma PlaceApart(m: Medium, lba: nat, base: nat, n: nat, base': nat, n': nat, i: nat)
    requires m.span > 0 && base == lba * m.ssize && base + n <= m.span && base' + n' <= m.span && i < n'
    requires base + n <= base' || base' + n' <= base
    ensures Place(m, lba, base' + i) >= n
  {
    OffsetApart(m.span, base, n, base', n', i);
    hide Offset;
  }

  /** Sector ranges that do not overlap are byte ranges that do not. */
  lemma BytesApart(lba: nat, count: nat, base: nat, n: nat, lba': nat, count': nat, base': nat, n': nat,
                   sectors: nat, sz: nat, span: nat)
    requires Apart(lba, count, lba', count') && lba + count <= sectors && lba' + count' <= sectors
    requires base == lba * sz && n == count * sz && base' == lba' * sz && n' == count' * sz && sectors * sz <= span
    ensures base + n <= span && base' + n' <= span && (base + n <= base' || base' + n' <= base)
  {
    SectorEnd(lba, count, sectors, sz);
    SectorEnd(lba', count', sectors, sz);
    if lba + count <= lba' { SectorEnd(lba, count, lba', sz); } else { SectorEnd(lba', count', lba, sz); }
  }

  lemma SectorEnd(lba: nat, count: nat, end: nat, sz: nat)
    requires lba + count <= end
    ensures lba * sz + count * sz <= end * sz
  {
    MulMono(lba + count, end, sz);
  }

  /** Byte ranges inside the address space that do not overlap. */
  lemma OffsetApart(span: nat, base: nat, n: nat, base': nat, n': nat, i: nat)
    requires base + n <= span && base' + n' <= span && i < n' && (base + n <= base' || base' + n' <= base)
    ensures Offset(span, base, base' + i) >= n
  {
    SmallMod(base' + i, span);
    if base < span { SmallMod(base, span); }
  }

  lemma MulMono(a: nat, b: nat, c: nat)
    requires a <= b
    ensures a * c <= b * c
  {
  }

  lemma BytesKept(m: Medium, log: seq<Request>, lba: nat, data: seq<byte>, base: nat, base': nat, n': nat)
    requires m.span > 0 && base == lba * m.ssize && base + |data| <= m.span && base' + n' <= m.span
    requires base + |data| <= base' || base' + n' <= base
    ensures forall a :: base' <= a < base' + n' ==> Content(m, log + [Write(lba, data)], a) == Content(m, log, a)
  {
    hide Place, Content;
    forall a | base' <= a < base' + n' ensures Content(m, log + [Write(lba, data)], a) == Content(m, log, a) {
      PlaceApart(m, lba, base, |data|, base', n', a - base');
      ContentStep(m, log, Write(lba, data), a);
    }
  }

  /** A write elsewhere leaves a sector range alone. */
  lemma StoreApart(m: Medium, log: seq<Request>, lba: nat, count: nat, data: seq<byte>, lba': nat, count': nat)
    requires m.Unaliased() && |data| == count * m.ssize
    requires Apart(lba, count, lba', count') && lba + count <= m.sectors && lba' + count' <= m.sectors
    ensures Store(m, log + [Write(lba, data)], lba', count' * m.ssize) == Store(m, log, lba', count' * m.ssize)
  {
    hide Store, Apart;
    var base, base', n' := lba * m.ssize, lba' * m.ssize, count' * m.ssize;
    BytesApart(lba, count, base, |data|, lba', count', base', n', m.sectors, m.ssize, m.span);
    RangeKept(m, log, lba, data, base, lba', base', n');
  }

  lemma RangeKept(m: Medium, log: seq<Request>, lba: nat, data: seq<byte>, base: nat, lba': nat, base': nat, n': nat)
    requires m.span > 0 && base == lba * m.ssize && base + |data| <= m.span && base' + n' <= m.span
    requires base' == lba' * m.ssize && (base + |data| <= base' || base' + n' <= base)
    ensures Store(m, log + [Write(lba, data)], lba', n') == Store(m, log, lba', n')
  {
    hide Content;
    BytesKept(m, log, lba, data, base, base', n');
  }

  // ---------------------------------------------------------------- one test

  function AfterRegion(log: seq<Request>, lba: nat, count: nat, data: seq<byte>): seq<Request> {
    log + [Write(lba, data)] + [Sync] + [Read(lba, count)]
  }

  lemma SetupOf(m: Medium, cfg: Config, room: nat)
    requires m.span > 0
    ensures var p := On(m, cfg, room); p.cfg == cfg && p.room == room && p.ssize == m.ssize && p.Sized(m.ssize) == p
  {
  }

  /** A read delivers the store; every other call of a test succeeds. */
  lemma Delivers(m: Medium, cfg: Config, room: nat, log: seq<Request>, lba: nat, count: nat)
    requires m.Usable()
    ensures var l := log + [Read(lba, count)];
            var r := On(m, cfg, room).b(l);
            r.status == 0 && Transfer(r, count * m.ssize) == Store(m, l, lba, count * m.ssize)
  {
    var l := log + [Read(lba, count)];
    var r := On(m, cfg, room).b(l);
    assert r == Answer(m, l);
    var n := count * m.ssize;
    forall i | 0 <= i < n ensures Transfer(r, n)[i] == Store(m, l, lba, n)[i] {
      assert r.data(i) == Content(m, l, lba * m.ssize + i);
    }
  }

  lemma Accepts(m: Medium, cfg: Config, room: nat, log: seq<Request>, req: Request)
    requires m.Usable() && (req.Write? || req.Sync?)
    ensures On(m, cfg, room).b(log + [req]).status == 0
  {
    assert On(m, cfg, room).b(log + [req]) == Answer(m, log + [req]);
  }

  function RegionResult(m: Medium, room: nat, log: seq<Request>,
                        lba: nat, count: nat, out: seq<byte>, back: seq<byte>, e: Extent, differs: nat): Outcome
    requires m.span > 0
  {
    var end := AfterRegion(log, lba, count, out);
    if room < e.fill then Stop(Overrun, log)
    else if room < e.reach then Stop(Overrun, log + [Write(lba, out)] + [Sync])
    else if Store(m, end, lba, count * m.ssize) == back then Done(end)
    else Stop(Exit(differs), end)
  }

  /** On any medium a region test compares the replayed data with what the medium holds after the write. */
  lemma RegionOutcome(m: Medium, cfg: Config, room: nat, log: seq<Request>,
                      lba: nat, count: nat, out: seq<byte>, back: seq<byte>, e: Extent, code: nat, differs: nat)
    requires m.Usable()
    ensures Perform(On(m, cfg, room), RegionScript(lba, count, out, back, e, code, differs), log) ==
            RegionResult(m, room, log, lba, count, out, back, e, differs)
  {
    hide Answer, Content, Store, On, Transfer;
    var p := On(m, cfg, room);
    SetupOf(m, cfg, room);
    var s := RegionScript(lba, count, out, back, e, code, differs);
    var s0 := s.rest;
    var l1 := log + [Write(lba, out)];
    var l2 := l1 + [Sync];
    var l3 := l2 + [Read(lba, count)];
    Accepts(m, cfg, room, log, Write(lba, out));
    Accepts(m, cfg, room, l1, Sync);
    Delivers(m, cfg, room, l2, lba, count);
    if e.fill <= room {
      assert Perform(p, s, log) == Run(p.b, m.ssize, room, s0, log, []);
      assert Perform(p, s, log) == Run(p.b, m.ssize, room, s0.rest, l1, []);
      assert Perform(p, s, log) == Run(p.b, m.ssize, room, s0.rest.rest, l2, []);
      if e.reach <= room {
        var s3 := s0.rest.rest.rest;
        assert Perform(p, s, log) == Run(p.b, m.ssize, room, s3, l2, []);
        var got := Store(m, l3, lba, count * m.ssize);
        assert [] + got == got;
        assert Perform(p, s, log) == Run(p.b, m.ssize, room, s3.rest, l3, got);
        if got == back {
          assert Perform(p, s, log) == Run(p.b, m.ssize, room, End, l3, []);
        }
      }
    }
  }

  /** The store after a region test: the data where the write was kept, the old contents otherwise. */
  lemma RegionStore(m: Medium, log: seq<Request>, lba: nat, count: nat, data: seq<byte>)
    requires m.Usable() && |data| == count * m.ssize <= m.span
    ensures Store(m, AfterRegion(log, lba, count, data), lba, |data|) ==
            if m.keep(|log|) then data else Store(m, log, lba, |data|)
  {
    var l1 := log + [Write(lba, data)];
    StoreSame(m, l1, Sync, lba, |data|);
    StoreSame(m, l1 + [Sync], Read(lba, count), lba, |data|);
    if m.keep(|log|) {
      StoreWritten(m, log, lba, data);
    } else {
      StoreSame(m, log, Write(lba, data), lba, |data|);
    }
  }

  lemma RegionApart(m: Medium, log: seq<Request>, lba: nat, count: nat, data: seq<byte>, lba': nat, count': nat)
    requires m.Unaliased() && |data| == count * m.ssize
    requires Apart(lba, count, lba', count') && lba + count <= m.sectors && lba' + count' <= m.sectors
    ensures var n' := count' * m.ssize;
            Store(m, AfterRegion(log, lba, count, data), lba', n') == Store(m, log, lba', n')
  {
    var l1 := log + [Write(lba, data)];
    StoreSame(m, l1, Sync, lba', count' * m.ssize);
    StoreSame(m, l1 + [Sync], Read(lba, count), lba', count' * m.ssize);
    StoreApart(m, log, lba, count, data, lba', count');
  }

  function AfterBarrier(log: seq<Request>, ssize: nat, data: seq<byte>): seq<Request>
    requires |data| == 2 * ssize && ssize >= 2
  {
    var lba2 := 6 + Barrier(ssize);
    log + [Write(6, data[..ssize])] + [Write(lba2, data[ssize..])] + [Sync] + [Read(6, 1)] + [Read(lba2, 1)]
  }

  lemma BarrierOutcome(m: Medium, cfg: Config, room: nat, log: seq<Request>, out: seq<byte>, back: seq<byte>)
    requires m.Valid() && |out| == 2 * m.ssize
    ensures var sz := m.ssize;
            var lba2 := 6 + Barrier(sz);
            var o := Perform(On(m, cfg, room), BarrierScript(6, lba2, out, back, sz), log);
            var end := AfterBarrier(log, sz, out);
            o == if room < 2 * sz then Stop(Overrun, log)
                 else if Store(m, end, 6, sz) + Store(m, end, lba2, sz) != back then Stop(Exit(24), end)
                 else if room < 2 * sz + 1 then Stop(Overrun, end)
                 else Done(end)
  {
    hide Barrier, Answer, Content, Store, On, Transfer;
    SetupOf(m, cfg, room);
    var p, sz, lba2 := On(m, cfg, room), m.ssize, 6 + Barrier(m.ssize);
    var s0 := BarrierScript(6, lba2, out, back, sz);
    var o := Perform(p, s0, log);
    if room >= 2 * sz {
      var l1 := log + [Write(6, out[..sz])];
      var l2 := l1 + [Write(lba2, out[sz..])];
      var l3 := l2 + [Sync];
      Accepts(m, cfg, room, log, Write(6, out[..sz]));
      Accepts(m, cfg, room, l1, Write(lba2, out[sz..]));
      Accepts(m, cfg, room, l2, Sync);
      assert o == Run(p.b, sz, room, s0.rest, log, []);
      assert o == Run(p.b, sz, room, s0.rest.rest, l1, []);
      var s3 := s0.rest.rest.rest;
      assert o == Run(p.b, sz, room, s3, l2, []);
      assert o == Run(p.b, sz, room, s3.rest, l3, []);
      BarrierReads(m, cfg, room, l3, back);
    }
  }

  lemma BarrierReads(m: Medium, cfg: Config, room: nat, log: seq<Request>, back: seq<byte>)
    requires m.Valid()
    ensures var sz := m.ssize;
            var lba2 := 6 + Barrier(sz);
            var o := Perform(On(m, cfg, room), BarrierReadBack(6, lba2, back, sz), log);
            var end := log + [Read(6, 1)] + [Read(lba2, 1)];
            o == if Store(m, end, 6, sz) + Store(m, end, lba2, sz) != back then Stop(Exit(24), end)
                 else if room < 2 * sz + 1 then Stop(Overrun, end)
                 else Done(end)
  {
    hide Barrier, Answer, Content, Store, On, Transfer;
    SetupOf(m, cfg, room);
    var p, sz, lba2 := On(m, cfg, room), m.ssize, 6 + Barrier(m.ssize);
    var s0 := BarrierReadBack(6, lba2, back, sz);
    var o := Perform(p, s0, log);
    var l1 := log + [Read(6, 1)];
    var l2 := l1 + [Read(lba2, 1)];
    var got1, got2 := Store(m, l1, 6, sz), Store(m, l2, lba2, sz);
    Delivers(m, cfg, room, log, 6, 1);
    Delivers(m, cfg, room, l1, lba2, 1);
    assert [] + got1 == got1 && 1 * sz == sz;
    StoreSame(m, l1, Read(lba2, 1), 6, sz);
    assert o == Run(p.b, sz, room, s0.rest, l1, got1);
    assert o == Run(p.b, sz, room, s0.rest.rest, l2, got1 + got2);
    if got1 + got2 == back {
      assert o == Run(p.b, sz, room, Touch(2 * sz + 1, End), l2, []);
      assert room >= 2 * sz + 1 ==> o == Run(p.b, sz, room, End, l2, []);
    }
  }

  lemma BarrierApart(m: Medium, log: seq<Request>, data: seq<byte>, lba': nat, count': nat)
    requires m.Unaliased() && |data| == 2 * m.ssize && Large(m.sectors, m.ssize)
    requires lba' + count' <= 6
    ensures Store(m, AfterBarrier(log, m.ssize, data), lba', count' * m.ssize) == Store(m, log, lba', count' * m.ssize)
  {
    hide Store, Content, Place;
    var sz, lba2, n := m.ssize, 6 + Barrier(m.ssize), count' * m.ssize;
    var l1 := log + [Write(6, data[..sz])];
    var l2 := l1 + [Write(lba2, data[sz..])];
    var l3 := l2 + [Sync];
    var l4 := l3 + [Read(6, 1)];
    StoreApart(m, log, 6, 1, data[..sz], lba', count');
    StoreApart(m, l1, lba2, 1, data[sz..], lba', count');
    StoreSame(m, l2, Sync, lba', n);
    StoreSame(m, l3, Read(6, 1), lba', n);
    StoreSame(m, l4, Read(lba2, 1), lba', n);
  }

  /** What the two barrier sectors hold after the barrier test. */
  lemma BarrierStore(m: Medium, log: seq<Request>, data: seq<byte>)
    requires m.Unaliased() && |data| == 2 * m.ssize && Large(m.sectors, m.ssize)
    ensures var sz, lba2, end := m.ssize, 6 + Barrier(m.ssize), AfterBarrier(log, m.ssize, data);
            Store(m, end, 6, sz) == (if m.keep(|log|) then data[..sz] else Store(m, log, 6, sz)) &&
            Store(m, end, lba2, sz) == (if m.keep(|log| + 1) then data[sz..] else Store(m, log, lba2, sz))
  {
    hide Store, Content, Place;
    var sz, lba2 := m.ssize, 6 + Barrier(m.ssize);
    BarrierFar(m.sectors, sz);
    MulMono(128, m.sectors, sz);
    var l1 := log + [Write(6, data[..sz])];
    var l2 := l1 + [Write(lba2, data[sz..])];
    var l3 := l2 + [Sync];
    var l4 := l3 + [Read(6, 1)];
    StoreApart(m, log, 6, 1, data[..sz], lba2, 1);
    StoreApart(m, l1, lba2, 1, data[sz..], 6, 1);
    if m.keep(|log|) { StoreWritten(m, log, 6, data[..sz]); } else { StoreSame(m, log, Write(6, data[..sz]), 6, sz); }
    if m.keep(|l1|) {
      StoreWritten(m, l1, lba2, data[sz..]);
    } else {
      StoreSame(m, l1, Write(lba2, data[sz..]), lba2, sz);
    }
    StoreSame(m, l2, Sync, 6, sz);
    StoreSame(m, l3, Read(6, 1), 6, sz);
    StoreSame(m, l4, Read(lba2, 1), 6, sz);
    StoreSame(m, l2, Sync, lba2, sz);
    StoreSame(m, l3, Read(6, 1), lba2, sz);
    StoreSame(m, l4, Read(lba2, 1), lba2, sz);
  }

  lemma BarrierFar(drive: nat, ssize: nat)
    requires 2 <= ssize < 0x1_0000 && Large(drive, ssize)
    ensures Barrier(ssize) >= 1 && 6 + Barrier(ssize) + 1 <= drive
  {
  }

  // ---------------------------------------------------------------- one cycle

  function PrologueLog(cfg: Config, log: seq<Request>): seq<Request> {
    var l := log + [Initialize] + [SectorCount];
    (if cfg.maxSS != cfg.minSS then l + [SectorSize] else l) + [BlockSize]
  }

  lemma PrologueOn(m: Medium, cfg: Config, room: nat, log: seq<Request>)
    requires m.Usable() && Matches(m, cfg)
    ensures Prologue(On(m, cfg, room), log) == (Done(PrologueLog(cfg, log)), m.sectors, m.ssize)
    ensures forall lba: nat, n: nat :: Store(m, PrologueLog(cfg, log), lba, n) == Store(m, log, lba, n)
  {
    var b := On(m, cfg, room).b;
    var l1 := log + [Initialize];
    var l2 := l1 + [SectorCount];
    var l3 := if cfg.maxSS != cfg.minSS then l2 + [SectorSize] else l2;
    assert b(l1) == Answer(m, l1) && b(l2) == Answer(m, l2) && b(l3) == Answer(m, l3);
    forall lba: nat, n: nat ensures Store(m, PrologueLog(cfg, log), lba, n) == Store(m, log, lba, n) {
      StoreSame(m, log, Initialize, lba, n);
      StoreSame(m, l1, SectorCount, lba, n);
      StoreSame(m, l2, SectorSize, lba, n);
      StoreSame(m, l3, BlockSize, lba, n);
    }
  }

  /** The data of one cycle and the calls made up to the end of each test. */
  datatype Plan = Plan(ssize: nat, multi: nat, start: seq<Request>, seed: bv32) {
    function D1(): seq<byte> { Pattern(seed, 0, 1 * ssize) }
    function D2(): seq<byte> { Pattern(Seed(seed, 1), 0, multi * ssize) }
    function D3(): seq<byte> { Pattern(Seed(seed, 2), 0, 1 * ssize) }
    function D4(): seq<byte> { Pattern(Seed(seed, 3), 0, 2 * ssize) }
    function L1(): seq<Request> { AfterRegion(start, 0, 1, D1()) }
    function L2(): seq<Request> { AfterRegion(L1(), 1, multi, D2()) }
    function L3(): seq<Request> { AfterRegion(L2(), 5, 1, D3()) }
    function L4(): seq<Request> requires ssize >= 2 { AfterBarrier(L3(), ssize, D4()) }
  }

  function PlanOf(m: Medium, cfg: Config, room: nat, log: seq<Request>, s: bv32): Plan
    requires m.ssize > 0
  {
    Plan(m.ssize, MultiOf(room, m.ssize), PrologueLog(cfg, log), s)
  }

  /** The first three tests in closed form, on any medium. */
  function RegionsVerdict(m: Medium, room: nat, q: Plan): Outcome
    requires m.span > 0
  {
    var o1 := RegionResult(m, room, q.start, 0, 1, q.D1(), q.D1(), Extent(1 * q.ssize, 1 * q.ssize), 10);
    if o1.Stop? then o1 else
    var n := q.multi * q.ssize;
    var o2 := RegionResult(m, room, o1.log, 1, q.multi, q.D2(), q.D2(), Extent(n, n), 14);
    if o2.Stop? then o2 else
    RegionResult(m, room, o2.log, 5, 1, q.D3(), q.D3(), Extent(1 * q.ssize + 3, 1 * q.ssize + 5), 18)
  }

  function BarrierVerdict(m: Medium, room: nat, q: Plan): Outcome
    requires m.span > 0 && q.ssize >= 2
  {
    if room < 2 * q.ssize then Stop(Overrun, q.L3())
    else if Store(m, q.L4(), 6, q.ssize) + Store(m, q.L4(), 6 + Barrier(q.ssize), q.ssize) != q.D4() then
      Stop(Exit(24), q.L4())
    else if room < 2 * q.ssize + 1 then Stop(Overrun, q.L4())
    else Done(q.L4())
  }

  function CycleVerdict(m: Medium, room: nat, q: Plan): Outcome
    requires m.span > 0 && q.ssize >= 2
  {
    var o := RegionsVerdict(m, room, q);
    if o.Stop? || !Large(m.sectors, q.ssize) then o else BarrierVerdict(m, room, q)
  }

  /** The seeds a cycle uses are nonzero. */
  predicate Seeds(m: Medium, s: bv32)
    requires m.ssize >= 2
  {
    s != 0 && Seed(s, 1) != 0 && Seed(s, 2) != 0 && (Large(m.sectors, m.ssize) ==> Seed(s, 3) != 0)
  }

  lemma FillPattern(reg: bv32, s: bv32, n: nat)
    requires s != 0
    ensures Fill(reg, s, n) == Pattern(s, 0, n)
  {
    hide Step;
    assert Steps(Seeded(0, s), 0) == Seeded(0, s);
  }

  lemma PatternHalves(s: bv32, n: nat)
    requires s != 0
    ensures Pattern(s, 0, 2 * n)[..n] == Pattern(s, 0, n)
    ensures Pattern(s, 0, 2 * n)[n..] == Pattern(s, n, n)
  {
    hide Step;
    BytesAdd(Seeded(0, s), n, n);
    assert Steps(Seeded(0, s), 0) == Seeded(0, s);
  }

  /** A cycle whose seeds are nonzero does not depend on the register it starts from. */
  lemma CycleOn(m: Medium, cfg: Config, room: nat, log: seq<Request>, reg: bv32, s: bv32)
    requires m.Valid() && Matches(m, cfg) && Seeds(m, s)
    ensures Cycle(On(m, cfg, room), log, reg, s) == CycleVerdict(m, room, PlanOf(m, cfg, room, log, s))
  {
    hide On, Perform, Regions, RegionsReg, RegionsVerdict, BarrierOf, BarrierVerdict;
    hide Prologue, PrologueLog, Barrier, Seed;
    SetupOf(m, cfg, room);
    PrologueOn(m, cfg, room, log);
    var p, sz, q := On(m, cfg, room), m.ssize, PlanOf(m, cfg, room, log, s);
    RegionsOn(m, cfg, room, q.start, reg, s);
    var o := RegionsVerdict(m, room, q);
    assert Regions(p, q.start, reg, s) == o;
    if o.Stop? || !Large(m.sectors, sz) {
      assert Cycle(p, log, reg, s) == o;
    } else {
      RegionsEnd(m, room, q);
      var r := RegionsReg(p, reg, s);
      BarrierOn(m, cfg, room, q, r);
      assert Cycle(p, log, reg, s) == Perform(p, BarrierOf(sz, r, Seed(s, 3)), o.log);
    }
  }

  /** Three passed tests leave exactly their nine calls in the log. */
  lemma RegionsEnd(m: Medium, room: nat, q: Plan)
    requires m.span > 0
    ensures RegionsVerdict(m, room, q).Done? ==> RegionsVerdict(m, room, q).log == q.L3()
  {
    hide Store, Pattern, AfterRegion, Seed;
  }

  lemma BarrierOn(m: Medium, cfg: Config, room: nat, q: Plan, reg: bv32)
    requires m.Valid() && m.ssize == q.ssize && Seed(q.seed, 3) != 0
    ensures Perform(On(m, cfg, room), BarrierOf(m.ssize, reg, Seed(q.seed, 3)), q.L3()) == BarrierVerdict(m, room, q)
  {
    hide On, Perform, Fill, Filled, Pattern, Store, AfterBarrier, AfterRegion, Barrier, BarrierScript, Seed;
    var sz, s := m.ssize, Seed(q.seed, 3);
    FillPattern(reg, s, 2 * sz);
    FillPattern(Filled(reg, s, 2 * sz), s, 2 * sz);
    BarrierOutcome(m, cfg, room, q.L3(), q.D4(), q.D4());
  }

  lemma RegionsOn(m: Medium, cfg: Config, room: nat, start: seq<Request>, reg: bv32, s: bv32)
    requires m.Usable() && s != 0 && Seed(s, 1) != 0 && Seed(s, 2) != 0
    ensures Regions(On(m, cfg, room), start, reg, s) ==
            RegionsVerdict(m, room, Plan(m.ssize, MultiOf(room, m.ssize), start, s))
  {
    hide On, Perform, Region, RegionResult, Replayed, Pattern, Seed;
    SetupOf(m, cfg, room);
    var p, sz, ns := On(m, cfg, room), m.ssize, MultiOf(room, m.ssize);
    var q, n := Plan(sz, ns, start, s), ns * sz;
    var e1, e2, e3 := Extent(1 * sz, 1 * sz), Extent(n, n), Extent(1 * sz + 3, 1 * sz + 5);
    assert p.Multi() == ns && p.ssize == sz;
    RegionOn(m, cfg, room, start, 0, 1, reg, s, e1, 6, 10);
    var o1 := RegionResult(m, room, start, 0, 1, q.D1(), q.D1(), e1, 10);
    var r1 := Replayed(reg, s, sz);
    RegionOn(m, cfg, room, o1.log, 1, ns, r1, Seed(s, 1), e2, 11, 14);
    var o2 := RegionResult(m, room, o1.log, 1, ns, q.D2(), q.D2(), e2, 14);
    var r2 := Replayed(r1, Seed(s, 1), n);
    RegionOn(m, cfg, room, o2.log, 5, 1, r2, Seed(s, 2), e3, 15, 18);
    assert o1 == Perform(p, Region(0, 1, sz, reg, s, Extent(sz, sz), 6, 10), start);
    assert o2 == Perform(p, Region(1, p.Multi(), sz, r1, Seed(s, 1), e2, 11, 14), o1.log);
    var o3 := RegionResult(m, room, o2.log, 5, 1, q.D3(), q.D3(), e3, 18);
    assert o3 == Perform(p, Region(5, 1, sz, r2, Seed(s, 2), Extent(sz + 3, sz + 5), 15, 18), o2.log);
    var o := if o1.Stop? then o1 else if o2.Stop? then o2 else o3;
    assert RegionsVerdict(m, room, q) == o;
    assert Regions(p, start, reg, s) == o;
  }

  lemma RegionOn(m: Medium, cfg: Config, room: nat, log: seq<Request>, lba: nat, count: nat, reg: bv32, s: bv32,
                 e: Extent, code: nat, differs: nat)
    requires m.Usable() && s != 0
    ensures var data := Pattern(s, 0, count * m.ssize);
            Perform(On(m, cfg, room), Region(lba, count, m.ssize, reg, s, e, code, differs), log) ==
            RegionResult(m, room, log, lba, count, data, data, e, differs)
  {
    hide On, Perform, Region, RegionResult, RegionScript, Pattern;
    var data := Pattern(s, 0, count * m.ssize);
    SeededRegion(lba, count, m.ssize, reg, s, e, code, differs);
    RegionOutcome(m, cfg, room, log, lba, count, data, data, e, code, differs);
  }

  lemma SeededRegion(lba: nat, count: nat, ssize: nat, reg: bv32, s: bv32, e: Extent, code: nat, differs: nat)
    requires s != 0
    ensures Region(lba, count, ssize, reg, s, e, code, differs) ==
            RegionScript(lba, count, Pattern(s, 0, count * ssize), Pattern(s, 0, count * ssize), e, code, differs)
  {
    hide Step, Seeded, Steps, Bytes;
    FillPattern(reg, s, count * ssize);
    FillPattern(Filled(reg, s, count * ssize), s, count * ssize);
  }

  // ---------------------------------------------------------------- seeds on the way

  /** The seed a cycle starts with, as long as the counter has not come to zero where that matters. */
  predicate OnTrack(m: Medium, s: bv32)
    requires m.ssize >= 2
  {
    if Large(m.sectors, m.ssize) then Starts(s) else OddCycle(s)
  }

  /** Cycles to come before the one with seed zero; on a drive without barrier test that seed is never used. */
  predicate Early(m: Medium, s: bv32)
    requires m.ssize >= 2 && OnTrack(m, s)
  {
    Large(m.sectors, m.ssize) ==> Remaining(s) > 0
  }

  lemma TrackStep(m: Medium, s: bv32)
    requires m.ssize >= 2 && OnTrack(m, s)
    ensures if Early(m, s) then Seeds(m, s) && OnTrack(m, Seed(s, 4)) else s == LAST
    ensures Early(m, s) && Large(m.sectors, m.ssize) ==> Remaining(Seed(s, 4)) == Remaining(s) - 1
  {
    hide Seed, Starts, Remaining, OddCycle;
    if Large(m.sectors, m.ssize) { NextStarts(s); } else { OddCycleSeeds(s); }
  }

  lemma TrackFirst(m: Medium)
    requires m.ssize >= 2
    ensures OnTrack(m, 1) && Early(m, 1) && (Large(m.sectors, m.ssize) ==> Remaining(1) == 0x3FFF_FFFF)
  {
    hide Starts, Remaining;
    FirstStarts();
  }

  // ---------------------------------------------------------------- zero means completion

  predicate Reports(script: Script) {
    match script
    case End => true
    case Touch(_, rest) => Reports(rest)
    case Ask(_, code, rest) => code != 0 && Reports(rest)
    case Expect(_, code, rest) => code != 0 && Reports(rest)
  }

  lemma {:induction false} RunReports(b: Behaviour, ssize: nat, room: nat, script: Script,
                                      log: seq<Request>, got: seq<byte>)
    requires Reports(script)
    ensures var o := Run(b, ssize, room, script, log, got);
            o.Stop? ==> o.verdict != Exit(0) && o.verdict != DivideByZero
    decreases script
  {
    if script.Ask? {
      var l := log + [script.req];
      RunReports(b, ssize, room, script.rest, l,
                 if script.req.Read? then got + Transfer(b(l), script.req.count * ssize) else got);
    } else if !script.End? {
      RunReports(b, ssize, room, script.rest, log, if script.Expect? then [] else got);
    }
  }

  lemma RegionReports(p: Setup, lba: nat, count: nat, reg: bv32, s: bv32, e: Extent, code: nat, differs: nat,
                      log: seq<Request>)
    requires code != 0 && differs != 0
    ensures var o := Perform(p, Region(lba, count, p.ssize, reg, s, e, code, differs), log);
            o.Stop? ==> o.verdict != Exit(0) && o.verdict != DivideByZero
  {
    hide Fill, Filled, Run;
    var script := Region(lba, count, p.ssize, reg, s, e, code, differs);
    assert Reports(script.rest.rest.rest.rest.rest);
    assert Reports(script.rest.rest.rest);
    assert Reports(script.rest);
    RunReports(p.b, p.ssize, p.room, script, log, []);
  }

  lemma RegionsReport(p: Setup, log: seq<Request>, reg: bv32, s: bv32)
    ensures var o := Regions(p, log, reg, s);
            o.Stop? ==> o.verdict != Exit(0) && (o.verdict == DivideByZero ==> p.ssize == 0)
  {
    hide Seed, Perform, Region, Replayed;
    var sz := p.ssize;
    RegionReports(p, 0, 1, reg, s, Extent(sz, sz), 6, 10, log);
    if sz > 0 {
      var o1 := Perform(p, Region(0, 1, sz, reg, s, Extent(sz, sz), 6, 10), log);
      var r1, n := Replayed(reg, s, sz), p.Multi() * sz;
      RegionReports(p, 1, p.Multi(), r1, Seed(s, 1), Extent(n, n), 11, 14, o1.log);
      var o2 := Perform(p, Region(1, p.Multi(), sz, r1, Seed(s, 1), Extent(n, n), 11, 14), o1.log);
      RegionReports(p, 5, 1, Replayed(r1, Seed(s, 1), n), Seed(s, 2), Extent(sz + 3, sz + 5), 15, 18, o2.log);
    }
  }

  /** On any driver a cycle cut short does not return 0, and it divides by zero only when the driver reported a
      sector size below 2. */
  lemma CycleReports(p: Setup, log: seq<Request>, reg: bv32, s: bv32)
    ensures var o := Cycle(p, log, reg, s);
            o.Stop? ==> o.verdict != Exit(0) && (o.verdict == DivideByZero ==> Prologue(p, log).2 < 2)
  {
    hide Seed, Barrier, Perform, Regions, RegionsReg, BarrierOf;
    var (o0, drive, sz) := Prologue(p, log);
    var q := p.Sized(sz);
    RegionsReport(q, o0.log, reg, s);
    if sz >= 2 { BarrierReports(q, RegionsReg(q, reg, s), Seed(s, 3), Regions(q, o0.log, reg, s).log); }
  }

  lemma BarrierReports(p: Setup, reg: bv32, s: bv32, log: seq<Request>)
    requires p.ssize >= 2
    ensures var o := Perform(p, BarrierOf(p.ssize, reg, s), log);
            o.Stop? ==> o.verdict != Exit(0) && o.verdict != DivideByZero
  {
    hide Fill, Filled, Run, Barrier;
    var script := BarrierOf(p.ssize, reg, s);
    var tail := script.rest.rest.rest.rest;
    assert Reports(tail.rest.rest.rest);
    assert Reports(tail.rest);
    assert Reports(script.rest.rest.rest);
    assert Reports(script.rest);
    RunReports(p.b, p.ssize, p.room, script, log, []);
  }

  /** A region test passes: it finds room, every call of it succeeds, and the bytes read are those expected. */
  predicate RegionPasses(p: Setup, log: seq<Request>, lba: nat, count: nat, out: seq<byte>, back: seq<byte>,
                         e: Extent)
  {
    var log3 := AfterRegion(log, lba, count, out);
    p.room >= e.fill && p.room >= e.reach &&
    p.b(log + [Write(lba, out)]).status == 0 && p.b(log + [Write(lba, out)] + [Sync]).status == 0 &&
    p.b(log3).status == 0 && Transfer(p.b(log3), count * p.ssize) == back
  }

  lemma RegionCompleted(p: Setup, log: seq<Request>, lba: nat, count: nat, reg: bv32, s: bv32, e: Extent,
                        code: nat, differs: nat)
    ensures var n := count * p.ssize;
            var out, back := Fill(reg, s, n), Fill(Filled(reg, s, n), s, n);
            var o := Perform(p, Region(lba, count, p.ssize, reg, s, e, code, differs), log);
            (o.Done? <==> RegionPasses(p, log, lba, count, out, back, e)) &&
            (o.Done? ==> o.log == AfterRegion(log, lba, count, out))
  {
    hide Fill, Filled, Perform, RegionScript, Transfer;
    var n := count * p.ssize;
    RegionRuns(p, lba, count, Fill(reg, s, n), Fill(Filled(reg, s, n), s, n), e, code, differs, log);
  }

  /** For a reported sector size of 0 the checker divides by zero exactly when the first write, its synchronisation
      and the read back succeed; when one of them fails it returns the code of that call. */
  lemma ZeroSizeVerdict(p: Setup, log: seq<Request>, reg: bv32, s: bv32)
    requires Prologue(p, log).0.Done? && Prologue(p, log).2 == 0
    ensures var l := Prologue(p, log).0.log;
            var l1 := l + [Write(0, [])];
            var l2 := l1 + [Sync];
            var l3 := l2 + [Read(0, 1)];
            Cycle(p, log, reg, s) ==
            if p.b(l1).status != 0 then Stop(Exit(6), l1)
            else if p.b(l2).status != 0 then Stop(Exit(7), l2)
            else if p.b(l3).status != 0 then Stop(Exit(8), l3)
            else Stop(DivideByZero, l3)
  {
    hide Perform, Fill, Filled, RegionScript, Transfer, Seed, Replayed;
    var q, l := p.Sized(0), Prologue(p, log).0.log;
    hide Prologue;
    var out, back := Fill(reg, s, 1 * 0), Fill(Filled(reg, s, 1 * 0), s, 1 * 0);
    RegionRuns(q, 0, 1, out, back, Extent(0, 0), 6, 10, l);
    assert out == [] == back && |Transfer(q.b(l + [Write(0, [])] + [Sync] + [Read(0, 1)]), 1 * 0)| == 0 by {
      NoTransfer(q.b(l + [Write(0, [])] + [Sync] + [Read(0, 1)]));
    }
    assert Cycle(p, log, reg, s) == Regions(q, l, reg, s);
  }

  lemma NoTransfer(r: Response)
    ensures Transfer(r, 0) == []
  {
  }

  /** For a reported sector size of 1 it divides by zero exactly when the buffer holds six bytes and all three region
      tests pass, the second on as many bytes as the buffer has, up to four. */
  lemma OneSizeVerdict(p: Setup, log: seq<Request>, reg: bv32, s: bv32)
    requires Prologue(p, log).0.Done? && Prologue(p, log).2 == 1
    ensures var l, q, n := Prologue(p, log).0.log, p.Sized(1), Min(p.room, 4);
            var r1 := Replayed(reg, s, 1);
            var r2 := Replayed(r1, Seed(s, 1), n);
            var d1, d2, d3 := Fill(reg, s, 1), Fill(r1, Seed(s, 1), n), Fill(r2, Seed(s, 2), 1);
            var b1, b2, b3 := Fill(Filled(reg, s, 1), s, 1), Fill(Filled(r1, Seed(s, 1), n), Seed(s, 1), n),
                              Fill(Filled(r2, Seed(s, 2), 1), Seed(s, 2), 1);
            var l1 := AfterRegion(l, 0, 1, d1);
            var l2 := AfterRegion(l1, 1, n, d2);
            Cycle(p, log, reg, s).Stop? &&
            (Cycle(p, log, reg, s).verdict == DivideByZero <==>
             RegionPasses(q, l, 0, 1, d1, b1, Extent(1, 1)) && RegionPasses(q, l1, 1, n, d2, b2, Extent(n, n)) &&
             RegionPasses(q, l2, 5, 1, d3, b3, Extent(4, 6)))
  {
    hide Perform, Region, Fill, Filled, Transfer, Seed, Replayed, RegionPasses, AfterRegion;
    var q, l, n := p.Sized(1), Prologue(p, log).0.log, Min(p.room, 4);
    assert Cycle(p, log, reg, s) ==
      var o := Regions(q, l, reg, s); if o.Stop? then o else Stop(DivideByZero, o.log);
    hide Prologue;
    assert q.Multi() == n && 1 * 1 == 1 && n * 1 == n && q.ssize == 1;
    RegionsReport(q, l, reg, s);
    var r1 := Replayed(reg, s, 1);
    var r2 := Replayed(r1, Seed(s, 1), n);
    var l1 := AfterRegion(l, 0, 1, Fill(reg, s, 1));
    var l2 := AfterRegion(l1, 1, n, Fill(r1, Seed(s, 1), n));
    RegionCompleted(q, l, 0, 1, reg, s, Extent(1, 1), 6, 10);
    RegionCompleted(q, l1, 1, n, r1, Seed(s, 1), Extent(n, n), 11, 14);
    RegionCompleted(q, l2, 5, 1, r2, Seed(s, 2), Extent(4, 6), 15, 18);
    var o1 := Perform(q, Region(0, 1, 1, reg, s, Extent(1, 1), 6, 10), l);
    var o2 := Perform(q, Region(1, n, 1, r1, Seed(s, 1), Extent(n, n), 11, 14), l1);
    var o3 := Perform(q, Region(5, 1, 1, r2, Seed(s, 2), Extent(4, 6), 15, 18), l2);
    assert Regions(q, l, reg, s) == if o1.Stop? then o1 else if o2.Stop? then o2 else o3;
  }

  /** A driver for 200 sectors that reports a sector size of 0; its calls succeed, except its writes if `broken`. */
  function SizelessDriver(broken: bool): Behaviour {
    (log: seq<Request>) =>
      if |log| > 0 && log[|log| - 1].SectorCount? then Response(0, 200, _ => 0)
      else Response(if broken && |log| > 0 && log[|log| - 1].Write? then 1 else 0, 0, _ => 0)
  }

  /** With that driver the checker divides by zero, or reports the write, with a buffer that passes its guard. */
  lemma DivisionExample(broken: bool, reg: bv32)
    ensures Check(Setup(SizelessDriver(broken), Config(4096, 512), 4100, 0), 1, [], reg).0 ==
            if broken then Exit(6) else DivideByZero
  {
    var p := Setup(SizelessDriver(broken), Config(4096, 512), 4100, 0);
    SizelessPrologue(p, broken);
    SizelessCycle(p, broken, reg);
    hide Cycle, CycleReg, Prologue, Seed, SizelessDriver;
    assert Cycles(p, 1, [], reg, 1) == Cycle(p, [], reg, 1);
  }

  lemma SizelessPrologue(p: Setup, broken: bool)
    requires p.b == SizelessDriver(broken) && p.cfg == Config(4096, 512)
    ensures Prologue(p, []) == (Done([Initialize, SectorCount, SectorSize, BlockSize]), 200, 0)
  {
    assert [] + [Initialize] == [Initialize] && [Initialize] + [SectorCount] == [Initialize, SectorCount];
    assert [Initialize, SectorCount] + [SectorSize] == [Initialize, SectorCount, SectorSize];
    assert [Initialize, SectorCount, SectorSize] + [BlockSize] == [Initialize, SectorCount, SectorSize, BlockSize];
  }

  lemma SizelessCycle(p: Setup, broken: bool, reg: bv32)
    requires p.b == SizelessDriver(broken) && Prologue(p, []).0.Done? && Prologue(p, []).2 == 0
    ensures var o := Cycle(p, [], reg, 1); o.Stop? && o.verdict == if broken then Exit(6) else DivideByZero
  {
    hide Cycle, Prologue;
    ZeroSizeVerdict(p, [], reg, 1);
  }

  /** On every driver whatsoever, whatever sizes it reports, a cycle that is cut short does not return 0. */
  lemma {:induction false} ZeroMeansCompleted(p: Setup, n: nat, log: seq<Request>, reg: bv32, s: bv32)
    ensures var o := Cycles(p, n, log, reg, s); o.Stop? ==> o.verdict != Exit(0)
    decreases n
  {
    hide Cycle, CycleReg, Seed;
    if n != 0 {
      CycleReports(p, log, reg, s);
      var o := Cycle(p, log, reg, s);
      if o.Done? {
        ZeroMeansCompleted(p, n - 1, o.log, CycleReg(p, log, reg, s), Seed(s, 4));
      }
    }
  }

  // ---------------------------------------------------------------- honest disks

  ghost predicate KeepsAll(m: Medium) {
    forall i: nat :: m.keep(i)
  }

  lemma HonestCycle(m: Medium, room: nat, q: Plan)
    requires m.Unaliased() && KeepsAll(m) && q.ssize == m.ssize && q.multi == MultiOf(room, m.ssize)
    requires Seeds(m, q.seed)
    ensures var o := CycleVerdict(m, room, q);
            if TooSmall(m, room) then o.Stop? && o.verdict == Overrun else o.Done?
  {
    hide Store, Pattern, AfterRegion, Barrier, AfterBarrier, Seed, RegionsVerdict;
    var sz := m.ssize;
    MultiFits(room, sz);
    HonestRegions(m, room, q);
    if Large(m.sectors, sz) {
      BarrierStore(m, q.L3(), q.D4());
      RegionsEnd(m, room, q);
      assert m.keep(|q.L3()|) && m.keep(|q.L3()| + 1);
      assert q.D4()[..sz] + q.D4()[sz..] == q.D4();
    }
  }

  /** The buffer is too small for some test of a cycle. */
  predicate TooSmall(m: Medium, room: nat)
    requires m.ssize >= 2
  {
    room < m.ssize + 5 || (Large(m.sectors, m.ssize) && room < 2 * m.ssize + 1)
  }

  /** The verdict on an honest disk, whatever the erase-block query returns and however many cycles are asked for.
      It passes exactly when the buffer has room for the misaligned test and, on a drive with the barrier test, for
      that test and the byte its comparison looks at beyond the data, and when on such a drive the cycle that
      comes to seed zero is not reached: that cycle always reports a difference. */
  lemma HonestVerdict(m: Medium, cfg: Config, room: nat, ncyc: nat, log: seq<Request>, reg: bv32)
    requires m.Unaliased() && KeepsAll(m) && Matches(m, cfg)
    requires Large(m.sectors, m.ssize) && ncyc >= 0x4000_0000 ==> m.ssize >= 16
    ensures Check(On(m, cfg, room), ncyc, log, reg).0 ==
            if room < cfg.maxSS + 4 then Exit(1)
            else if ncyc == 0 then Exit(0)
            else if TooSmall(m, room) then Overrun
            else if Large(m.sectors, m.ssize) && ncyc >= 0x4000_0000 then Exit(24)
            else Exit(0)
  {
    hide On, Cycle, CycleReg, Starts, Remaining, OddCycle;
    SetupOf(m, cfg, room);
    TrackFirst(m);
    HonestCycles(m, cfg, room, ncyc, log, reg, 1);
  }

  lemma {:induction false} HonestCycles(m: Medium, cfg: Config, room: nat, n: nat, log: seq<Request>,
                                        reg: bv32, s: bv32)
    requires m.Unaliased() && KeepsAll(m) && Matches(m, cfg) && OnTrack(m, s)
    requires Large(m.sectors, m.ssize) && n > Remaining(s) ==> m.ssize >= 16
    ensures var o := Cycles(On(m, cfg, room), n, log, reg, s);
            if n > 0 && TooSmall(m, room) then o.Stop? && (Early(m, s) ==> o.verdict == Overrun)
            else if Large(m.sectors, m.ssize) && n > Remaining(s) then o.Stop? && o.verdict == Exit(24)
            else o.Done?
    decreases n
  {
    hide On, Cycle, CycleReg, CycleVerdict, Starts, Remaining, OddCycle, Seed, PrologueLog, Seeds, TooSmall;
    SetupOf(m, cfg, room);
    TrackStep(m, s);
    if n != 0 {
      if Early(m, s) {
        var p, q := On(m, cfg, room), PlanOf(m, cfg, room, log, s);
        CycleOn(m, cfg, room, log, reg, s);
        HonestCycle(m, room, q);
        var o := Cycle(p, log, reg, s);
        if o.Done? && n > 1 {
          HonestCycles(m, cfg, room, n - 1, o.log, CycleReg(p, log, reg, s), Seed(s, 4));
        }
      } else {
        HonestZeroCycle(m, cfg, room, log, reg);
      }
    }
  }

  /** A buffer of 516 bytes passes the guard for 512-byte sectors, and the misaligned test runs over its end. */
  lemma OverrunExample(blank: nat -> byte, erase: nat, log: seq<Request>, reg: bv32)
    ensures var m := Medium(200, 512, FOUR_GIB, _ => true, blank, erase);
            Check(On(m, Config(512, 512), 516), 1, log, reg).0 == Overrun
  {
    var m := Medium(200, 512, FOUR_GIB, _ => true, blank, erase);
    hide Check, On;
    assert KeepsAll(m) && TooSmall(m, 516);
    HonestVerdict(m, Config(512, 512), 516, 1, log, reg);
  }

  /** With a buffer of two kilobytes an honest 4 GB card passes any number of cycles below 2^30 and is
      reported from then on. */
  lemma EnduranceExample(blank: nat -> byte, erase: nat, ncyc: nat, log: seq<Request>, reg: bv32)
    requires ncyc > 0
    ensures var m := Medium(8_388_736, 512, 2 * FOUR_GIB, _ => true, blank, erase);
            Check(On(m, Config(512, 512), 2048), ncyc, log, reg).0 == Exit(if ncyc < 0x4000_0000 then 0 else 24)
  {
    var m := Medium(8_388_736, 512, 2 * FOUR_GIB, _ => true, blank, erase);
    hide Check, On;
    assert KeepsAll(m) && Large(m.sectors, 512) && !TooSmall(m, 2048);
    HonestVerdict(m, Config(512, 512), 2048, ncyc, log, reg);
  }

  // ---------------------------------------------------------------- the cycle with seed zero

  /** The register when the barrier test of that cycle begins. */
  function ZeroRegister(ssize: nat): bv32 {
    Steps(Seeded(0, 0xFFFF_FFFF), ssize)
  }

  /** What that test writes, and what it expects to read: seed zero does not reseed, so the replay goes on. */
  function Written(ssize: nat): (d: seq<byte>)
    ensures |d| == 2 * ssize
  {
    Fill(ZeroRegister(ssize), 0, 2 * ssize)
  }

  function Expected(ssize: nat): (d: seq<byte>)
    ensures |d| == 2 * ssize
  {
    Fill(Filled(ZeroRegister(ssize), 0, 2 * ssize), 0, 2 * ssize)
  }

  /** Seed zero does not reseed, so the replay continues where the fill stopped: it repeats the fill
      exactly when the register returns to itself after one step more than the bytes filled. */
  lemma ZeroSeedReplay(reg: bv32, n: nat)
    requires n >= 32
    ensures Fill(Filled(reg, 0, n), 0, n) == Fill(reg, 0, n) <==> Steps(Step(reg), n + 1) == Step(reg)
  {
    var x := Step(reg);
    NextByte(x, n);
    assert Seeded(reg, 0) == x && Seeded(Filled(reg, 0, n), 0) == Steps(x, n + 1);
    hide Step, Seeded;
    if Bytes(Steps(x, n + 1), n) == Bytes(x, n) {
      PrefixDetermines(Steps(x, n + 1), x, n);
    }
  }

  lemma ZeroRegisterNonzero(ssize: nat)
    ensures ZeroRegister(ssize) != 0 && Step(ZeroRegister(ssize)) != 0
    ensures Step(ZeroRegister(ssize)) == Steps(0xFFFF_FFFF, 34 + ssize)
  {
    hide Steps, Step;
    StepsNonzero(0xFFFF_FFFF, 33);
    StepsNonzero(Steps(0xFFFF_FFFF, 33), ssize);
    StepsAdd(0xFFFF_FFFF, 33, ssize);
    NextByte(0xFFFF_FFFF, 33 + ssize);
    StepsNonzero(0xFFFF_FFFF, 34 + ssize);
  }

  /** By the full period of the generator, what is expected is never what was written. */
  lemma ExpectedDiffers(ssize: nat)
    requires 16 <= ssize < 0x1_0000
    ensures Expected(ssize) != Written(ssize)
  {
    var r := ZeroRegister(ssize);
    ZeroSeedReplay(r, 2 * ssize);
    ZeroRegisterNonzero(ssize);
    FullPeriod(Step(r), 2 * ssize + 1);
    hide Steps, Step, Fill, Filled;
  }

  /** A sector-long piece of the stream from `reg` on determines `reg`. */
  lemma StreamDetermines(x: bv32, y: bv32, n: nat, long: nat)
    requires 32 <= n <= long && Bytes(x, long)[..n] == Bytes(y, n)
    ensures x == y
  {
    hide Step, Bytes, Steps;
    BytesAdd(x, n, long - n);
    assert Bytes(x, long)[..n] == Bytes(x, n);
    PrefixDetermines(x, y, n);
  }

  /** The first sector expected is neither the first sector written nor that of the cycle before. */
  lemma ExpectedIsNew(ssize: nat)
    requires 32 <= ssize < 0x1_0000
    ensures Expected(ssize)[..ssize] != Written(ssize)[..ssize]
    ensures Expected(ssize)[..ssize] != Pattern(0xFFFF_FFFC, 0, ssize)
  {
    hide Steps, Step, Bytes;
    var r, n := ZeroRegister(ssize), 2 * ssize;
    var x := Step(r);
    ZeroRegisterNonzero(ssize);
    NextByte(x, n);
    var y := Steps(x, n + 1);
    assert Expected(ssize) == Bytes(y, n) && Written(ssize) == Bytes(x, n);
    FullPeriod(x, n + 1);
    BytesAdd(x, ssize, ssize);
    assert Bytes(x, n)[..ssize] == Bytes(x, ssize);
    if Bytes(y, n)[..ssize] == Bytes(x, ssize) { StreamDetermines(y, x, ssize, n); }
    StepsAdd(0xFFFF_FFFF, 34 + ssize, n + 1);
    StepsAdd(0xFFFF_FFFF, 3 * ssize + 2, 33);
    LargestApart(3 * ssize + 2);
    var z := Steps(0xFFFF_FFFC, 33);
    PatternFrom(0xFFFF_FFFC, ssize);
    if Bytes(y, n)[..ssize] == Bytes(z, ssize) {
      StreamDetermines(y, z, ssize, n);
      StepsInjective(Steps(0xFFFF_FFFF, 3 * ssize + 2), 0xFFFF_FFFC, 33);
    }
  }

  lemma PatternFrom(s: bv32, n: nat)
    requires s != 0
    ensures Pattern(s, 0, n) == Bytes(Steps(s, 33), n)
  {
    assert Steps(Seeded(0, s), 0) == Seeded(0, s);
    hide Step, Bytes;
  }

  lemma ZeroRegion(p: Setup, reg: bv32)
    requires p.ssize > 0
    ensures RegionsReg(p, reg, LAST) == ZeroRegister(p.ssize)
  {
    LastSeeds();
    hide Seed, Steps;
  }

  /** Outcome of the barrier test with seed zero. */
  function ZeroVerdict(m: Medium, room: nat, q: Plan): Outcome
    requires m.span > 0 && q.ssize >= 2
  {
    var end := AfterBarrier(q.L3(), q.ssize, Written(q.ssize));
    if room < 2 * q.ssize then Stop(Overrun, q.L3())
    else if Store(m, end, 6, q.ssize) + Store(m, end, 6 + Barrier(q.ssize), q.ssize) != Expected(q.ssize) then
      Stop(Exit(24), end)
    else if room < 2 * q.ssize + 1 then Stop(Overrun, end)
    else Done(end)
  }

  lemma ZeroCycleOn(m: Medium, cfg: Config, room: nat, log: seq<Request>, reg: bv32)
    requires m.Valid() && Matches(m, cfg) && Large(m.sectors, m.ssize)
    ensures var q := PlanOf(m, cfg, room, log, LAST);
            var o := RegionsVerdict(m, room, q);
            Cycle(On(m, cfg, room), log, reg, LAST) == if o.Stop? then o else ZeroVerdict(m, room, q)
  {
    hide On, Perform, Regions, RegionsReg, RegionsVerdict, Written, Expected, Prologue, PrologueLog, Barrier, Seed;
    hide Store, AfterBarrier;
    SetupOf(m, cfg, room);
    LastSeeds();
    PrologueOn(m, cfg, room, log);
    var p, sz, q := On(m, cfg, room), m.ssize, PlanOf(m, cfg, room, log, LAST);
    RegionsOn(m, cfg, room, q.start, reg, LAST);
    var o := RegionsVerdict(m, room, q);
    assert Regions(p, q.start, reg, LAST) == o;
    hide BarrierOf, ZeroVerdict;
    if o.Done? {
      RegionsEnd(m, room, q);
      ZeroRegion(p, reg);
      ZeroBarrierOn(m, cfg, room, q);
      assert Cycle(p, log, reg, LAST) == Perform(p, BarrierOf(sz, ZeroRegister(sz), 0), o.log);
    } else {
      assert Cycle(p, log, reg, LAST) == o;
    }
  }

  lemma ZeroBarrierOn(m: Medium, cfg: Config, room: nat, q: Plan)
    requires m.Valid() && m.ssize == q.ssize
    ensures Perform(On(m, cfg, room), BarrierOf(m.ssize, ZeroRegister(m.ssize), 0), q.L3()) == ZeroVerdict(m, room, q)
  {
    hide On, Perform, Written, Expected, Store, AfterBarrier, AfterRegion, BarrierScript, BarrierOf, Barrier, Seed;
    hide Pattern, ZeroRegister;
    ZeroScript(m.ssize);
    BarrierOutcome(m, cfg, room, q.L3(), Written(m.ssize), Expected(m.ssize));
  }

  lemma ZeroScript(ssize: nat)
    requires ssize >= 2
    ensures BarrierOf(ssize, ZeroRegister(ssize), 0) ==
            BarrierScript(6, 6 + Barrier(ssize), Written(ssize), Expected(ssize), ssize)
  {
    hide Fill, Filled, Barrier, ZeroRegister;
  }

  lemma HonestZeroCycle(m: Medium, cfg: Config, room: nat, log: seq<Request>, reg: bv32)
    requires m.Unaliased() && KeepsAll(m) && Matches(m, cfg) && Large(m.sectors, m.ssize) && m.ssize >= 16
    ensures var o := Cycle(On(m, cfg, room), log, reg, LAST);
            o.Stop? && (!TooSmall(m, room) ==> o.verdict == Exit(24))
  {
    hide ZeroVerdict, RegionsVerdict, PrologueLog, Cycle, On, MultiOf;
    var q := PlanOf(m, cfg, room, log, LAST);
    ZeroCycleOn(m, cfg, room, log, reg);
    MultiFits(room, m.ssize);
    HonestRegions(m, room, q);
    HonestZero(m, room, q);
    hide Barrier;
  }

  lemma HonestZero(m: Medium, room: nat, q: Plan)
    requires m.Unaliased() && KeepsAll(m) && Large(m.sectors, m.ssize) && q.ssize == m.ssize >= 16
    ensures var o := ZeroVerdict(m, room, q);
            o.Stop? && (room >= 2 * m.ssize ==> o.verdict == Exit(24))
  {
    hide Store, AfterBarrier, Written, Expected;
    var sz := m.ssize;
    BarrierStore(m, q.L3(), Written(sz));
    hide Barrier;
    assert m.keep(|q.L3()|) && m.keep(|q.L3()| + 1);
    assert Written(sz)[..sz] + Written(sz)[sz..] == Written(sz);
    ExpectedDiffers(sz);
  }

  /** The three region tests on an honest disk. */
  lemma HonestRegions(m: Medium, room: nat, q: Plan)
    requires m.Usable() && m.sectors * m.ssize <= m.span && KeepsAll(m)
    requires q.ssize == m.ssize && q.multi <= 4 && q.multi * q.ssize <= room
    ensures var o := RegionsVerdict(m, room, q);
            if room < q.ssize + 5 then o.Stop? && o.verdict == Overrun else o.Done?
  {
    hide Store, Pattern, AfterRegion, Seed;
    var sz := m.ssize;
    MulMono(4, m.sectors, sz);
    MulMono(q.multi, 4, sz);
    RegionStore(m, q.start, 0, 1, q.D1());
    RegionStore(m, q.L1(), 1, q.multi, q.D2());
    RegionStore(m, q.L2(), 5, 1, q.D3());
    assert m.keep(|q.start|) && m.keep(|q.L1()|) && m.keep(|q.L2()|);
  }

  /** An honest disk with sectors of one byte makes the checker divide by zero, if the buffer has room for its tests. */
  lemma OneByteVerdict(m: Medium, cfg: Config, room: nat, ncyc: nat, log: seq<Request>, reg: bv32)
    requires m.Usable() && m.ssize == 1 && m.sectors <= m.span && KeepsAll(m) && Matches(m, cfg)
    requires room >= cfg.maxSS + 4 && room >= 6 && ncyc > 0
    ensures Check(On(m, cfg, room), ncyc, log, reg).0 == DivideByZero
  {
    hide On, Regions, RegionsVerdict, Seed, PrologueLog, CycleReg;
    var p, q := On(m, cfg, room), Plan(1, MultiOf(room, 1), PrologueLog(cfg, log), 1);
    SetupOf(m, cfg, room);
    PrologueOn(m, cfg, room, log);
    hide Prologue;
    OneIsOdd();
    OddCycleSeeds(1);
    RegionsOn(m, cfg, room, q.start, reg, 1);
    MultiFits(room, 1);
    assert q.multi * q.ssize <= room && m.sectors * m.ssize <= m.span;
    HonestRegions(m, room, q);
    assert Cycle(p, log, reg, 1).verdict == DivideByZero;
  }

  lemma OneIsOdd()
    ensures OddCycle(1)
  {
  }

  /** A card of 200 one-byte sectors, of which the driver tells the truth. */
  lemma OneByteExample(blank: nat -> byte, erase: nat, log: seq<Request>, reg: bv32)
    ensures var m := Medium(200, 1, FOUR_GIB, _ => true, blank, erase);
            Check(On(m, Config(4096, 512), 4100), 1, log, reg).0 == DivideByZero
  {
    var m := Medium(200, 1, FOUR_GIB, _ => true, blank, erase);
    hide Check, On;
    assert KeepsAll(m);
    OneByteVerdict(m, Config(4096, 512), 4100, 1, log, reg);
  }

  // ---------------------------------------------------------------- disks that wrap at 4 GiB

  lemma {:induction false} SectorSizes(k: nat)
    ensures var r := Pow2(k);
            r in {1, 2, 4, 8, 16, 32, 64, 128, 256, 512, 1024, 2048, 4096, 8192, 16384, 32768} || r >= 0x1_0000
    decreases k
  {
    if k != 0 {
      SectorSizes(k - 1);
    }
  }

  /** For a power-of-two sector size the two barrier sectors are exactly 4 GiB apart. */
  lemma BarrierBytes(k: nat)
    requires 2 <= Pow2(k) < 0x1_0000
    ensures Barrier(Pow2(k)) * Pow2(k) == FOUR_GIB
  {
    SectorSizes(k);
  }

  lemma WrapPlace(m: Medium, base: nat, i: nat, lba: nat)
    requires m.span == FOUR_GIB && lba * m.ssize == base + FOUR_GIB && base + i < FOUR_GIB
    ensures Place(m, lba, base + i) == i
  {
  }

  /** On a wrapping disk the write behind the barrier lands on sector 6. */
  lemma WrapStore(m: Medium, k: nat, log: seq<Request>, data: seq<byte>)
    requires m.Valid() && m.span == FOUR_GIB && m.ssize == Pow2(k) && m.keep(|log|) && |data| == m.ssize
    ensures Store(m, log + [Write(6 + Barrier(m.ssize), data)], 6, m.ssize) == data
  {
    hide Barrier, Pow2, Place;
    var sz, lba2 := m.ssize, 6 + Barrier(m.ssize);
    BarrierBytes(k);
    assert lba2 * sz == 6 * sz + FOUR_GIB;
    var end := log + [Write(lba2, data)];
    forall i | 0 <= i < sz ensures Store(m, end, 6, sz)[i] == data[i] {
      ContentStep(m, log, Write(lba2, data), 6 * sz + i);
      WrapPlace(m, 6 * sz, i, lba2);
    }
  }

  lemma WrapBarrier(m: Medium, k: nat, room: nat, q: Plan)
    requires m.Valid() && m.span == FOUR_GIB && KeepsAll(m) && m.ssize == q.ssize == Pow2(k) >= 32
    requires Seed(q.seed, 3) != 0 && room >= 2 * q.ssize
    ensures BarrierVerdict(m, room, q) == Stop(Exit(24), q.L4())
  {
    var sz, lba2, s := m.ssize, 6 + Barrier(m.ssize), Seed(q.seed, 3);
    hide Store, Pattern, AfterRegion, Barrier, Seed, Pow2;
    var data := q.D4();
    PatternHalves(s, sz);
    AdjacentSectorsDiffer(s, k);
    var l1 := q.L3() + [Write(6, data[..sz])];
    var l2 := l1 + [Write(lba2, data[sz..])];
    var l3 := l2 + [Sync];
    var l4 := l3 + [Read(6, 1)];
    assert m.keep(|l1|);
    WrapStore(m, k, l1, data[sz..]);
    StoreSame(m, l2, Sync, 6, sz);
    StoreSame(m, l3, Read(6, 1), 6, sz);
    StoreSame(m, l4, Read(lba2, 1), 6, sz);
    var got := Store(m, q.L4(), 6, sz) + Store(m, q.L4(), lba2, sz);
    assert got[..sz] == data[sz..];
    assert data[..sz] != data[sz..];
  }

  /** A large disk that keeps every write but takes addresses modulo 4 GiB never passes: the first cycle
      reports the barrier failure. */
  lemma WrapVerdict(m: Medium, k: nat, cfg: Config, room: nat, ncyc: nat, log: seq<Request>, reg: bv32)
    requires m.Valid() && m.span == FOUR_GIB && KeepsAll(m) && Large(m.sectors, m.ssize)
    requires Matches(m, cfg) && m.ssize == Pow2(k) >= 32
    requires room >= cfg.maxSS + 4 && room >= 2 * m.ssize && ncyc >= 1
    ensures Check(On(m, cfg, room), ncyc, log, reg).0 == Exit(24)
  {
    var p, q, sz := On(m, cfg, room), PlanOf(m, cfg, room, log, 1), m.ssize;
    assert p.room == room && p.cfg == cfg;
    TrackFirst(m);
    TrackStep(m, 1);
    CycleOn(m, cfg, room, log, reg, 1);
    hide On, Store, Pattern, AfterRegion, Barrier, AfterBarrier, Seed;
    hide Cycle, CycleReg, PrologueLog, Starts, Remaining, OddCycle, Pow2, BarrierVerdict;
    MultiFits(room, sz);
    MulMono(q.multi, 4, sz);
    RegionStore(m, q.start, 0, 1, q.D1());
    RegionStore(m, q.L1(), 1, q.multi, q.D2());
    RegionStore(m, q.L2(), 5, 1, q.D3());
    assert m.keep(|q.start|) && m.keep(|q.L1()|) && m.keep(|q.L2()|);
    RegionsEnd(m, room, q);
    WrapBarrier(m, k, room, q);
    assert Cycle(p, log, reg, 1) == Stop(Exit(24), q.L4());
  }

  /** An 8 GB card with 512-byte sectors behind a driver that drops the high address bits. */
  lemma WrapExample(blank: nat -> byte, erase: nat, room: nat, log: seq<Request>, reg: bv32)
    requires room >= 1024
    ensures var m := Medium(16_777_216, 512, FOUR_GIB, _ => true, blank, erase);
            Check(On(m, Config(512, 512), room), 1, log, reg).0 == Exit(24)
  {
    var m := Medium(16_777_216, 512, FOUR_GIB, _ => true, blank, erase);
    hide Check, On;
    assert Pow2(9) == 512 by { assert Pow2(4) == 16; }
    assert KeepsAll(m);
    WrapVerdict(m, 9, Config(512, 512), room, 1, log, reg);
  }

  // ---------------------------------------------------------------- disks that lose writes

  /** Every write issued from position `from` on was carried out. */
  ghost predicate Kept(m: Medium, log: seq<Request>, from: nat) {
    forall i :: from <= i < |log| && log[i].Write? ==> m.keep(i)
  }

  /** The tested sectors hold the data of the cycle with seeds `s ..`. */
  predicate Holds(m: Medium, multi: nat, log: seq<Request>, s: bv32)
    requires m.Valid()
  {
    var sz := m.ssize;
    Store(m, log, 0, 1 * sz) == Pattern(s, 0, 1 * sz) &&
    Store(m, log, 1, multi * sz) == Pattern(Seed(s, 1), 0, multi * sz) &&
    Store(m, log, 5, 1 * sz) == Pattern(Seed(s, 2), 0, 1 * sz) &&
    (Large(m.sectors, sz) ==>
       Store(m, log, 6, sz) == Pattern(Seed(s, 3), 0, sz) &&
       Store(m, log, 6 + Barrier(sz), sz) == Pattern(Seed(s, 3), sz, sz))
  }

  /** None of the tested sectors holds what the cycle with seeds `s ..` is about to write there. */
  predicate Stale(m: Medium, multi: nat, log: seq<Request>, s: bv32)
    requires m.Valid()
  {
    var sz := m.ssize;
    Store(m, log, 0, 1 * sz) != Pattern(s, 0, 1 * sz) &&
    Store(m, log, 1, multi * sz) != Pattern(Seed(s, 1), 0, multi * sz) &&
    Store(m, log, 5, 1 * sz) != Pattern(Seed(s, 2), 0, 1 * sz) &&
    (Large(m.sectors, sz) ==>
       Store(m, log, 6, sz) != Pattern(Seed(s, 3), 0, sz) &&
       Store(m, log, 6 + Barrier(sz), sz) != Pattern(Seed(s, 3), sz, sz))
  }

  lemma RegionKept(m: Medium, log: seq<Request>, lba: nat, count: nat, data: seq<byte>, from: nat)
    requires Kept(m, log, from) && m.keep(|log|)
    ensures Kept(m, AfterRegion(log, lba, count, data), from)
  {
  }

  lemma BarrierKept(m: Medium, log: seq<Request>, ssize: nat, data: seq<byte>, from: nat)
    requires |data| == 2 * ssize && ssize >= 2
    requires Kept(m, log, from) && m.keep(|log|) && m.keep(|log| + 1)
    ensures Kept(m, AfterBarrier(log, ssize, data), from)
  {
    hide Barrier;
  }

  lemma PrologueKept(m: Medium, cfg: Config, log: seq<Request>)
    ensures Kept(m, PrologueLog(cfg, log), |log|)
  {
  }

  /** The plan of a cycle on a medium large enough for its tests. */
  ghost predicate Placed(m: Medium, room: nat, q: Plan) {
    m.Unaliased() && q.ssize == m.ssize && 1 <= q.multi <= 4 && q.multi * q.ssize <= room
  }

  ghost predicate Fits(m: Medium, room: nat, q: Plan) {
    Placed(m, room, q) && Seeds(m, q.seed)
  }

  /** A cycle that gets past its region tests had room for them. */
  lemma RoomForRegions(m: Medium, room: nat, q: Plan)
    requires m.Unaliased() && q.ssize == m.ssize && q.multi == MultiOf(room, m.ssize)
    requires RegionsVerdict(m, room, q).Done?
    ensures Placed(m, room, q)
  {
    hide Store, Pattern, AfterRegion, Seed;
    MultiFits(room, m.ssize);
  }

  /** If the three region tests pass, the sectors hold their data and no write over stale contents was lost. */
  lemma RegionsPassed(m: Medium, room: nat, q: Plan)
    requires Fits(m, room, q) && RegionsVerdict(m, room, q).Done?
    ensures var sz := q.ssize;
            Store(m, q.L3(), 0, 1 * sz) == q.D1() && Store(m, q.L3(), 1, q.multi * sz) == q.D2() &&
            Store(m, q.L3(), 5, 1 * sz) == q.D3()
    ensures Stale(m, q.multi, q.start, q.seed) ==>
              m.keep(|q.start|) && m.keep(|q.L1()|) && m.keep(|q.L2()|)
  {
    hide Store, Pattern, AfterRegion, Barrier, Seed;
    var sz, ns := q.ssize, q.multi;
    MulMono(4, m.sectors, sz);
    MulMono(ns, 4, sz);
    RegionStore(m, q.start, 0, 1, q.D1());
    RegionStore(m, q.L1(), 1, ns, q.D2());
    RegionStore(m, q.L2(), 5, 1, q.D3());
    RegionApart(m, q.start, 0, 1, q.D1(), 1, ns);
    RegionApart(m, q.start, 0, 1, q.D1(), 5, 1);
    RegionApart(m, q.L1(), 1, ns, q.D2(), 0, 1);
    RegionApart(m, q.L1(), 1, ns, q.D2(), 5, 1);
    RegionApart(m, q.L2(), 5, 1, q.D3(), 0, 1);
    RegionApart(m, q.L2(), 5, 1, q.D3(), 1, ns);
  }

  /** The region tests leave the barrier sectors alone. */
  lemma BarrierSectorsUntouched(m: Medium, room: nat, q: Plan, lba: nat)
    requires Placed(m, room, q) && 6 <= lba < m.sectors
    ensures Store(m, q.L3(), lba, 1 * q.ssize) == Store(m, q.start, lba, 1 * q.ssize)
  {
    hide Store, Pattern, AfterRegion, Seed;
    RegionApart(m, q.start, 0, 1, q.D1(), lba, 1);
    RegionApart(m, q.L1(), 1, q.multi, q.D2(), lba, 1);
    RegionApart(m, q.L2(), 5, 1, q.D3(), lba, 1);
  }

  lemma BarrierPassed(m: Medium, room: nat, q: Plan)
    requires Fits(m, room, q) && Large(m.sectors, m.ssize) && BarrierVerdict(m, room, q).Done?
    requires Store(m, q.L3(), 0, 1 * q.ssize) == q.D1() && Store(m, q.L3(), 1, q.multi * q.ssize) == q.D2()
    requires Store(m, q.L3(), 5, 1 * q.ssize) == q.D3()
    ensures Holds(m, q.multi, q.L4(), q.seed)
    ensures Stale(m, q.multi, q.start, q.seed) ==> m.keep(|q.L3()|) && m.keep(|q.L3()| + 1)
  {
    hide Store, Pattern, AfterRegion, Barrier, AfterBarrier, Seed;
    var sz, lba2, data := q.ssize, 6 + Barrier(q.ssize), q.D4();
    BarrierApart(m, q.L3(), data, 0, 1);
    BarrierApart(m, q.L3(), data, 1, q.multi);
    BarrierApart(m, q.L3(), data, 5, 1);
    PatternHalves(Seed(q.seed, 3), sz);
    BarrierStore(m, q.L3(), data);
    BarrierFar(m.sectors, sz);
    BarrierSectorsUntouched(m, room, q, 6);
    BarrierSectorsUntouched(m, room, q, lba2);
    var got := Store(m, q.L4(), 6, sz) + Store(m, q.L4(), lba2, sz);
    assert got[..sz] == data[..sz] && got[sz..] == data[sz..];
    assert 1 * sz == sz;
  }

  /** A passed cycle leaves its data behind, and if it started from stale contents it lost no write. */
  lemma CyclePassed(m: Medium, cfg: Config, room: nat, log: seq<Request>, s: bv32, q: Plan)
    requires m.ssize > 0 && Matches(m, cfg) && q == PlanOf(m, cfg, room, log, s) && Fits(m, room, q)
    requires CycleVerdict(m, room, q).Done?
    ensures var end := CycleVerdict(m, room, q).log;
            log <= end && Holds(m, q.multi, end, s) && (Stale(m, q.multi, log, s) ==> Kept(m, end, |log|))
  {
    hide Store, Pattern, Barrier, Seed, RegionsVerdict, BarrierVerdict;
    hide Stale, Seeds, AfterRegion, AfterBarrier, Kept, PrologueLog;
    RegionsEnd(m, room, q);
    RegionsPassed(m, room, q);
    StaleAfterPrologue(m, cfg, room, log, s, q.multi);
    PrologueKept(m, cfg, log);
    if Stale(m, q.multi, log, s) {
      RegionKept(m, q.start, 0, 1, q.D1(), |log|);
      RegionKept(m, q.L1(), 1, q.multi, q.D2(), |log|);
      RegionKept(m, q.L2(), 5, 1, q.D3(), |log|);
    }
    LogGrows(cfg, log, q);
    if Large(m.sectors, m.ssize) {
      BarrierEnd(m, room, q);
      BarrierPassed(m, room, q);
      if Stale(m, q.multi, log, s) { BarrierKept(m, q.L3(), q.ssize, q.D4(), |log|); }
    }
  }

  lemma BarrierEnd(m: Medium, room: nat, q: Plan)
    requires m.span > 0 && q.ssize >= 2
    ensures BarrierVerdict(m, room, q).Done? ==> BarrierVerdict(m, room, q).log == q.L4()
  {
    hide Store, Pattern, Barrier, Seed, AfterRegion, AfterBarrier;
  }

  lemma StaleAfterPrologue(m: Medium, cfg: Config, room: nat, log: seq<Request>, s: bv32, multi: nat)
    requires m.Valid() && Matches(m, cfg)
    ensures Stale(m, multi, PrologueLog(cfg, log), s) == Stale(m, multi, log, s)
  {
    hide Store, Pattern, Barrier, Seed;
    PrologueOn(m, cfg, room, log);
  }

  lemma LogGrows(cfg: Config, log: seq<Request>, q: Plan)
    requires q.start == PrologueLog(cfg, log) && q.ssize >= 2
    ensures log <= q.L3() && log <= q.L4()
  {
    hide Pattern, Barrier, Seed;
  }

  /** The data of one cycle is stale for the next: different seeds, different sectors. */
  lemma HoldsThenStale(m: Medium, multi: nat, log: seq<Request>, s: bv32)
    requires m.Valid() && m.ssize >= 32 && multi >= 1
    requires Holds(m, multi, log, s) && Seeds(m, s) && Seeds(m, Seed(s, 4))
    ensures Stale(m, multi, log, Seed(s, 4))
  {
    var sz := m.ssize;
    MulMono(1, multi, sz);
    SeedsMove(s);
    hide Store, Pattern, Barrier, Seed;
    PatternsDiffer(s, Seed(s, 4), 0, 1 * sz);
    PatternsDiffer(Seed(s, 1), Seed(Seed(s, 4), 1), 0, multi * sz);
    PatternsDiffer(Seed(s, 2), Seed(Seed(s, 4), 2), 0, 1 * sz);
    if Large(m.sectors, sz) {
      PatternsDiffer(Seed(s, 3), Seed(Seed(s, 4), 3), 0, sz);
      PatternsDiffer(Seed(s, 3), Seed(Seed(s, 4), 3), sz, sz);
    }
  }

  lemma PatternsDiffer(s: bv32, t: bv32, from: nat, n: nat)
    requires s != 0 && t != 0 && s != t && n >= 32
    ensures Pattern(s, from, n) != Pattern(t, from, n)
  {
    SeedsDiffer(s, t, from, n);
  }

  lemma SeedsMove(s: bv32)
    ensures s != Seed(s, 4) && Seed(s, 1) != Seed(Seed(s, 4), 1)
    ensures Seed(s, 2) != Seed(Seed(s, 4), 2) && Seed(s, 3) != Seed(Seed(s, 4), 3)
  {
    SeedUnfolds(s);
    SeedUnfolds(Seed(s, 4));
    FourMoves(s);
    FourMoves(Inc(s));
    FourMoves(Inc(Inc(s)));
    FourMoves(Inc(Inc(Inc(s))));
    hide Inc, Seed;
  }

  lemma FourMoves(s: bv32)
    ensures s != Inc(Inc(Inc(Inc(s))))
  {
  }

  /** The cycle with seed zero is never passed when the cycle before it was, whatever writes are lost. */
  lemma ZeroCycleFails(m: Medium, cfg: Config, room: nat, log: seq<Request>, reg: bv32, prev: bv32)
    requires m.Unaliased() && m.ssize >= 32 && Matches(m, cfg) && Large(m.sectors, m.ssize)
    requires Seed(prev, 4) == LAST && Holds(m, MultiOf(room, m.ssize), log, prev)
    ensures Cycle(On(m, cfg, room), log, reg, LAST).Stop?
  {
    hide Store, Pattern, Seed, PrologueLog, Cycle, On, RegionsVerdict, ZeroVerdict, MultiOf;
    var q := PlanOf(m, cfg, room, log, LAST);
    BeforeLast(prev);
    ZeroCycleOn(m, cfg, room, log, reg);
    if RegionsVerdict(m, room, q).Done? {
      RoomForRegions(m, room, q);
      PrologueOn(m, cfg, room, log);
      ZeroFails(m, room, q);
    }
    hide Barrier;
  }

  lemma ZeroFails(m: Medium, room: nat, q: Plan)
    requires Placed(m, room, q) && m.ssize >= 32 && Large(m.sectors, m.ssize)
    requires Store(m, q.start, 6, m.ssize) == Pattern(0xFFFF_FFFC, 0, m.ssize)
    ensures ZeroVerdict(m, room, q).Stop?
  {
    hide Store, Pattern, AfterBarrier, AfterRegion, Written, Expected, Seed;
    var sz := m.ssize;
    BarrierFar(m.sectors, sz);
    BarrierSectorsUntouched(m, room, q, 6);
    assert 1 * sz == sz;
    BarrierStore(m, q.L3(), Written(sz));
    hide Barrier;
    ExpectedIsNew(sz);
    var end := AfterBarrier(q.L3(), sz, Written(sz));
    var got := Store(m, end, 6, sz) + Store(m, end, 6 + Barrier(sz), sz);
    assert got[..sz] != Expected(sz)[..sz];
  }

  /** Completed cycles that follow a passed one kept all their writes, and never came to seed zero. */
  lemma {:induction false} PassedCycles(m: Medium, cfg: Config, room: nat, n: nat, log: seq<Request>,
                                        reg: bv32, prev: bv32)
    requires m.Unaliased() && m.ssize >= 32 && Matches(m, cfg) && OnTrack(m, prev) && Early(m, prev)
    requires room >= m.ssize && Holds(m, MultiOf(room, m.ssize), log, prev)
    requires Cycles(On(m, cfg, room), n, log, reg, Seed(prev, 4)).Done?
    ensures var end := Cycles(On(m, cfg, room), n, log, reg, Seed(prev, 4)).log;
            log <= end && Kept(m, end, |log|)
    ensures Large(m.sectors, m.ssize) ==> n < Remaining(prev)
    decreases n
  {
    hide On, Cycle, CycleReg, CycleVerdict, Starts, Remaining, OddCycle, Seed, PrologueLog, Stale, Holds, Seeds;
    SetupOf(m, cfg, room);
    TrackStep(m, prev);
    if n != 0 {
      var s := Seed(prev, 4);
      TrackStep(m, s);
      if !Early(m, s) {
        ZeroCycleFails(m, cfg, room, log, reg, prev);
      } else {
        PassedCycle(m, cfg, room, log, reg, prev);
        var p := On(m, cfg, room);
        var o := Cycle(p, log, reg, s);
        PassedCycles(m, cfg, room, n - 1, o.log, CycleReg(p, log, reg, s), s);
      }
    }
  }

  lemma PassedCycle(m: Medium, cfg: Config, room: nat, log: seq<Request>, reg: bv32, prev: bv32)
    requires m.Unaliased() && m.ssize >= 32 && Matches(m, cfg) && room >= m.ssize
    requires Seeds(m, prev) && Seeds(m, Seed(prev, 4)) && Holds(m, MultiOf(room, m.ssize), log, prev)
    requires Cycle(On(m, cfg, room), log, reg, Seed(prev, 4)).Done?
    ensures var end := Cycle(On(m, cfg, room), log, reg, Seed(prev, 4)).log;
            log <= end && Kept(m, end, |log|) && Holds(m, MultiOf(room, m.ssize), end, Seed(prev, 4))
  {
    hide On, Cycle, CycleVerdict, Seed, PrologueLog, Stale, Holds, Seeds;
    var s := Seed(prev, 4);
    var q := PlanOf(m, cfg, room, log, s);
    CycleOn(m, cfg, room, log, reg, s);
    MultiFits(room, m.ssize);
    CyclePassed(m, cfg, room, log, s, q);
    HoldsThenStale(m, q.multi, log, prev);
  }

  /** A cycle that passes had room for all its tests. */
  lemma RoomForCycle(m: Medium, room: nat, q: Plan)
    requires m.Valid() && q.ssize == m.ssize && CycleVerdict(m, room, q).Done?
    ensures !TooSmall(m, room)
  {
    hide Store, Pattern, AfterRegion, AfterBarrier, Barrier, Seed;
  }

  lemma FirstCyclePassed(m: Medium, cfg: Config, room: nat, log: seq<Request>, reg: bv32)
    requires m.Unaliased() && m.ssize >= 32 && Matches(m, cfg) && Seeds(m, 1)
    requires Cycle(On(m, cfg, room), log, reg, 1).Done?
    ensures var end, multi := Cycle(On(m, cfg, room), log, reg, 1).log, MultiOf(room, m.ssize);
            !TooSmall(m, room) && log <= end && Holds(m, multi, end, 1) &&
            (Stale(m, multi, log, 1) ==> Kept(m, end, |log|))
  {
    hide On, Cycle, Seed, PrologueLog, Stale, Holds, Seeds, RegionsVerdict, BarrierVerdict;
    var q := PlanOf(m, cfg, room, log, 1);
    CycleOn(m, cfg, room, log, reg, 1);
    assert RegionsVerdict(m, room, q).Done?;
    RoomForCycle(m, room, q);
    RoomForRegions(m, room, q);
    MulMono(1, q.multi, m.ssize);
    CyclePassed(m, cfg, room, log, 1, q);
  }

  /** When the checker passes a disk that may silently lose any of its writes, then it lost none of those
      made after the first cycle.  (In the first cycle a lost write goes unnoticed only when the sectors
      already held the data.)  Then the buffer had room, and the cycle with seed zero was not reached. */
  lemma LossDetected(m: Medium, cfg: Config, room: nat, ncyc: nat, log: seq<Request>, reg: bv32)
    requires m.Unaliased() && m.ssize >= 32 && Matches(m, cfg)
    requires ncyc > 0 && Check(On(m, cfg, room), ncyc, log, reg).0 == Exit(0)
    ensures var p := On(m, cfg, room);
            var first, end := Cycle(p, log, reg, 1).log, Check(p, ncyc, log, reg).1;
            log <= first <= end && Kept(m, end, |first|) &&
            (Stale(m, MultiOf(room, m.ssize), log, 1) ==> Kept(m, end, |log|))
    ensures room >= cfg.maxSS + 4 && !TooSmall(m, room) && (Large(m.sectors, m.ssize) ==> ncyc < 0x4000_0000)
  {
    hide On, Cycle, CycleReg, Starts, Remaining, OddCycle, Stale, Holds, Seeds, Seed;
    var p := On(m, cfg, room);
    SetupOf(m, cfg, room);
    TrackFirst(m);
    TrackStep(m, 1);
    ZeroMeansCompleted(p, ncyc, log, reg, 1);
    FirstCyclePassed(m, cfg, room, log, reg);
    var o := Cycle(p, log, reg, 1);
    PassedCycles(m, cfg, room, ncyc - 1, o.log, CycleReg(p, log, reg, 1), 1);
  }

  lemma RegionIssues(log: seq<Request>, lba: nat, count: nat, data: seq<byte>)
    ensures log <= AfterRegion(log, lba, count, data)
    ensures var l := AfterRegion(log, lba, count, data); |l| == |log| + 3 && l[|log|].Write?
  {
  }

  lemma BarrierIssues(log: seq<Request>, ssize: nat, data: seq<byte>)
    requires |data| == 2 * ssize && ssize >= 2
    ensures var l := AfterBarrier(log, ssize, data);
            log <= l && |l| == |log| + 5 && l[|log|].Write? && l[|log| + 1].Write?
  {
    hide Barrier;
  }

  /** Region tests whose writes, as far as they came to be issued, were all kept pass in a buffer with room for them. */
  lemma KeptRegions(m: Medium, room: nat, q: Plan, from: nat)
    requires m.Unaliased() && q.ssize == m.ssize && q.multi <= 4 && q.multi * q.ssize <= room
    requires room >= q.ssize + 5 && from <= |q.start| && Kept(m, RegionsVerdict(m, room, q).log, from)
    ensures RegionsVerdict(m, room, q).Done?
  {
    hide Store, Pattern, AfterRegion, Seed;
    var sz := m.ssize;
    MulMono(4, m.sectors, sz);
    MulMono(q.multi, 4, sz);
    RegionStore(m, q.start, 0, 1, q.D1());
    RegionStore(m, q.L1(), 1, q.multi, q.D2());
    RegionStore(m, q.L2(), 5, 1, q.D3());
    RegionIssues(q.start, 0, 1, q.D1());
    RegionIssues(q.L1(), 1, q.multi, q.D2());
    RegionIssues(q.L2(), 5, 1, q.D3());
  }

  lemma KeptBarrier(m: Medium, room: nat, q: Plan, from: nat)
    requires m.Unaliased() && q.ssize == m.ssize && Large(m.sectors, m.ssize)
    requires room >= 2 * q.ssize + 1 && from <= |q.L3()| && Kept(m, BarrierVerdict(m, room, q).log, from)
    ensures BarrierVerdict(m, room, q).Done?
  {
    hide Store, Pattern, AfterRegion, AfterBarrier, Seed;
    BarrierStore(m, q.L3(), q.D4());
    BarrierIssues(q.L3(), q.ssize, q.D4());
    hide Barrier;
    assert q.D4()[..q.ssize] + q.D4()[q.ssize..] == q.D4();
  }

  lemma KeptCycle(m: Medium, cfg: Config, room: nat, log: seq<Request>, s: bv32, from: nat)
    requires m.Unaliased() && Matches(m, cfg) && Seeds(m, s) && !TooSmall(m, room) && from <= |log|
    requires Kept(m, CycleVerdict(m, room, PlanOf(m, cfg, room, log, s)).log, from)
    ensures var o := CycleVerdict(m, room, PlanOf(m, cfg, room, log, s)); o.Done? && log <= o.log
  {
    hide RegionsVerdict, BarrierVerdict, PrologueLog, Kept, Pattern, AfterRegion, AfterBarrier, Seed, Seeds;
    var q := PlanOf(m, cfg, room, log, s);
    MultiFits(room, m.ssize);
    LogGrows(cfg, log, q);
    RegionsEnd(m, room, q);
    BarrierEnd(m, room, q);
    PrologueGrows(cfg, log);
    var o := CycleVerdict(m, room, q);
    if RegionsVerdict(m, room, q).Stop? || !Large(m.sectors, m.ssize) {
      assert o == RegionsVerdict(m, room, q);
      KeptRegions(m, room, q, from);
    } else {
      assert o == BarrierVerdict(m, room, q);
      KeptBarrier(m, room, q, from);
    }
  }

  lemma PrologueGrows(cfg: Config, log: seq<Request>)
    ensures log <= PrologueLog(cfg, log)
  {
  }

  lemma {:induction false} KeptCycles(m: Medium, cfg: Config, room: nat, n: nat, log: seq<Request>, reg: bv32, s: bv32,
                                      from: nat)
    requires m.Unaliased() && Matches(m, cfg) && OnTrack(m, s) && !TooSmall(m, room) && from <= |log|
    requires Large(m.sectors, m.ssize) ==> n <= Remaining(s)
    requires Kept(m, Cycles(On(m, cfg, room), n, log, reg, s).log, from)
    ensures Cycles(On(m, cfg, room), n, log, reg, s).Done?
    decreases n
  {
    hide On, Cycle, CycleReg, CycleVerdict, Starts, Remaining, OddCycle, Seed, PrologueLog, Seeds, TooSmall, Kept;
    SetupOf(m, cfg, room);
    TrackStep(m, s);
    if n != 0 {
      var p := On(m, cfg, room);
      CycleOn(m, cfg, room, log, reg, s);
      var o := Cycle(p, log, reg, s);
      if o.Stop? {
        KeptCycle(m, cfg, room, log, s, from);
      } else {
        DoneGrows(m, cfg, room, log, s);
        KeptCycles(m, cfg, room, n - 1, o.log, CycleReg(p, log, reg, s), Seed(s, 4), from);
      }
    }
  }

  lemma DoneGrows(m: Medium, cfg: Config, room: nat, log: seq<Request>, s: bv32)
    requires m.Valid() && CycleVerdict(m, room, PlanOf(m, cfg, room, log, s)).Done?
    ensures log <= CycleVerdict(m, room, PlanOf(m, cfg, room, log, s)).log
  {
    hide RegionsVerdict, BarrierVerdict, PrologueLog, Pattern, AfterRegion, AfterBarrier, Seed;
    var q := PlanOf(m, cfg, room, log, s);
    LogGrows(cfg, log, q);
    RegionsEnd(m, room, q);
    BarrierEnd(m, room, q);
  }

  /** With room in the buffer, and short of the cycle with seed zero, a disk that kept every write the checker came to
      issue passes, whatever it held before. */
  lemma KeptPasses(m: Medium, cfg: Config, room: nat, ncyc: nat, log: seq<Request>, reg: bv32)
    requires m.Unaliased() && Matches(m, cfg) && !TooSmall(m, room) && room >= cfg.maxSS + 4
    requires Large(m.sectors, m.ssize) ==> ncyc < 0x4000_0000
    requires Kept(m, Check(On(m, cfg, room), ncyc, log, reg).1, |log|)
    ensures Check(On(m, cfg, room), ncyc, log, reg).0 == Exit(0)
  {
    hide On, Cycle, CycleReg, Starts, Remaining, OddCycle, Kept, TooSmall;
    SetupOf(m, cfg, room);
    TrackFirst(m);
    KeptCycles(m, cfg, room, ncyc, log, reg, 1, |log|);
  }

  /** The verdict on a disk with stale contents is 0 exactly when the buffer has room, the cycle with seed zero is not
      reached, and none of the writes the checker issued was lost. */
  lemma LossDecides(m: Medium, cfg: Config, room: nat, ncyc: nat, log: seq<Request>, reg: bv32)
    requires m.Unaliased() && m.ssize >= 32 && Matches(m, cfg) && ncyc > 0
    requires Stale(m, MultiOf(room, m.ssize), log, 1)
    ensures Check(On(m, cfg, room), ncyc, log, reg).0 == Exit(0) <==>
            room >= cfg.maxSS + 4 && !TooSmall(m, room) && (Large(m.sectors, m.ssize) ==> ncyc < 0x4000_0000) &&
            Kept(m, Check(On(m, cfg, room), ncyc, log, reg).1, |log|)
  {
    hide On, Cycle, CycleReg, Seed, Stale, Kept, TooSmall, Check, Large;
    var p := On(m, cfg, room);
    if Check(p, ncyc, log, reg).0 == Exit(0) {
      LossDetected(m, cfg, room, ncyc, log, reg);
    } else if room >= cfg.maxSS + 4 && !TooSmall(m, room) && (Large(m.sectors, m.ssize) ==> ncyc < 0x4000_0000) {
      if Kept(m, Check(p, ncyc, log, reg).1, |log|) { KeptPasses(m, cfg, room, ncyc, log, reg); }
    }
  }

  predicate Zeros(data: seq<byte>) {
    forall i :: 0 <= i < |data| ==> data[i] == 0
  }

  /** A register that is not zero does not emit 32 zero bytes in a row. */
  lemma PatternNotZero(s: bv32, from: nat, n: nat)
    requires s != 0 && n >= 32
    ensures !Zeros(Pattern(s, from, n))
  {
    var x := Steps(Seeded(0, s), from);
    SeededNonzero(s);
    StepsNonzero(Seeded(0, s), from);
    forall i | 0 <= i < n ensures Bytes(0, n)[i] == 0 {
      ByteAt(0, n, i);
      StepsZero(i);
    }
    hide Step, Steps, Seeded;
    if Zeros(Pattern(s, from, n)) {
      assert Bytes(0, n) == Pattern(s, from, n);
      PrefixDetermines(x, 0, n);
    }
  }

  lemma SeededNonzero(s: bv32)
    requires s != 0
    ensures Seeded(0, s) != 0
  {
    hide Step;
    StepsNonzero(s, 33);
    NextByte(s, 32);
  }

  /** A disk that reads as zeros everywhere. */
  ghost predicate Blank(m: Medium) {
    forall a: nat :: m.blank(a) == 0
  }

  lemma BlankDiffers(m: Medium, lba: nat, s: bv32, from: nat, n: nat)
    requires m.span > 0 && Blank(m) && s != 0 && n >= 32
    ensures Store(m, [], lba, n) != Pattern(s, from, n)
  {
    hide Pattern;
    PatternNotZero(s, from, n);
    var data := Store(m, [], lba, n);
    forall i | 0 <= i < n ensures data[i] == 0 {
      assert data[i] == m.blank((lba * m.ssize + i) % m.span);
    }
  }

  /** A blank disk holds none of the data that the checker is about to write. */
  lemma BlankIsStale(m: Medium, multi: nat, s: bv32)
    requires m.Valid() && m.ssize >= 32 && multi >= 1 && Seeds(m, s) && Blank(m)
    ensures Stale(m, multi, [], s)
  {
    var sz := m.ssize;
    MulMono(1, multi, sz);
    hide Store, Pattern, Barrier, Seed, Blank, Large;
    BlankDiffers(m, 0, s, 0, 1 * sz);
    BlankDiffers(m, 1, Seed(s, 1), 0, multi * sz);
    BlankDiffers(m, 5, Seed(s, 2), 0, 1 * sz);
    if Large(m.sectors, sz) {
      BlankDiffers(m, 6, Seed(s, 3), 0, sz);
      BlankDiffers(m, 6 + Barrier(sz), Seed(s, 3), sz, sz);
    }
  }

  /** A blank card that loses just one of its calls, the `k`-th, is reported exactly when that call is a write. */
  lemma LossExample(erase: nat, k: nat, ncyc: nat, reg: bv32)
    requires ncyc > 0
    ensures var m := Medium(200, 512, FOUR_GIB, i => i != k, _ => 0, erase);
            var o := Check(On(m, Config(512, 512), 2048), ncyc, [], reg);
            o.0 == Exit(0) <==> !(k < |o.1| && o.1[k].Write?)
  {
    var m := Medium(200, 512, FOUR_GIB, i => i != k, _ => 0, erase);
    hide Check, On, Stale, Seeds, OddCycle, Seed;
    assert !Large(m.sectors, 512) && !TooSmall(m, 2048) && MultiOf(2048, 512) == 4;
    hide Large, TooSmall, MultiOf;
    TrackFirst(m);
    TrackStep(m, 1);
    BlankIsStale(m, 4, 1);
    LossDecides(m, Config(512, 512), 2048, ncyc, [], reg);
  }
}
