/** The cluster layer of FatFs as a state: FAT entries, allocation hint, free-cluster counter, and
    the open file that is being stretched or truncated. */
module FatModel {
  const END_OF_CHAIN: nat := 0x0FFF_FFFF
  const DISK_ERROR: nat := 0xFFFF_FFFF
  const WORD: nat := 0x1_0000_0000
  const SECTOR: nat := 512

  const FR_OK: nat := 0
  const FR_DISK_ERR: nat := 1
  const FR_INT_ERR: nat := 2
  const FR_DENIED: nat := 7

  /** `link[c]` is the FAT entry of cluster `c`; entries in `bad` cannot be read or written.  A pair `(c, n)` in
      `stuck` is a link from `c` to `n` that cannot be written once `n` has been marked, because the change of `n` has
      to be written back first to bring in the sector with the entry of `c`. */
  datatype Vol = Vol(link: seq<nat>, bad: set<nat>, stuck: set<(nat, nat)>,
                     last: nat, free: nat, csize: nat, base: nat) {
    predicate Valid() {
      3 <= |link| <= END_OF_CHAIN && 1 <= csize <= 128
    }

    /** Bytes per cluster. */
    function Bytes(): nat {
      csize * SECTOR
    }

    /** `get_fat`: 1 outside the table, 0xFFFFFFFF on a disk error. */
    function Get(c: nat): nat {
      if c < 2 || c >= |link| then 1 else if c in bad then DISK_ERROR else link[c]
    }

    predicate Free(c: nat) {
      2 <= c < |link| && Get(c) == 0
    }
  }

  /** The open file: start cluster, current cluster, position, size, write flag, change flag, sticky error.  The change
      flag is set when the file is created and whenever its size changes. */
  datatype Fil = Fil(sclust: nat, clust: nat, fptr: nat, fsize: nat, write: bool, changed: bool, err: nat)

  /** What the directory keeps of a file. */
  datatype Entry = Entry(sclust: nat, fsize: nat)

  /** An existing file as it is opened. */
  function Opened(e: Entry, write: bool): Fil {
    Fil(e.sclust, 0, 0, e.fsize, write, false, 0)
  }

  /** The directory entry after `f_sync` or `f_close`: only a changed file is written back to it. */
  function Synced(f: Fil, e: Entry): Entry {
    if f.changed then Entry(f.sclust, f.fsize) else e
  }

  datatype Outcome = Outcome(res: nat, v: Vol, f: Fil)

  // ---------------------------------------------------------------- allocation of one cluster

  /** The first cluster in `[from, end)` whose status is free or an error; `end` when there is none. */
  function StopAt(v: Vol, from: nat, end: nat): (r: nat)
    requires from <= end
    ensures from <= r <= end
    decreases end - from
  {
    if from == end || Stops(v.Get(from)) then from else StopAt(v, from + 1, end)
  }

  /** A status that ends the search: free, internal error, or disk error. */
  predicate Stops(status: nat) {
    status == 0 || status == 1 || status == DISK_ERROR
  }

  lemma {:induction false} StopAtFirst(v: Vol, from: nat, end: nat)
    requires from <= end
    ensures forall c :: from <= c < StopAt(v, from, end) ==> !Stops(v.Get(c))
    ensures StopAt(v, from, end) < end ==> Stops(v.Get(StopAt(v, from, end)))
    decreases end - from
  {
    if from != end && !Stops(v.Get(from)) {
      StopAtFirst(v, from + 1, end);
    }
  }

  /** Where the search that starts behind `scl` and wraps round once stops; 0 when it finds nothing. */
  function Candidate(v: Vol, scl: nat): nat
    requires 1 <= scl < |v.link|
  {
    var a := StopAt(v, scl + 1, |v.link|);
    if a < |v.link| then a
    else if scl < 2 then 0
    else var b := StopAt(v, 2, scl + 1); if b <= scl then b else 0
  }

  /** Marks `c` as the end of a chain and links it behind `clst` unless that is 0. */
  function Occupy(v: Vol, c: nat, clst: nat): Vol
    requires c < |v.link| && clst < |v.link|
  {
    var link := v.link[c := END_OF_CHAIN];
    v.(link := if clst != 0 then link[clst := c] else link,
       last := c,
       free := if v.free != DISK_ERROR then (v.free + WORD - 1) % WORD else v.free)
  }

  /** Marks `c` without linking to it, and without counting it. */
  function Leak(v: Vol, c: nat): Vol
    requires c < |v.link|
  {
    v.(link := v.link[c := END_OF_CHAIN])
  }

  function Grow(v: Vol, scl: nat, clst: nat): (nat, Vol)
    requires 1 <= scl < |v.link| && clst < |v.link|
  {
    var c := Candidate(v, scl);
    if c == 0 then (0, v)
    else if v.Get(c) != 0 then (v.Get(c), v)
    else if clst != 0 && (clst, c) in v.stuck then (DISK_ERROR, Leak(v, c))
    else (c, Occupy(v, c, clst))
  }

  function Hint(v: Vol): nat {
    if v.last == 0 || v.last >= |v.link| then 1 else v.last
  }

  /** `create_chain` */
  function CreateChain(v: Vol, clst: nat): (nat, Vol)
    requires v.Valid()
  {
    if clst == 0 then Grow(v, Hint(v), 0)
    else
      var cs := v.Get(clst);
      if cs < 2 then (1, v)
      else if cs == DISK_ERROR || cs < |v.link| then (cs, v)
      else Grow(v, clst, clst)
  }

  /** The end of a chain is to be stretched, and the link to the cluster found cannot be written. */
  predicate Leaks(v: Vol, clst: nat)
    requires v.Valid()
  {
    clst != 0 && v.Get(clst) >= |v.link| && v.Get(clst) != DISK_ERROR &&
    v.Free(Candidate(v, clst)) && (clst, Candidate(v, clst)) in v.stuck
  }

  // ---------------------------------------------------------------- removal of a chain

  /** Number of free entries from `from` on. */
  function FreeFrom(link: seq<nat>, from: nat): (r: nat)
    requires from <= |link|
    ensures r <= |link| - from
    decreases |link| - from
  {
    if from == |link| then 0 else (if link[from] == 0 then 1 else 0) + FreeFrom(link, from + 1)
  }

  function FreeCount(v: Vol): nat
    requires v.Valid()
  {
    FreeFrom(v.link, 2)
  }

  lemma {:induction false} FreeFromUpdate(link: seq<nat>, from: nat, c: nat, x: nat)
    requires from <= |link| && c < |link|
    ensures FreeFrom(link[c := x], from) + (if from <= c && link[c] == 0 then 1 else 0) ==
            FreeFrom(link, from) + (if from <= c && x == 0 then 1 else 0)
    decreases |link| - from
  {
    if from < |link| {
      FreeFromUpdate(link, from + 1, c, x);
    }
  }

  function Release(v: Vol, c: nat): Vol
    requires c < |v.link|
  {
    v.(link := v.link[c := 0], free := if v.free != DISK_ERROR then (v.free + 1) % WORD else v.free)
  }

  /** The loop of `remove_chain`; it ends on every table because each round frees an entry in use. */
  function RemoveFrom(v: Vol, c: nat): (nat, Vol)
    requires v.Valid() && c >= 2
    decreases |v.link| - FreeCount(v)
  {
    if c >= |v.link| then (FR_OK, v) else
    var nxt := v.Get(c);
    if nxt == 0 then (FR_OK, v)
    else if nxt == 1 then (FR_INT_ERR, v)
    else if nxt == DISK_ERROR then (FR_DISK_ERR, v)
    else
      FreeFromUpdate(v.link, 2, c, 0);
      RemoveFrom(Release(v, c), nxt)
  }

  /** `remove_chain` */
  function RemoveChain(v: Vol, c: nat): (nat, Vol)
    requires v.Valid()
  {
    if c < 2 || c >= |v.link| then (FR_INT_ERR, v) else RemoveFrom(v, c)
  }

  // ---------------------------------------------------------------- file operations

  /** `clust2sect`, in 32-bit arithmetic. */
  function ClusterSector(v: Vol, c: nat): nat
    requires v.Valid()
  {
    if c < 2 || c - 2 >= |v.link| - 2 then 0 else ((c - 2) * v.csize + v.base) % WORD
  }

  function Abort(v: Vol, f: Fil, code: nat): Outcome {
    Outcome(code, v, f.(err := code))
  }

  /** The cluster following loop of `f_lseek` and what comes after it. */
  function Follow(v: Vol, f: Fil, clst: nat, ofs: nat): Outcome
    requires v.Valid()
    decreases ofs
  {
    if ofs <= v.Bytes() then Arrive(v, f, clst, ofs) else
    var (c, v') := if f.write then CreateChain(v, clst) else (v.Get(clst), v);
    if f.write && c == 0 then Arrive(v', f, 0, v'.Bytes())
    else if c == DISK_ERROR then Abort(v', f, FR_DISK_ERR)
    else if c <= 1 || c >= |v'.link| then Abort(v', f, FR_INT_ERR)
    else
      ChainKeepsShape(v, clst);
      Follow(v', f.(clust := c, fptr := f.fptr + v.Bytes()), c, ofs - v.Bytes())
  }

  lemma ChainKeepsShape(v: Vol, clst: nat)
    requires v.Valid()
    ensures var v' := CreateChain(v, clst).1;
            v'.Valid() && |v'.link| == |v.link| && v'.Bytes() == v.Bytes() && v'.bad == v.bad
    ensures var v' := CreateChain(v, clst).1; v'.csize == v.csize && v'.base == v.base && v'.stuck == v.stuck
  {
  }

  /** The size follows the position. */
  function Grown(f: Fil): Fil {
    if f.fptr > f.fsize then f.(fsize := f.fptr, changed := true) else f
  }

  function Arrive(v: Vol, f: Fil, clst: nat, ofs: nat): Outcome
    requires v.Valid()
  {
    var f' := f.(fptr := f.fptr + ofs);
    if ofs % SECTOR != 0 && ClusterSector(v, clst) == 0 then Abort(v, f', FR_INT_ERR)
    else Outcome(FR_OK, v, Grown(f'))
  }

  /** The target lies in the current cluster or behind it. */
  predicate Ahead(ofs: nat, fptr: nat, bcs: nat)
    requires ofs > 0 && fptr > 0 && bcs > 0
  {
    (ofs - 1) / bcs >= (fptr - 1) / bcs
  }

  /** Start of the current cluster. */
  function Skipped(ofs: nat, fptr: nat, bcs: nat): (r: nat)
    requires ofs > 0 && fptr > 0 && bcs > 0 && Ahead(ofs, fptr, bcs)
    ensures r <= ofs
  {
    assert (fptr - 1) / bcs * bcs <= (ofs - 1) / bcs * bcs <= ofs - 1;
    (fptr - 1) / bcs * bcs
  }

  /** `f_lseek` (no link map table; refilling the sector cache is not part of the state). */
  function Seek(v: Vol, f: Fil, ofs: nat): Outcome
    requires v.Valid()
  {
    if f.err != 0 then Outcome(f.err, v, f) else
    var ofs := if ofs > f.fsize && !f.write then f.fsize else ofs;
    var start := f.(fptr := 0);
    if ofs == 0 then Outcome(FR_OK, v, start) else
    var bcs := v.Bytes();
    if f.fptr > 0 && Ahead(ofs, f.fptr, bcs) then
      var from := f.(fptr := Skipped(ofs, f.fptr, bcs));
      if f.clust != 0 then Follow(v, from, f.clust, ofs - from.fptr) else Outcome(FR_OK, v, Grown(from))
    else if f.sclust == 0 then
      var (c, v') := CreateChain(v, 0);
      ChainKeepsShape(v, 0);
      if c == 1 then Abort(v', start, FR_INT_ERR)
      else if c == DISK_ERROR then Abort(v', start, FR_DISK_ERR)
      else
        var f' := start.(sclust := c, clust := c);
        if c != 0 then Follow(v', f', c, ofs) else Outcome(FR_OK, v', Grown(f'))
    else Follow(v, start.(clust := f.sclust), f.sclust, ofs)
  }

  /** `f_truncate` */
  function Truncate(v: Vol, f: Fil): Outcome
    requires v.Valid()
  {
    if f.err != 0 then Outcome(f.err, v, f)
    else if !f.write then Abort(v, f, FR_DENIED)
    else if f.fsize <= f.fptr then Outcome(FR_OK, v, f)
    else
      var f' := f.(fsize := f.fptr, changed := true);
      if f.fptr == 0 then
        var (res, v') := RemoveChain(v, f.sclust);
        var f'' := f'.(sclust := 0);
        if res != FR_OK then Abort(v', f'', res) else Outcome(FR_OK, v', f'')
      else
        var ncl := v.Get(f.clust);
        if ncl == DISK_ERROR then Abort(v, f', FR_DISK_ERR)
        else if ncl == 1 then Abort(v, f', FR_INT_ERR)
        else if ncl < |v.link| then
          var (res, v') := RemoveChain(v.(link := v.link[f.clust := END_OF_CHAIN]), ncl);
          if res != FR_OK then Abort(v', f', res) else Outcome(FR_OK, v', f')
        else Outcome(FR_OK, v, f')
  }
}
