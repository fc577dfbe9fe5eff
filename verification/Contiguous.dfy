/** Allocation of a contiguous area to a file, and what it does to the volume. */
module Contiguous {
  import opened FatModel

  // ---------------------------------------------------------------- the searched-for area

  /** `t` free clusters in a row, starting at `s`. */
  predicate FreeRun(v: Vol, s: nat, t: nat) {
    2 <= s && s + t <= |v.link| && forall c :: s <= c < s + t ==> v.Get(c) == 0
  }

  /** The smallest start of a free run of `t` clusters at or after `from`; 0 when there is none. */
  function FirstRun(v: Vol, t: nat, from: nat): (s: nat)
    requires from >= 2 && t >= 1
    ensures s != 0 ==> from <= s && FreeRun(v, s, t) && forall r :: from <= r < s ==> !FreeRun(v, r, t)
    ensures s == 0 ==> forall r :: from <= r ==> !FreeRun(v, r, t)
    decreases |v.link| - from
  {
    if from + t > |v.link| || from >= |v.link| then 0
    else if FreeRun(v, from, t) then from
    else FirstRun(v, t, from + 1)
  }

  datatype Walk = HardError | Broken | Consecutive

  /** The walk along an existing chain; `ncl` clusters were accepted before cluster `ccl`. */
  function WalkChain(v: Vol, ccl: nat, ncl: nat, tcl: nat): Walk
    decreases if ncl < tcl then tcl - ncl else 0
  {
    var cl := v.Get(ccl);
    if (cl + 1) % WORD < 3 then HardError
    else if cl != ccl + 1 && cl < |v.link| then Broken
    else if ncl + 1 < tcl then WalkChain(v, cl, ncl + 1, tcl)
    else if ncl + 1 == tcl then Consecutive
    else Broken
  }

  /** Clusters needed for `len` bytes, as computed in 32-bit arithmetic. */
  function Clusters(len: nat, csz: nat): nat
    requires csz > 0
  {
    (len + csz - 1) % WORD / csz
  }

  function Max1(n: nat): nat { if n == 0 then 1 else n }

  /** `allocate_contiguous_clusters`; `res` is the sector returned, 0 for failure. */
  function Allocate(v: Vol, f: Fil, len: nat): Outcome
    requires v.Valid()
  {
    var f0 := Seek(v, f, 0).f;
    if Seek(v, f, 0).res != FR_OK || len == 0 then Outcome(0, v, f0) else
    var csz := v.Bytes();
    var tcl := Clusters(len, csz);
    var size := tcl * csz % WORD;
    var walk := if size == f0.fsize then WalkChain(v, f0.sclust, 0, tcl) else Broken;
    if walk == HardError then Outcome(0, v, f0)
    else if walk == Consecutive then Outcome(ClusterSector(v, f0.sclust), v, f0)
    else Reallocate(v, f0, tcl, size)
  }

  function Reallocate(v: Vol, f: Fil, tcl: nat, size: nat): Outcome
    requires v.Valid()
  {
    var t := Truncate(v, f);
    if t.res != FR_OK then Outcome(0, t.v, t.f) else
    TruncateKeepsShape(v, f);
    var s := FirstRun(t.v, Max1(tcl), 2);
    if s == 0 then Outcome(0, t.v, t.f) else
    var k := Seek(t.v.(last := s - 1), t.f, size);
    SeekKeepsShape(t.v.(last := s - 1), t.f, size);
    if k.res != FR_OK then Outcome(0, k.v, k.f) else Outcome(ClusterSector(k.v, k.f.sclust), k.v, k.f)
  }

  // ---------------------------------------------------------------- what every operation keeps

  /** Table size, faults and geometry. */
  predicate SameShape(v: Vol, v': Vol) {
    |v'.link| == |v.link| && v'.bad == v.bad && v'.stuck == v.stuck && v'.csize == v.csize && v'.base == v.base
  }

  /** The free-cluster counter, when known, is the number of free entries. */
  predicate Counted(v: Vol)
    requires v.Valid()
  {
    v.free == DISK_ERROR || v.free == FreeCount(v)
  }

  lemma OccupyCounts(v: Vol, c: nat, clst: nat)
    requires v.Valid() && Counted(v)
    requires 2 <= c < |v.link| && v.link[c] == 0
    requires clst == 0 || (2 <= clst < |v.link| && v.link[clst] != 0)
    ensures Counted(Occupy(v, c, clst)) && (Occupy(v, c, clst).free == DISK_ERROR <==> v.free == DISK_ERROR)
  {
    FreeFromUpdate(v.link, 2, c, END_OF_CHAIN);
    if clst != 0 {
      FreeFromUpdate(v.link[c := END_OF_CHAIN], 2, clst, c);
    }
  }

  /** Right after the operation unless it leaked a cluster with the counter known. */
  predicate Kept(v: Vol, v': Vol, leaks: bool)
    requires v.Valid()
  {
    SameShape(v, v') &&
    (Counted(v) ==>
       (Counted(v') <==> !leaks || v.free == DISK_ERROR) && (v'.free == DISK_ERROR <==> v.free == DISK_ERROR))
  }

  lemma KeptAgain(u: Vol, v: Vol, w: Vol, leaks: bool)
    requires u.Valid() && Kept(u, v, false) && Kept(v, w, leaks)
    ensures Kept(u, w, leaks)
  {
    hide FreeCount;
  }

  /** Stretching by one cluster keeps a right counter right exactly unless the cluster cannot be linked. */
  lemma CreateChainKeeps(v: Vol, clst: nat)
    requires v.Valid()
    ensures Kept(v, CreateChain(v, clst).1, Leaks(v, clst))
  {
    ChainKeepsShape(v, clst);
    var (c, v') := CreateChain(v, clst);
    if Leaks(v, clst) {
      FreeFromUpdate(v.link, 2, Candidate(v, clst), END_OF_CHAIN);
    } else if Counted(v) && v' != v {
      OccupyCounts(v, c, clst);
    }
  }

  lemma {:induction false} RemoveFromKeeps(v: Vol, c: nat)
    requires v.Valid() && c >= 2
    ensures Kept(v, RemoveFrom(v, c).1, false)
    decreases |v.link| - FreeCount(v)
  {
    if c < |v.link| && v.Get(c) !in {0, 1, DISK_ERROR} {
      FreeFromUpdate(v.link, 2, c, 0);
      RemoveFromKeeps(Release(v, c), v.Get(c));
    }
  }

  /** Stretching along the way comes to a cluster that cannot be linked. */
  predicate FollowLeaks(v: Vol, clst: nat, ofs: nat)
    requires v.Valid()
    decreases ofs
  {
    if ofs <= v.Bytes() then false
    else
      var (c, v') := CreateChain(v, clst);
      ChainKeepsShape(v, clst);
      Leaks(v, clst) || (c != DISK_ERROR && 1 < c < |v'.link| && FollowLeaks(v', c, ofs - v.Bytes()))
  }

  /** The same for a whole seek. */
  predicate SeekLeaks(v: Vol, f: Fil, ofs: nat)
    requires v.Valid()
  {
    f.err == 0 && f.write && ofs != 0 &&
    if f.fptr > 0 && Ahead(ofs, f.fptr, v.Bytes()) then
      f.clust != 0 && FollowLeaks(v, f.clust, ofs - Skipped(ofs, f.fptr, v.Bytes()))
    else if f.sclust != 0 then FollowLeaks(v, f.sclust, ofs)
    else
      var (c, v') := CreateChain(v, 0);
      ChainKeepsShape(v, 0);
      c != 0 && c != 1 && c != DISK_ERROR && FollowLeaks(v', c, ofs)
  }

  lemma {:induction false} FollowKeeps(v: Vol, f: Fil, clst: nat, ofs: nat)
    requires v.Valid()
    ensures Kept(v, Follow(v, f, clst, ofs).v, f.write && FollowLeaks(v, clst, ofs))
    decreases ofs
  {
    hide Leaks, CreateChain, FreeCount;
    if ofs > v.Bytes() && f.write {
      var (c, v') := CreateChain(v, clst);
      CreateChainKeeps(v, clst);
      LeakFails(v, clst);
      if c != DISK_ERROR && 1 < c < |v'.link| {
        FollowKeeps(v', f.(clust := c, fptr := f.fptr + v.Bytes()), c, ofs - v.Bytes());
        KeptAgain(v, v', Follow(v', f.(clust := c, fptr := f.fptr + v.Bytes()), c, ofs - v.Bytes()).v,
                  FollowLeaks(v', c, ofs - v.Bytes()));
      }
    } else if ofs > v.Bytes() {
      ReadOnlyFollow(v, f, clst, ofs);
    }
  }

  lemma LeakFails(v: Vol, clst: nat)
    requires v.Valid()
    ensures Leaks(v, clst) ==> CreateChain(v, clst).0 == DISK_ERROR
  {
  }

  lemma {:induction false} ReadOnlyFollow(v: Vol, f: Fil, clst: nat, ofs: nat)
    requires v.Valid() && !f.write
    ensures Follow(v, f, clst, ofs).v == v
    decreases ofs
  {
    if ofs > v.Bytes() && 1 < v.Get(clst) < |v.link| {
      ReadOnlyFollow(v, f.(clust := v.Get(clst), fptr := f.fptr + v.Bytes()), v.Get(clst), ofs - v.Bytes());
    }
  }

  lemma SeekKeepsShape(v: Vol, f: Fil, ofs: nat)
    requires v.Valid()
    ensures Kept(v, Seek(v, f, ofs).v, SeekLeaks(v, f, ofs))
  {
    hide Follow, FollowLeaks, Leaks, CreateChain, Ahead, Skipped, FreeCount;
    if f.err == 0 {
      var ofs := if ofs > f.fsize && !f.write then f.fsize else ofs;
      if ofs != 0 {
        var bcs := v.Bytes();
        var start := f.(fptr := 0);
        if f.fptr > 0 && Ahead(ofs, f.fptr, bcs) {
          var from := f.(fptr := Skipped(ofs, f.fptr, bcs));
          FollowKeeps(v, from, f.clust, ofs - from.fptr);
        } else if f.sclust == 0 {
          var (c, v') := CreateChain(v, 0);
          CreateChainKeeps(v, 0);
          NewChainLinked(v);
          FollowKeeps(v', start.(sclust := c, clust := c), c, ofs);
          KeptAgain(v, v', Follow(v', start.(sclust := c, clust := c), c, ofs).v, f.write && FollowLeaks(v', c, ofs));
        } else {
          FollowKeeps(v, start.(clust := f.sclust), f.sclust, ofs);
        }
      }
    }
  }

  lemma NewChainLinked(v: Vol)
    requires v.Valid()
    ensures !Leaks(v, 0)
  {
  }

  /** The file is cut inside its data, in a cluster that the table lists as free, with the counter known. */
  predicate CutsFreeCluster(v: Vol, f: Fil) {
    f.err == 0 && f.write && f.fsize > f.fptr > 0 && v.Get(f.clust) == 0 && v.free != DISK_ERROR
  }

  /** Truncating keeps the counter right exactly unless it marks a free cluster as the end of the chain, which
      it does without counting. */
  lemma TruncateKeepsShape(v: Vol, f: Fil)
    requires v.Valid()
    ensures var v' := Truncate(v, f).v;
            SameShape(v, v') && (Counted(v) ==> (Counted(v') <==> !CutsFreeCluster(v, f)))
  {
    hide RemoveFrom, FreeFrom;
    if f.err == 0 && f.write && f.fsize > f.fptr {
      if f.fptr == 0 {
        if 2 <= f.sclust < |v.link| { RemoveFromKeeps(v, f.sclust); }
      } else {
        var ncl := v.Get(f.clust);
        if ncl != DISK_ERROR && ncl != 1 && ncl < |v.link| {
          FreeFromUpdate(v.link, 2, f.clust, END_OF_CHAIN);
          var v1 := v.(link := v.link[f.clust := END_OF_CHAIN]);
          if ncl >= 2 { RemoveFromKeeps(v1, ncl); }
        }
      }
    }
  }

  lemma TruncateKnown(v: Vol, f: Fil)
    requires v.Valid() && f.fptr == 0
    ensures Counted(v) ==> (Truncate(v, f).v.free == DISK_ERROR <==> v.free == DISK_ERROR)
  {
    if f.err == 0 && f.write && f.fsize > 0 && 2 <= f.sclust < |v.link| { RemoveFromKeeps(v, f.sclust); }
  }

  /** A file whose second cluster has been freed behind its back: cutting it there leaves the counter at four
      although three entries are free. */
  lemma MiscountExample(v: Vol, f: Fil)
    requires v == Vol([END_OF_CHAIN, END_OF_CHAIN, 3, 0, 0, 0, 0], {}, {}, 2, 4, 1, 100)
    requires f == Fil(2, 3, 700, 900, true, f.changed, 0)
    ensures Counted(v) && CutsFreeCluster(v, f)
    ensures var v' := Truncate(v, f).v; v'.free == 4 && FreeCount(v') == 3 && !Counted(v')
  {
    assert FreeFrom(v.link, 5) == 2 && FreeFrom(v.link, 3) == 4;
    var w := v.link[3 := END_OF_CHAIN];
    assert FreeFrom(w, 5) == 2 && FreeFrom(w, 3) == 3;
    assert Truncate(v, f).v == v.(link := w);
  }

  /** The allocator comes to the seek, and that leaks a cluster. */
  predicate AllocateLeaks(v: Vol, f: Fil, len: nat)
    requires v.Valid()
  {
    var tcl, f0 := Clusters(len, v.Bytes()), f.(fptr := 0);
    var size := tcl * v.Bytes() % WORD;
    f.err == 0 && len != 0 && (size == f.fsize ==> WalkChain(v, f.sclust, 0, tcl) == Broken) &&
    ReallocateLeaks(v, f0, tcl, size)
  }

  predicate ReallocateLeaks(v: Vol, f: Fil, tcl: nat, size: nat)
    requires v.Valid()
  {
    var t := Truncate(v, f);
    TruncateKeepsShape(v, f);
    t.res == FR_OK &&
    var s := FirstRun(t.v, Max1(tcl), 2);
    s != 0 && SeekLeaks(t.v.(last := s - 1), t.f, size)
  }

  /** The allocator keeps a right count of the free clusters right exactly unless it leaks one. */
  lemma AllocateKeeps(v: Vol, f: Fil, len: nat)
    requires v.Valid()
    ensures Kept(v, Allocate(v, f, len).v, AllocateLeaks(v, f, len))
  {
    hide Seek, WalkChain, Clusters, ClusterSector, Counted, Reallocate, ReallocateLeaks;
    SeekToStart(v, f);
    var tcl := Clusters(len, v.Bytes());
    ReallocateKeeps(v, f.(fptr := 0), tcl, tcl * v.Bytes() % WORD);
  }

  lemma ReallocateKeeps(v: Vol, f: Fil, tcl: nat, size: nat)
    requires v.Valid() && f.fptr == 0
    ensures Kept(v, Reallocate(v, f, tcl, size).v, ReallocateLeaks(v, f, tcl, size))
  {
    hide Truncate, FirstRun, Seek, SeekLeaks, ClusterSector, FreeFrom;
    var t := Truncate(v, f);
    TruncateKeepsShape(v, f);
    TruncateKnown(v, f);
    if t.res == FR_OK {
      var s := FirstRun(t.v, Max1(tcl), 2);
      if s != 0 {
        var v2 := t.v.(last := s - 1);
        SeekKeepsShape(v2, t.f, size);
        KeptAgain(v, v2, Seek(v2, t.f, size).v, SeekLeaks(v2, t.f, size));
      }
    }
  }

  lemma SeekToStart(v: Vol, f: Fil)
    requires v.Valid()
    ensures Seek(v, f, 0) == if f.err != 0 then Outcome(f.err, v, f) else Outcome(FR_OK, v, f.(fptr := 0))
  {
  }
}
