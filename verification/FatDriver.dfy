/** The FatFs routines and the allocator built on them, working on the FAT in place. */
module FatDriver {
  import opened FatModel
  import opened Contiguous

  class Volume {
    const fat: array<nat>
    const bad: set<nat>
    const stuck: set<(nat, nat)>
    const csize: nat
    const base: nat
    var last: nat
    var free: nat

    constructor (fat: array<nat>, bad: set<nat>, stuck: set<(nat, nat)>, csize: nat, base: nat, last: nat, free: nat)
      ensures this.fat == fat
      ensures State() == Vol(fat[..], bad, stuck, last, free, csize, base)
    {
      this.fat, this.bad, this.stuck, this.csize, this.base := fat, bad, stuck, csize, base;
      this.last, this.free := last, free;
    }

    ghost function State(): Vol
      reads this, fat
    {
      Vol(fat[..], bad, stuck, last, free, csize, base)
    }

    method GetFat(c: nat) returns (val: nat)
      ensures val == State().Get(c)
    {
      if c < 2 || c >= fat.Length {
        val := 1;
      } else if c in bad {
        val := DISK_ERROR;
      } else {
        val := fat[c];
      }
    }

    method PutFat(c: nat, val: nat) returns (res: nat)
      modifies fat
      ensures res == if c < 2 || c >= fat.Length then FR_INT_ERR else if c in bad then FR_DISK_ERR else FR_OK
      ensures fat[..] == if res == FR_OK then old(fat[..])[c := val] else old(fat[..])
    {
      if c < 2 || c >= fat.Length { return FR_INT_ERR; }
      if c in bad { return FR_DISK_ERR; }
      fat[c] := val;
      res := FR_OK;
    }

    /** The same for the link to a cluster just marked, whose sector may have to be written back before. */
    method PutLink(c: nat, n: nat) returns (res: nat)
      modifies fat
      ensures res == if c < 2 || c >= fat.Length then FR_INT_ERR
                     else if c in bad || (c, n) in stuck then FR_DISK_ERR else FR_OK
      ensures fat[..] == if res == FR_OK then old(fat[..])[c := n] else old(fat[..])
    {
      if (c, n) in stuck && 2 <= c < fat.Length { return FR_DISK_ERR; }
      res := PutFat(c, n);
    }

    /** Stretch a chain, or start one when `clst` is 0. */
    method CreateChain(clst: nat) returns (ncl: nat)
      requires State().Valid()
      modifies this, fat
      ensures (ncl, State()) == FatModel.CreateChain(old(State()), clst)
    {
      hide StopAt;
      ghost var v := State();
      var scl;
      if clst == 0 {
        scl := last;
        if scl == 0 || scl >= fat.Length { scl := 1; }
      } else {
        var cs := GetFat(clst);
        if cs < 2 { return 1; }
        if cs == DISK_ERROR { return cs; }
        if cs < fat.Length { return cs; }
        scl := clst;
      }
      ncl := FindFree(scl);
      if ncl == 0 { return 0; }
      var cs := GetFat(ncl);
      if cs != 0 { return cs; }
      var res := PutFat(ncl, END_OF_CHAIN);
      if res == FR_OK && clst != 0 {
        res := PutLink(clst, ncl);
      }
      if res == FR_OK {
        last := ncl;
        if free != DISK_ERROR { free := (free + WORD - 1) % WORD; }
      } else {
        assert res == FR_DISK_ERR;  // both entries lie inside the table
        ncl := DISK_ERROR;
      }
    }

    /** The search loop of `create_chain`: round the table from behind `scl`, to the first cluster that is
        free or unreadable. */
    method FindFree(scl: nat) returns (ncl: nat)
      requires State().Valid() && 1 <= scl < fat.Length
      ensures ncl == Candidate(State(), scl)
    {
      ghost var v := State();
      ncl := scl;
      ghost var wrapped := false;
      while true
        invariant wrapped ==> 2 <= scl && 2 <= ncl < scl && StopAt(v, 2, scl + 1) == StopAt(v, ncl + 1, scl + 1)
        invariant wrapped ==> StopAt(v, scl + 1, fat.Length) == fat.Length
        invariant !wrapped ==> scl <= ncl < fat.Length &&
                               StopAt(v, scl + 1, fat.Length) == StopAt(v, ncl + 1, fat.Length)
        decreases if wrapped then 0 else 1, fat.Length - ncl
      {
        ncl := ncl + 1;
        if ncl >= fat.Length {
          ncl := 2;
          if ncl > scl { return 0; }
          wrapped := true;
        }
        var cs := GetFat(ncl);
        if cs == 0 { return; }
        if cs == DISK_ERROR || cs == 1 { return; }
        if ncl == scl { return 0; }
      }
    }

    method RemoveChain(start: nat) returns (res: nat)
      requires State().Valid()
      modifies this, fat
      ensures (res, State()) == FatModel.RemoveChain(old(State()), start)
    {
      if start < 2 || start >= fat.Length { return FR_INT_ERR; }
      ghost var goal := RemoveFrom(State(), start);
      var clst := start;
      res := FR_OK;
      while clst < fat.Length
        invariant State().Valid() && clst >= 2 && res == FR_OK
        invariant RemoveFrom(State(), clst) == goal
        decreases fat.Length - FreeCount(State())
      {
        ghost var v := State();
        var nxt := GetFat(clst);
        if nxt == 0 { break; }
        if nxt == 1 { res := FR_INT_ERR; break; }
        if nxt == DISK_ERROR { res := FR_DISK_ERR; break; }
        res := PutFat(clst, 0);
        if res != FR_OK { break; }
        FreeFromUpdate(v.link, 2, clst, 0);
        if free != DISK_ERROR { free := (free + 1) % WORD; }
        assert State() == Release(v, clst);
        clst := nxt;
      }
    }

    method ClusterToSector(c: nat) returns (sector: nat)
      requires State().Valid()
      ensures sector == ClusterSector(State(), c)
    {
      if c < 2 || c - 2 >= fat.Length - 2 { return 0; }
      sector := ((c - 2) * csize + base) % WORD;
    }
  }

  class File {
    const fs: Volume
    var sclust: nat
    var clust: nat
    var fptr: nat
    var fsize: nat
    var write: bool
    var changed: bool
    var err: nat

    /** The file object after opening; `created` if there was no such file before. */
    constructor (fs: Volume, entry: Entry, write: bool, created: bool)
      ensures this.fs == fs && State() == Opened(entry, write).(changed := created)
    {
      this.fs, this.sclust, this.clust, this.fptr := fs, entry.sclust, 0, 0;
      this.fsize, this.write, this.changed, this.err := entry.fsize, write, created, 0;
    }

    ghost function State(): Fil
      reads this
    {
      Fil(sclust, clust, fptr, fsize, write, changed, err)
    }

    ghost predicate After(o: Outcome, res: nat)
      reads this, fs, fs.fat
    {
      res == o.res && fs.State() == o.v && State() == o.f
    }

    method Fail(code: nat) returns (res: nat)
      modifies this
      ensures res == code && State() == old(State()).(err := code)
    {
      err := code;
      res := code;
    }

    /** Move the file pointer; in write mode the file is stretched as needed. */
    method LSeek(target: nat) returns (res: nat)
      requires fs.State().Valid()
      modifies this, fs, fs.fat
      ensures After(Seek(old(fs.State()), old(State()), target), res)
    {
      hide FatModel.CreateChain, Follow, Ahead, Skipped;
      if err != 0 { return err; }
      var ofs := target;
      if ofs > fsize && !write { ofs := fsize; }
      var ifptr := fptr;
      fptr := 0;
      if ofs != 0 {
        var bcs := fs.csize * SECTOR;
        var clst;
        if ifptr > 0 && Ahead(ofs, ifptr, bcs) {
          fptr := Skipped(ofs, ifptr, bcs);
          ofs := ofs - fptr;
          clst := clust;
        } else {
          clst := sclust;
          if clst == 0 {
            ghost var v := fs.State();
            clst := fs.CreateChain(0);
            ChainKeepsShape(v, 0);
            if clst == 1 { res := Fail(FR_INT_ERR); return; }
            if clst == DISK_ERROR { res := Fail(FR_DISK_ERR); return; }
            sclust := clst;
          }
          clust := clst;
        }
        if clst != 0 {
          res := FollowClusters(clst, ofs);
          return;
        }
      }
      if fptr > fsize { fsize, changed := fptr, true; }
      res := FR_OK;
    }

    /** The cluster following loop. */
    method FollowClusters(start: nat, target: nat) returns (res: nat)
      requires fs.State().Valid()
      modifies this, fs, fs.fat
      ensures After(Follow(old(fs.State()), old(State()), start, target), res)
    {
      ghost var goal := Follow(fs.State(), State(), start, target);
      var clst: nat, ofs: nat := start, target;
      var bcs := fs.csize * SECTOR;
      while ofs > bcs
        invariant fs.State().Valid()
        invariant Follow(fs.State(), State(), clst, ofs) == goal
        decreases ofs
      {
        hide FatModel.CreateChain, Arrive;
        ghost var v := fs.State();
        ChainKeepsShape(v, clst);
        if write {
          clst := fs.CreateChain(clst);
          if clst == 0 {
            ofs := bcs;
            break;
          }
        } else {
          clst := fs.GetFat(clst);
        }
        if clst == DISK_ERROR { res := Fail(FR_DISK_ERR); return; }
        if clst <= 1 || clst >= fs.fat.Length { res := Fail(FR_INT_ERR); return; }
        clust := clst;
        fptr := fptr + bcs;
        ofs := ofs - bcs;
      }
      assert Arrive(fs.State(), State(), clst, ofs) == goal;
      res := FinishSeek(clst, ofs);
    }

    /** Past the loop: advance inside the cluster and extend the size. */
    method FinishSeek(clst: nat, ofs: nat) returns (res: nat)
      requires fs.State().Valid()
      modifies this
      ensures After(Arrive(old(fs.State()), old(State()), clst, ofs), res)
    {
      hide ClusterSector;
      fptr := fptr + ofs;
      if ofs % SECTOR != 0 {
        var nsect := fs.ClusterToSector(clst);
        if nsect == 0 { res := Fail(FR_INT_ERR); return; }
      }
      if fptr > fsize { fsize, changed := fptr, true; }
      res := FR_OK;
    }

    /** Write the directory entry of a changed file. */
    method Sync(entry: Entry) returns (e: Entry)
      modifies this`changed
      ensures e == Synced(old(State()), entry) && State() == old(State()).(changed := false)
    {
      e := entry;
      if changed {
        e := Entry(sclust, fsize);
        changed := false;
      }
    }

    /** Cut the file at the current position. */
    method Cut() returns (res: nat)
      requires fs.State().Valid()
      modifies this, fs, fs.fat
      ensures After(Truncate(old(fs.State()), old(State())), res)
    {
      hide RemoveFrom;
      if err != 0 { return err; }
      res := if write then FR_OK else FR_DENIED;
      if res == FR_OK && fsize > fptr {
        fsize, changed := fptr, true;
        if fptr == 0 {
          res := fs.RemoveChain(sclust);
          sclust := 0;
        } else {
          var ncl := fs.GetFat(clust);
          if ncl == DISK_ERROR { res := FR_DISK_ERR; }
          if ncl == 1 { res := FR_INT_ERR; }
          if res == FR_OK && ncl < fs.fat.Length {
            res := fs.PutFat(clust, END_OF_CHAIN);
            if res == FR_OK { res := fs.RemoveChain(ncl); }
          }
        }
      }
      if res != FR_OK { err := res; }
    }

    /** The check whether the existing chain is contiguous. */
    method WalkClusters(start: nat, tcl: nat) returns (w: Walk)
      ensures w == WalkChain(fs.State(), start, 0, tcl)
    {
      var ncl: nat, ccl: nat := 0, start;
      while true
        invariant ncl == 0 || ncl < tcl
        invariant WalkChain(fs.State(), ccl, ncl, tcl) == WalkChain(fs.State(), start, 0, tcl)
        decreases if ncl < tcl then tcl - ncl else 0
      {
        var cl := fs.GetFat(ccl);
        if (cl + 1) % WORD < 3 { return HardError; }
        if cl != ccl + 1 && cl < fs.fat.Length { return Broken; }
        ccl := cl;
        ncl := ncl + 1;
        if ncl >= tcl { break; }
      }
      w := if ncl == tcl then Consecutive else Broken;
    }

    /** First fit: `ccl` is the start of the free clusters seen last, `ncl` their number. */
    method FindRun(tcl: nat) returns (start: nat)
      requires fs.State().Valid()
      ensures start == FirstRun(fs.State(), Max1(tcl), 2)
    {
      hide FirstRun;
      ghost var v, t := fs.State(), Max1(tcl);
      var ccl, cl, ncl := 2, 2, 0;
      while true
        invariant 2 <= ccl <= cl && cl == ccl + ncl && ncl < t
        invariant cl <= fs.fat.Length
        invariant forall c :: ccl <= c < cl ==> v.Get(c) == 0
        invariant forall r :: 2 <= r < ccl ==> !FreeRun(v, r, t)
        decreases fs.fat.Length - cl
      {
        if cl >= fs.fat.Length {
          NoRoom(v, t, ccl);
          return 0;
        }
        var status := fs.GetFat(cl);
        if status != 0 {
          var used := cl;
          ghost var first := ccl;
          while true
            invariant used <= cl < fs.fat.Length
            invariant forall c :: used <= c <= cl ==> v.Get(c) != 0
            decreases fs.fat.Length - cl
          {
            cl := cl + 1;
            if cl >= fs.fat.Length {
              UsedBlocks(v, t, first, used, cl);
              NoRoom(v, t, cl);
              return 0;
            }
            status := fs.GetFat(cl);
            if status == 0 { break; }
          }
          UsedBlocks(v, t, first, used, cl);
          ccl := cl;
          ncl := 0;
        }
        cl := cl + 1;
        ncl := ncl + 1;
        if ncl >= tcl { break; }
      }
      FoundRun(v, t, ccl);
      start := ccl;
    }

    /** Allocate a contiguous area of `size` bytes; returns its first sector or 0. */
    method AllocateContiguous(size: nat) returns (sector: nat)
      requires fs.State().Valid()
      modifies this, fs, fs.fat
      ensures After(Allocate(old(fs.State()), old(State()), size), sector)
    {
      hide Seek, WalkChain, Contiguous.Reallocate, ClusterSector;
      ghost var v, f := fs.State(), State();
      SeekToStart(v, f);
      var res := LSeek(0);
      if res != FR_OK || size == 0 { return 0; }
      var csz := SECTOR * fs.csize;
      var tcl := Clusters(size, csz);
      var len := tcl * csz % WORD;
      if len == fsize {
        var w := WalkClusters(sclust, tcl);
        if w == HardError { return 0; }
        if w == Consecutive {
          sector := fs.ClusterToSector(sclust);
          return;
        }
      }
      sector := Reallocate(tcl, len);
    }

    /** Release the existing chain, find a contiguous free area and chain it to the file. */
    method Reallocate(tcl: nat, len: nat) returns (sector: nat)
      requires fs.State().Valid()
      modifies this, fs, fs.fat
      ensures After(Contiguous.Reallocate(old(fs.State()), old(State()), tcl, len), sector)
    {
      hide Seek, Truncate, FirstRun, ClusterSector;
      TruncateKeepsShape(fs.State(), State());
      var res := Cut();
      if res != FR_OK { return 0; }
      var ccl := FindRun(tcl);
      if ccl == 0 { return 0; }
      fs.last := ccl - 1;
      SeekKeepsShape(fs.State(), State(), len);
      res := LSeek(len);
      if res != FR_OK { return 0; }
      sector := fs.ClusterToSector(sclust);
    }
  }

  /** Any run of `t` clusters starting in front of the used block `[used, cl)` and not before the free
      clusters `[first, used)`, fewer than `t`, would contain the used cluster. */
  lemma UsedBlocks(v: Vol, t: nat, first: nat, used: nat, cl: nat)
    requires 2 <= first <= used < cl && used - first < t
    requires forall c :: used <= c < cl ==> v.Get(c) != 0
    requires forall r :: 2 <= r < first ==> !FreeRun(v, r, t)
    ensures forall r :: 2 <= r < cl ==> !FreeRun(v, r, t)
  {
    forall r | first <= r < cl ensures !FreeRun(v, r, t) {
      assert v.Get(if r <= used then used else r) != 0;
    }
  }

  lemma NoRoom(v: Vol, t: nat, ccl: nat)
    requires v.Valid() && t >= 1 && ccl >= 2 && ccl + t > |v.link|
    requires forall r :: 2 <= r < ccl ==> !FreeRun(v, r, t)
    ensures FirstRun(v, t, 2) == 0
  {
  }

  lemma FoundRun(v: Vol, t: nat, ccl: nat)
    requires t >= 1 && FreeRun(v, ccl, t)
    requires forall r :: 2 <= r < ccl ==> !FreeRun(v, r, t)
    ensures FirstRun(v, t, 2) == ccl
  {
  }
}
