/** Files of size zero that own clusters, the case in which the contiguous allocator reports success without having
    made the file contiguous: truncating leaves such a chain alone, and the seek then follows it instead of the hint. */
module StrandedFiles {
  import opened FatModel
  import opened Contiguous
  import opened ContiguousProofs

  // ---------------------------------------------------------------- stretching an existing chain

  /** Stretching the chain that ends in `tail` by `n` clusters: status, volume, and the clusters taken. */
  function Extend(v: Vol, tail: nat, n: nat): (nat, Vol, seq<nat>)
    requires v.Valid()
    decreases n
  {
    if n == 0 then (FR_OK, v, []) else
    ChainKeepsShape(v, tail);
    var (c, v1) := CreateChain(v, tail);
    if c == DISK_ERROR then (FR_DISK_ERR, v1, [])
    else if c <= 1 || c >= |v1.link| then (FR_INT_ERR, v1, [])
    else var (res, w, e) := Extend(v1, c, n - 1); (res, w, [c] + e)
  }

  /** `tail` is a readable end of a chain. */
  predicate Tail(v: Vol, tail: nat) {
    2 <= tail < |v.link| && tail !in v.bad && |v.link| <= v.link[tail] <= END_OF_CHAIN
  }

  lemma {:induction false} SomeFree(link: seq<nat>, from: nat)
    requires from <= |link| && FreeFrom(link, from) > 0
    ensures exists d :: from <= d < |link| && link[d] == 0
    decreases |link| - from
  {
    if link[from] != 0 { SomeFree(link, from + 1); }
  }

  /** With a free entry left, stretching takes one or reports an error; it never finds the volume full. */
  lemma Stretch(v: Vol, tail: nat)
    requires v.Valid() && Tail(v, tail) && FreeCount(v) > 0
    ensures var (c, v1) := CreateChain(v, tail);
            SameShape(v, v1) && v1.Valid() &&
            if c == 1 || c == DISK_ERROR then v1 == v || exists d :: v.Free(d) && d != tail && v1 == Leak(v, d)
            else 2 <= c < |v.link| && v.link[c] == 0 && c != tail && Tail(v1, c) &&
                 v1.link == v.link[c := END_OF_CHAIN][tail := c] && v1.last == c && FreeCount(v1) == FreeCount(v) - 1
    ensures CreateChain(v, tail).0 == tail + 1 <==> v.Free(tail + 1) && !Jams(v, tail)
  {
    SomeFree(v.link, 2);
    CreateChainSound(v, tail);
    ChainKeepsShape(v, tail);
    var d :| 2 <= d < |v.link| && v.link[d] == 0;
    assert Stops(v.Get(d));
    var (c, v1) := CreateChain(v, tail);
    if v.Free(tail + 1) { TakesNext(v, tail); }
    hide Candidate;
    if c != 1 && c != DISK_ERROR {
      var l := v.link[c := END_OF_CHAIN];
      FreeFromUpdate(v.link, 2, c, END_OF_CHAIN);
      FreeFromUpdate(l, 2, tail, c);
    }
  }

  /** What stretching does: the clusters taken were free, continue the chain in order, and nothing else changes; no
      link of the old chain is given up, whether it succeeds or not.  If it fails, some other cluster that was free may
      have changed as well. */
  lemma {:induction false} ExtendSound(v: Vol, tail: nat, n: nat)
    requires v.Valid() && Tail(v, tail) && FreeCount(v) >= n
    ensures var (res, w, e) := Extend(v, tail, n);
            SameShape(v, w) && w.Valid() && |e| <= n && (res == FR_OK ==> |e| == n) && tail !in e &&
            (forall i :: 0 <= i < |e| ==> 2 <= e[i] < |v.link| && v.link[e[i]] == 0) &&
            (forall d :: 0 <= d < |v.link| && d != tail && d !in e && (res == FR_OK || v.link[d] != 0) ==>
               w.link[d] == v.link[d]) &&
            Chain(w.link, [tail] + e)
    decreases n
  {
    hide CreateChain, FreeFrom;
    if n == 0 {
      assert Chain(v.link, [tail] + []);
    } else {
      Stretch(v, tail);
      var (c, v1) := CreateChain(v, tail);
      if c == 1 || c == DISK_ERROR {
        assert Chain(v.link, [tail] + []);
      } else {
        ExtendSound(v1, c, n - 1);
        var (res, w, e) := Extend(v1, c, n - 1);
        assert v1.link[tail] == c;
        assert tail !in e;
        ChainPrepended(w.link, tail, [c] + e);
        OneMore(v.link, v1.link, w.link, tail, c, e, res == FR_OK);
        hide Extend;
      }
    }
  }

  lemma OneMore(before: seq<nat>, mid: seq<nat>, after: seq<nat>, tail: nat, c: nat, e: seq<nat>,
                ok: bool)
    requires |before| == |mid| == |after| && 2 <= c < |before| && before[c] == 0 && c != tail < |before|
    requires mid == before[c := END_OF_CHAIN][tail := c]
    requires forall i :: 0 <= i < |e| ==> 2 <= e[i] < |mid| && mid[e[i]] == 0
    requires forall d :: 0 <= d < |mid| && d != c && d !in e && (ok || mid[d] != 0) ==> after[d] == mid[d]
    ensures var f := [c] + e;
            (forall i :: 0 <= i < |f| ==> 2 <= f[i] < |before| && before[f[i]] == 0) &&
            (forall d :: 0 <= d < |before| && d != tail && d !in f && (ok || before[d] != 0) ==> after[d] == before[d])
  {
    forall i | 0 <= i < |e| ensures before[e[i]] == 0 { assert e[i] != tail && e[i] != c; }
    forall d | 0 <= d < |before| && d != tail && d !in [c] + e && (ok || before[d] != 0) ensures after[d] == before[d] {
      assert d != c && d !in e;
    }
  }

  lemma ChainPrepended(link: seq<nat>, c: nat, cs: seq<nat>)
    requires Chain(link, cs) && 2 <= c < |link| && link[c] == cs[0]
    ensures Chain(link, [c] + cs)
  {
    var d := [c] + cs;
    assert forall i :: 1 <= i < |d| ==> d[i] == cs[i - 1];
  }

  /** The clusters taken follow the tail directly exactly when those clusters are free; then there is no error unless
      one of them cannot be linked. */
  lemma {:induction false} ExtendConsecutive(v: Vol, tail: nat, n: nat)
    requires v.Valid() && Tail(v, tail) && FreeCount(v) >= n
    ensures var (res, w, e) := Extend(v, tail, n);
            (res == FR_OK && e == Consec(tail + 1, n)) <==>
            (forall c :: tail < c <= tail + n ==> v.Free(c)) && Linkable(v, tail, n + 1)
    ensures Extend(v, tail, n).0 == FR_OK && (forall c :: tail < c <= tail + n ==> v.Free(c)) ==>
              Linkable(v, tail, n + 1)
    decreases n
  {
    hide CreateChain, FreeFrom, Jams;
    if n != 0 {
      Stretch(v, tail);
      SplitLinkable(v, tail, n + 1);
      var (c, v1) := CreateChain(v, tail);
      if v.Free(tail + 1) && Jams(v, tail) {
        JamFails(v, tail);
      } else if v.Free(tail + 1) {
        assert c == tail + 1;
        ExtendConsecutive(v1, c, n - 1);
        SameLinks(v, v1, c, n);
        assert forall d :: c < d <= c + n - 1 ==> v1.Free(d) == v.Free(d);
        ConsecStep(Extend(v1, c, n - 1).2, c, n);
      } else {
        assert Consec(tail + 1, n)[0] == tail + 1;
      }
    }
  }

  lemma JamFails(v: Vol, tail: nat)
    requires v.Valid() && Tail(v, tail) && v.Free(tail + 1) && Jams(v, tail)
    ensures CreateChain(v, tail).0 == DISK_ERROR
  {
    TakesNext(v, tail);
    hide Candidate;
  }

  lemma ConsecStep(e: seq<nat>, c: nat, n: nat)
    requires n >= 1
    ensures [c] + e == Consec(c, n) <==> e == Consec(c + 1, n - 1)
  {
    var d := [c] + e;
    if d == Consec(c, n) { assert forall i :: 0 <= i < |e| ==> e[i] == d[i + 1]; }
  }

  /** A free run has that many free entries. */
  lemma {:induction false} RunCounted(link: seq<nat>, s: nat, t: nat, from: nat)
    requires from <= s && s + t <= |link| && forall c :: s <= c < s + t ==> link[c] == 0
    ensures FreeFrom(link, from) >= t
    decreases s + t - from
  {
    if from < s {
      RunCounted(link, s, t, from + 1);
    } else if t > 0 {
      RunCounted(link, s + 1, t - 1, from + 1);
    }
  }

  // ---------------------------------------------------------------- seeking along it

  /** Following a chain through `m` clusters from cluster `k` on. */
  lemma {:induction false} FollowOwn(v: Vol, f: Fil, cs: seq<nat>, k: nat, m: nat)
    requires v.Valid() && f.write && Chain(v.link, cs) && Readable(v, cs) && k < |cs| && 1 <= m <= |cs| - k
    ensures Reached(Follow(v, f, cs[k], Total(v.Bytes(), m)), f, v.link, v.last, Total(v.Bytes(), m))
    ensures Follow(v, f, cs[k], Total(v.Bytes(), m)).v == v
    decreases m
  {
    hide Arrive, Follow, Reached, Total, CreateChain, Chain, Readable;
    var bcs := v.Bytes();
    TotalStep(bcs, m - 1);
    if m == 1 {
      TotalStep(bcs, 0);
      FollowEnd(v, f, cs[k]);
      ReachedEnd(v, f);
    } else {
      OwnLink(v, cs, k);
      TotalPositive(bcs, m - 1);
      FollowStep(v, f, cs[k], Total(bcs, m), cs[k + 1], v);
      var f1 := f.(clust := cs[k + 1], fptr := f.fptr + bcs);
      FollowOwn(v, f1, cs, k + 1, m - 1);
      ReachedFrom(Follow(v, f1, cs[k + 1], Total(bcs, m - 1)), f, f1, v.link, v.last, bcs, Total(bcs, m - 1));
    }
  }

  /** A seek's outcome is that of a stretch: the same status and volume, and on success the position reached. */
  predicate Stretched(o: Outcome, f: Fil, r: (nat, Vol, seq<nat>), bytes: nat) {
    if r.0 == FR_OK then Reached(o, f, r.1.link, r.1.last, bytes) && SameShape(r.1, o.v)
    else o.res == r.0 && o.v == r.1
  }

  /** Following from the end of a chain through `n` more clusters. */
  lemma {:induction false} FollowExtend(v: Vol, f: Fil, tail: nat, n: nat)
    requires v.Valid() && f.write && Tail(v, tail) && FreeCount(v) >= n
    ensures Stretched(Follow(v, f, tail, Total(v.Bytes(), n + 1)), f, Extend(v, tail, n), Total(v.Bytes(), n + 1))
    decreases n
  {
    hide Arrive, Follow, Reached, Total, CreateChain, FreeFrom;
    var bcs := v.Bytes();
    TotalStep(bcs, n);
    if n == 0 {
      FollowEnd(v, f, tail);
      ReachedEnd(v, f);
    } else {
      Stretch(v, tail);
      TotalPositive(bcs, n);
      var (c, v1) := CreateChain(v, tail);
      if c == 1 || c == DISK_ERROR {
        FollowFails(v, f, tail, Total(bcs, n + 1));
      } else {
        FollowStep(v, f, tail, Total(bcs, n + 1), c, v1);
        var f1 := f.(clust := c, fptr := f.fptr + bcs);
        FollowExtend(v1, f1, c, n - 1);
        var r := Extend(v1, c, n - 1);
        if r.0 == FR_OK {
          ReachedFrom(Follow(v1, f1, c, Total(bcs, n)), f, f1, r.1.link, r.1.last, bcs, Total(bcs, n));
        }
      }
    }
  }

  lemma FollowFails(v: Vol, f: Fil, clst: nat, ofs: nat)
    requires v.Valid() && f.write && ofs > v.Bytes()
    requires var c := CreateChain(v, clst).0; c == 1 || c == DISK_ERROR
    ensures var o := Follow(v, f, clst, ofs);
            o.v == CreateChain(v, clst).1 &&
            o.res == if CreateChain(v, clst).0 == DISK_ERROR then FR_DISK_ERR else FR_INT_ERR
  {
    hide CreateChain;
  }

  /** Following a chain to its end and then through `n` more clusters. */
  lemma {:induction false} FollowThrough(v: Vol, f: Fil, cs: seq<nat>, k: nat, n: nat)
    requires v.Valid() && f.write && Chain(v.link, cs) && Readable(v, cs) && k < |cs| && FreeCount(v) >= n
    ensures var bytes := Total(v.Bytes(), |cs| - k + n);
            Stretched(Follow(v, f, cs[k], bytes), f, Extend(v, cs[|cs| - 1], n), bytes)
    decreases |cs| - k
  {
    hide Arrive, Follow, Reached, Total, CreateChain, FreeFrom, Extend, Chain, Readable;
    var bcs, m := v.Bytes(), |cs| - k + n;
    var tail := cs[|cs| - 1];
    LastIsTail(v, cs);
    if k == |cs| - 1 {
      FollowExtend(v, f, tail, n);
    } else {
      OwnLink(v, cs, k);
      TotalStep(bcs, m - 1);
      TotalPositive(bcs, m - 1);
      FollowStep(v, f, cs[k], Total(bcs, m), cs[k + 1], v);
      var f1 := f.(clust := cs[k + 1], fptr := f.fptr + bcs);
      FollowThrough(v, f1, cs, k + 1, n);
      var r := Extend(v, tail, n);
      if r.0 == FR_OK {
        ReachedFrom(Follow(v, f1, cs[k + 1], Total(bcs, m - 1)), f, f1, r.1.link, r.1.last, bcs, Total(bcs, m - 1));
      }
    }
  }

  lemma LastIsTail(v: Vol, cs: seq<nat>)
    requires v.Valid() && Chain(v.link, cs) && Readable(v, cs)
    ensures Tail(v, cs[|cs| - 1])
  {
  }

  // ---------------------------------------------------------------- the call

  /** The clusters that a stranded file is short of. */
  function Missing(cs: seq<nat>, t: nat): nat {
    if t > |cs| then t - |cs| else 0
  }

  /** What stretching the stranded chain comes to, behind the hint that the search has left. */
  function Lengthened(v: Vol, cs: seq<nat>, s: nat, t: nat): (nat, Vol, seq<nat>)
    requires v.Valid() && cs != [] && s >= 1
  {
    Extend(v.(last := s - 1), cs[|cs| - 1], Missing(cs, t))
  }

  /** The call for a stranded file.  Its chain is never released.  Without a free run of the length nothing happens;
      otherwise the chain is stretched at its end, wherever that is, by the clusters it is short of, and the call
      succeeds unless an entry it meets cannot be read. */
  lemma AllocateStranded(v: Vol, f: Fil, cs: seq<nat>, len: nat)
    requires v.Valid() && Occupies(v, f, cs) && Stranded(f) && 0 < len <= WORD - v.Bytes()
    ensures var o, tcl := Allocate(v, f, len), Clusters(len, v.Bytes());
            var s := FirstRun(v, tcl, 2);
            if s == 0 then o == Outcome(0, v, f.(fptr := 0))
            else
              var (res, w, e) := Lengthened(v, cs, s, tcl);
              if res != FR_OK then o.res == 0 && o.v == w
              else o.res == ClusterSector(v, f.sclust) && o.v.link == w.link &&
                   o.f.sclust == f.sclust && o.f.fsize == tcl * v.Bytes()
  {
    hide FirstRun, WalkOf, Reallocate, Clusters, Chain, Readable, Extend, ClusterSector;
    var tcl, f0 := Clusters(len, v.Bytes()), f.(fptr := 0);
    RoundedSize(len, v.Bytes());
    TotalIsProduct(v.Bytes(), tcl);
    TotalPositive(v.Bytes(), tcl);
    AllocateSteps(v, f, cs, len);
    ReallocateStranded(v, f0, cs, tcl);
  }

  lemma ReallocateStranded(v: Vol, f: Fil, cs: seq<nat>, tcl: nat)
    requires v.Valid() && Occupies(v, f, cs) && Stranded(f) && f.fptr == 0 && tcl >= 1
    ensures var o := Reallocate(v, f, tcl, Total(v.Bytes(), tcl));
            var s := FirstRun(v, tcl, 2);
            if s == 0 then o == Outcome(0, v, f)
            else
              var (res, w, e) := Lengthened(v, cs, s, tcl);
              if res != FR_OK then o.res == 0 && o.v == w
              else o.res == ClusterSector(v, f.sclust) && o.v.link == w.link &&
                   o.f.sclust == f.sclust && o.f.fsize == Total(v.Bytes(), tcl)
  {
    hide Truncate, FirstRun, Seek, Extend, ClusterSector, Chain, Readable;
    TruncateFrees(v, f, cs);
    TruncateKeepsShape(v, f);
    var s := FirstRun(v, tcl, 2);
    if s != 0 {
      var v2, size := v.(last := s - 1), Total(v.Bytes(), tcl);
      FreeAround(v, cs, s, tcl);
      HintOnly(v, v2, f, cs);
      SeekStranded(v2, f, cs, tcl);
      SeekKeepsShape(v2, f, size);
      SectorAnywhere(v, Seek(v2, f, size).v, f.sclust);
    }
  }

  lemma HintOnly(v: Vol, v2: Vol, f: Fil, cs: seq<nat>)
    requires v.Valid() && Occupies(v, f, cs) && v2 == v.(last := v2.last)
    ensures v2.Valid() && Occupies(v2, f, cs) && FreeCount(v2) == FreeCount(v)
  {
  }

  lemma FreeAround(v: Vol, cs: seq<nat>, s: nat, t: nat)
    requires v.Valid() && FreeRun(v, s, t) && cs != []
    ensures FreeCount(v) >= t >= Missing(cs, t)
  {
    RunIsFree(v, s, t);
    RunCounted(v.link, s, t, 2);
    hide FreeFrom;
  }

  lemma SeekStranded(v: Vol, f: Fil, cs: seq<nat>, t: nat)
    requires v.Valid() && Occupies(v, f, cs) && Stranded(f) && f.fptr == 0 && t >= 1 && FreeCount(v) >= Missing(cs, t)
    ensures var o, r := Seek(v, f, Total(v.Bytes(), t)), Extend(v, cs[|cs| - 1], Missing(cs, t));
            if r.0 == FR_OK then
              o.res == FR_OK && o.v.link == r.1.link && o.f.sclust == f.sclust && o.f.fsize == Total(v.Bytes(), t)
            else o.res != FR_OK && o.v == r.1
  {
    hide Follow, Extend, CreateChain, FreeFrom, Total;
    TotalPositive(v.Bytes(), t);
    var f1 := f.(clust := f.sclust);
    assert Seek(v, f, Total(v.Bytes(), t)) == Follow(v, f1, cs[0], Total(v.Bytes(), t));
    if t > |cs| {
      FollowThrough(v, f1, cs, 0, t - |cs|);
      ExtendStatus(v, cs[|cs| - 1], t - |cs|);
    } else {
      FollowOwn(v, f1, cs, 0, t);
      NoExtension(v, cs[|cs| - 1]);
    }
  }

  lemma NoExtension(v: Vol, tail: nat)
    requires v.Valid()
    ensures Extend(v, tail, 0) == (FR_OK, v, [])
  {
  }

  lemma {:induction false} ExtendStatus(v: Vol, tail: nat, n: nat)
    requires v.Valid()
    ensures Extend(v, tail, n).0 in {FR_OK, FR_DISK_ERR, FR_INT_ERR}
    decreases n
  {
    hide CreateChain;
    if n != 0 {
      ChainKeepsShape(v, tail);
      var (c, v1) := CreateChain(v, tail);
      if !(c <= 1 || c >= |v1.link|) { ExtendStatus(v1, c, n - 1); }
    }
  }

  // ---------------------------------------------------------------- when success means contiguous

  /** The clusters that a chain holds already, and those directly behind it that it is short of, are consecutive
      and free for it. */
  predicate Continues(v: Vol, cs: seq<nat>, t: nat)
    requires cs != []
  {
    if t <= |cs| then cs[..t] == Consec(cs[0], t)
    else cs == Consec(cs[0], |cs|) && forall c :: cs[|cs| - 1] < c <= cs[|cs| - 1] + (t - |cs|) ==> v.Free(c)
  }

  /** The old chain with a stretch behind it is a chain, and its start is consecutive exactly if both parts fit. */
  lemma JoinedChain(v: Vol, cs: seq<nat>, n: nat)
    requires v.Valid() && Chain(v.link, cs) && Readable(v, cs) && FreeCount(v) >= n
    ensures var (res, w, e) := Extend(v, cs[|cs| - 1], n);
            Chain(w.link, cs + e) && (res == FR_OK ==> |e| == n) &&
            (res == FR_OK && n > 0 ==>
               (cs + e == Consec(cs[0], |cs| + n) <==> Continues(v, cs, |cs| + n)))
  {
    hide FreeFrom, Extend;
    var tail := cs[|cs| - 1];
    LastIsTail(v, cs);
    ExtendSound(v, tail, n);
    ExtendConsecutive(v, tail, n);
    var (res, w, e) := Extend(v, tail, n);
    OldLinks(v, w, cs, e);
    JoinChains(w.link, cs, e);
    if res == FR_OK && n > 0 { JoinConsecutive(cs, e, n); }
  }

  lemma OldLinks(v: Vol, w: Vol, cs: seq<nat>, e: seq<nat>)
    requires v.Valid() && Chain(v.link, cs) && |w.link| == |v.link|
    requires forall i :: 0 <= i < |e| ==> e[i] < |v.link| && v.link[e[i]] == 0
    requires forall d :: 0 <= d < |v.link| && d != cs[|cs| - 1] && d !in e && v.link[d] != 0 ==> w.link[d] == v.link[d]
    ensures forall i :: 0 <= i < |cs| - 1 ==> w.link[cs[i]] == cs[i + 1]
  {
    forall i | 0 <= i < |cs| - 1 ensures w.link[cs[i]] == cs[i + 1] {
      assert v.link[cs[i]] == cs[i + 1] && 2 <= cs[i + 1];
      assert cs[i] !in e;
      assert cs[i] != cs[|cs| - 1];
    }
  }

  lemma JoinChains(link: seq<nat>, cs: seq<nat>, e: seq<nat>)
    requires |cs| >= 1 && forall i :: 0 <= i < |cs| ==> 2 <= cs[i] < |link|
    requires forall i :: 0 <= i < |cs| - 1 ==> link[cs[i]] == cs[i + 1]
    requires Chain(link, [cs[|cs| - 1]] + e)
    ensures Chain(link, cs + e)
  {
    var d, f := cs + e, [cs[|cs| - 1]] + e;
    assert forall i :: |cs| - 1 <= i < |d| ==> d[i] == f[i - (|cs| - 1)];
    assert forall i :: 0 <= i < |cs| ==> d[i] == cs[i];
  }

  lemma JoinConsecutive(cs: seq<nat>, e: seq<nat>, n: nat)
    requires |cs| >= 1 && |e| == n > 0
    ensures cs + e == Consec(cs[0], |cs| + n) <==> cs == Consec(cs[0], |cs|) && e == Consec(cs[|cs| - 1] + 1, n)
  {
    var d, c := cs + e, Consec(cs[0], |cs| + n);
    if d == c {
      assert forall i :: 0 <= i < |cs| ==> cs[i] == d[i] == cs[0] + i;
      assert forall i :: 0 <= i < n ==> e[i] == d[|cs| + i] == cs[0] + |cs| + i;
    }
    if cs == Consec(cs[0], |cs|) && e == Consec(cs[|cs| - 1] + 1, n) {
      assert cs[|cs| - 1] == cs[0] + |cs| - 1;
      assert forall i :: 0 <= i < |d| ==> d[i] == cs[0] + i;
    }
  }

  /** No other file notices a stretch either: a chain without a cluster of the stretched one is still the same. */
  lemma OthersKept(v: Vol, cs: seq<nat>, n: nat, other: seq<nat>)
    requires v.Valid() && Chain(v.link, cs) && Readable(v, cs) && FreeCount(v) >= n
    requires Chain(v.link, other) && cs[|cs| - 1] !in other
    ensures Chain(Extend(v, cs[|cs| - 1], n).1.link, other)
  {
    hide Extend, FreeFrom;
    var tail := cs[|cs| - 1];
    LastIsTail(v, cs);
    ExtendSound(v, tail, n);
    var (_, w, e) := Extend(v, tail, n);
    forall i | 0 <= i < |other| ensures w.link[other[i]] == v.link[other[i]] {
      assert i + 1 < |other| ==> v.link[other[i]] == other[i + 1] >= 2;
      assert other[i] !in e;
    }
  }

  /** For every file in order and every length that does not overflow: when the call reports a sector, the file has at
      least the clusters asked for, starting at that sector, and they are consecutive exactly if the file was not
      stranded, or if its old chain happened to go on that way. */
  lemma SuccessMeansContiguous(v: Vol, f: Fil, cs: seq<nat>, len: nat) returns (d: seq<nat>)
    requires v.Valid() && Occupies(v, f, cs) && 0 < len <= WORD - v.Bytes()
    requires Allocate(v, f, len).res != 0
    ensures var o, tcl := Allocate(v, f, len), Clusters(len, v.Bytes());
            Chain(o.v.link, d) && d[0] == o.f.sclust && o.res == ClusterSector(v, d[0]) && 1 <= tcl <= |d| &&
            (d[..tcl] == Consec(d[0], tcl) <==> !Stranded(f) || Continues(v, cs, tcl))
  {
    hide FirstRun, Freed, Linked, Seek, Clusters, Readable, Allocate, ClusterSector, Extend, FreeFrom;
    var o, tcl := Allocate(v, f, len), Clusters(len, v.Bytes());
    RoundedSize(len, v.Bytes());
    if Stranded(f) {
      AllocateStranded(v, f, cs, len);
      d := StrandedChain(v, f, cs, FirstRun(v, tcl, 2), tcl);
    } else {
      AllocateResult(v, f, cs, len);
      var walk := if tcl * v.Bytes() == f.fsize then WalkOf(cs, tcl) else Broken;
      if walk == Consecutive {
        d := cs;
      } else {
        var s := FirstRun(Without(v, cs), tcl, 2);
        NewChain(v, cs, s, tcl, tcl);
        d := Consec(s, tcl);
        assert d[..tcl] == d;
      }
    }
  }

  lemma StrandedChain(v: Vol, f: Fil, cs: seq<nat>, s: nat, t: nat) returns (d: seq<nat>)
    requires v.Valid() && Occupies(v, f, cs) && Stranded(f) && t >= 1 && s != 0 && FreeRun(v, s, t)
    requires Lengthened(v, cs, s, t).0 == FR_OK
    ensures Chain(Lengthened(v, cs, s, t).1.link, d) && d[0] == f.sclust && |d| >= t
    ensures d[..t] == Consec(d[0], t) <==> Continues(v, cs, t)
  {
    hide Extend, FreeFrom, Chain, Readable;
    var v2 := v.(last := s - 1);
    FreeAround(v, cs, s, t);
    HintOnly(v, v2, f, cs);
    if t > |cs| {
      var e := Extend(v2, cs[|cs| - 1], t - |cs|).2;
      JoinedChain(v2, cs, t - |cs|);
      d := cs + e;
      assert d[..t] == d && d[0] == cs[0];
      assert forall c :: v2.Free(c) == v.Free(c);
    } else {
      NoExtension(v2, cs[|cs| - 1]);
      d := cs;
    }
  }

  /** The entry of a file with the size `f.fsize`, as the directory has it while the file is open: only a change that
      has not been written back yet makes it differ. */
  predicate Listed(f: Fil, e: Entry) {
    f.changed || e == Entry(f.sclust, f.fsize)
  }

  /** What becomes of a file when the allocator's own seek fails at a link it cannot write.  A file that had a size, or
      was created by this very opening, is stranded: the directory keeps the start cluster and the size zero, and so
      does the file when it is opened again.  An existing empty file is not written back: it owns nothing still, and
      the clusters chained in vain belong to no file. */
  lemma JamStrands(v: Vol, f: Fil, cs: seq<nat>, len: nat, e: Entry)
    requires v.Valid() && Occupies(v, f, cs) && !Stranded(f) && 0 < len <= WORD - v.Bytes() && Listed(f, e)
    requires var tcl := Clusters(len, v.Bytes());
             var s := FirstRun(Without(v, cs), tcl, 2);
             (tcl * v.Bytes() == f.fsize ==> WalkOf(cs, tcl) == Broken) && s != 0 && !Linkable(v, s, tcl)
    ensures var o, tcl := Allocate(v, f, len), Clusters(len, v.Bytes());
            var s := FirstRun(Without(v, cs), tcl, 2);
            var again := Opened(Synced(o.f, e), true);
            var taken := Consec(s, LinkedCount(v, s, tcl));
            o.res == 0 && o.v.Valid() && Chain(o.v.link, taken) &&
            Occupies(o.v, again, if f.fsize > 0 || f.changed then taken else []) &&
            (Stranded(again) <==> f.fsize > 0 || f.changed)
  {
    hide FirstRun, Clusters, Chain, Allocate, ClusterSector, Freed, Linked, Linkable, LinkedCount, WalkOf, Kept;
    RoundedSize(len, v.Bytes());
    var tcl, w := Clusters(len, v.Bytes()), Without(v, cs);
    var s := FirstRun(w, tcl, 2);
    AllocateResult(v, f, cs, len);
    AllocateShape(v, f, len);
    NewChain(v, cs, s, tcl, LinkedCount(v, s, tcl));
    RunReadable(w, Allocate(v, f, len).v, s, tcl, LinkedCount(v, s, tcl));
  }

  lemma AllocateShape(v: Vol, f: Fil, len: nat)
    requires v.Valid()
    ensures SameShape(v, Allocate(v, f, len).v) && Allocate(v, f, len).v.Valid()
  {
    hide Allocate, Counted;
    AllocateKeeps(v, f, len);
  }

  lemma RunReadable(v: Vol, w: Vol, s: nat, t: nat, j: nat)
    requires v.Valid() && FreeRun(v, s, t) && 1 <= j <= t && w.bad == v.bad && w.link == Chained(v.link, s, t, j)
    ensures Readable(w, Consec(s, j))
  {
    RunIsFree(v, s, t);
  }

  /** An empty file that owns cluster 2, with cluster 3 in use by another file: the call reports success for
      clusters 2 and 4. */
  lemma StrandedExample(v: Vol, f: Fil)
    requires v == Vol([END_OF_CHAIN, END_OF_CHAIN, END_OF_CHAIN, END_OF_CHAIN, 0, 0, 0], {}, {}, v.last, v.free, 1, 100)
    requires f == Fil(2, 0, 0, 0, true, f.changed, 0)
    ensures Occupies(v, f, [2]) && Stranded(f)
    ensures var o := Allocate(v, f, 1000);
            o.res == 100 && o.f.sclust == 2 && o.f.fsize == 1024 &&
            o.v.link == [END_OF_CHAIN, END_OF_CHAIN, 4, END_OF_CHAIN, END_OF_CHAIN, 0, 0]
  {
    hide Allocate, Occupies, FirstRun, Extend;
    StrandedFile(v, f);
    ExampleRun(v);
    ExampleStretch(v.(last := 3));
    AllocateStranded(v, f, [2], 1000);
  }

  lemma StrandedFile(v: Vol, f: Fil)
    requires v.link == [END_OF_CHAIN, END_OF_CHAIN, END_OF_CHAIN, END_OF_CHAIN, 0, 0, 0] && v.bad == {}
    requires f == Fil(2, 0, 0, 0, true, f.changed, 0)
    ensures Occupies(v, f, [2]) && Stranded(f)
  {
  }

  lemma ExampleRun(v: Vol)
    requires v == Vol([END_OF_CHAIN, END_OF_CHAIN, END_OF_CHAIN, END_OF_CHAIN, 0, 0, 0], {}, {}, v.last, v.free, 1, 100)
    ensures FirstRun(v, 2, 2) == 4
  {
    assert v.Get(2) != 0 && v.Get(3) != 0 && !FreeRun(v, 2, 2) && !FreeRun(v, 3, 2) && FreeRun(v, 4, 2);
    assert FirstRun(v, 2, 2) == FirstRun(v, 2, 3) == FirstRun(v, 2, 4);
  }

  /** A new file on an empty volume, on which the link from cluster 2 to 3 cannot be written the first time.  The call
      fails with a wrong count of free clusters; trying again once the fault is gone reports success for clusters 2
      and 4. */
  lemma RetryExample(v: Vol, f: Fil, e: Entry)
    requires v == Vol([END_OF_CHAIN, END_OF_CHAIN, 0, 0, 0, 0, 0], {}, {(2, 3)}, 0, 5, 1, 100)
    requires f == Fil(0, 0, 0, 0, true, true, 0)
    ensures Counted(v) && Occupies(v, f, [])
    ensures var o := Allocate(v, f, 1000);
            o.res == 0 && o.v.Valid() && !Counted(o.v) &&
            var p := Allocate(o.v.(stuck := {}), Opened(Synced(o.f, e), true), 1000);
            p.res == 100 && p.v.link == [END_OF_CHAIN, END_OF_CHAIN, 4, END_OF_CHAIN, END_OF_CHAIN, 0, 0]
  {
    hide Allocate;
    EmptyVolume(v);
    assert Without(v, []) == v;
    AllocateResult(v, f, [], 1000);
    AllocateCounts(v, f, [], 1000);
    AllocateShape(v, f, 1000);
    var o := Allocate(v, f, 1000);
    hide FirstRun, LinkedCount, Linkable, FreeCount;
    StrandedExample(o.v.(stuck := {}), Opened(Synced(o.f, e), true));
  }

  lemma EmptyVolume(v: Vol)
    requires v.Valid() && v.link == [END_OF_CHAIN, END_OF_CHAIN, 0, 0, 0, 0, 0] && v.bad == {} && v.stuck == {(2, 3)}
    ensures FirstRun(v, 2, 2) == 2 && LinkedCount(v, 2, 2) == 1 && !Linkable(v, 2, 2) && FreeCount(v) == 5
    ensures Chained(v.link, 2, 2, 1) == [END_OF_CHAIN, END_OF_CHAIN, END_OF_CHAIN, END_OF_CHAIN, 0, 0, 0]
  {
    assert FreeRun(v, 2, 2) && Jams(v, 2);
    assert FreeFrom(v.link, 5) == 2 && FreeFrom(v.link, 3) == 4;
  }

  lemma ExampleStretch(v: Vol)
    requires v == Vol([END_OF_CHAIN, END_OF_CHAIN, END_OF_CHAIN, END_OF_CHAIN, 0, 0, 0], {}, {}, 3, v.free, 1, 100)
    ensures var (res, w, e) := Extend(v, 2, 1);
            res == FR_OK && e == [4] && w.link == [END_OF_CHAIN, END_OF_CHAIN, 4, END_OF_CHAIN, END_OF_CHAIN, 0, 0]
  {
    assert StopAt(v, 3, 7) == StopAt(v, 4, 7) == 4;
    var w := Occupy(v, 4, 2);
    assert CreateChain(v, 2) == (4, w);
    NoExtension(w, 4);
  }
}
