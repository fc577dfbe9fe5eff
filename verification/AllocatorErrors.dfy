/** What the contiguous allocator and the cluster layer do on damaged tables: entries that cannot be read, that are free
    in the middle of a chain, or that hold the reserved value 1. */
module AllocatorErrors {
  import opened FatModel
  import opened Contiguous
  import opened ContiguousProofs

  /** The entry of a cluster in the table cannot be read, or is none that a chain may hold. */
  predicate Damaged(v: Vol, c: nat) {
    2 <= c < |v.link| && (c in v.bad || v.link[c] == 0 || v.link[c] == 1)
  }

  /** The clusters `start .. start + k - 1` are readable, and each is followed by the next one. */
  predicate Consecutively(v: Vol, start: nat, k: nat) {
    2 <= start && start + k <= |v.link| &&
    forall c :: start <= c < start + k ==> c !in v.bad && v.link[c] == c + 1
  }

  // ---------------------------------------------------------------- the walk

  /** The walk comes to the first cluster that is not followed by the next one. */
  lemma {:induction false} WalkReaches(v: Vol, start: nat, t: nat, k: nat)
    requires v.Valid() && Consecutively(v, start, k) && start + k < |v.link| && (k < t || k == 0)
    ensures WalkChain(v, start, 0, t) == WalkChain(v, start + k, k, t)
    decreases k
  {
    if k != 0 {
      WalkReaches(v, start, t, k - 1);
      assert v.Get(start + k - 1) == start + k;
    }
  }

  /** Every case of the walk along a file that starts with `k` consecutive clusters, by the entry of the next one:
      damage is an error, a link elsewhere means broken, and an end is an error before the length is reached. */
  lemma WalkCases(v: Vol, start: nat, t: nat, k: nat)
    requires v.Valid() && Consecutively(v, start, k) && start + k < |v.link| && (k < t || k == 0)
    requires v.link[start + k] <= END_OF_CHAIN
    ensures var c := start + k;
            var w := WalkChain(v, start, 0, t);
            if Damaged(v, c) then w == HardError
            else if v.link[c] != c + 1 && v.link[c] < |v.link| then w == Broken
            else if k + 1 < t then v.link[c] >= |v.link| ==> w == HardError
            else w == if t == 0 then Broken else Consecutive
  {
    WalkReaches(v, start, t, k);
    assert v.link[start + k] >= |v.link| && k + 1 < t ==> WalkChain(v, v.link[start + k], k + 1, t) == HardError;
  }

  lemma WalkOutside(v: Vol, start: nat, t: nat)
    requires v.Valid() && !(2 <= start < |v.link|)
    ensures WalkChain(v, start, 0, t) == HardError
  {
  }

  /** A file whose rounded size is right and whose chain is damaged before the length is reached: the call fails at the
      walk, and nothing has changed. */
  lemma AllocateDamaged(v: Vol, f: Fil, len: nat, k: nat)
    requires v.Valid() && f.err == 0 && 0 < len <= WORD - v.Bytes()
    requires f.fsize == Clusters(len, v.Bytes()) * v.Bytes() && k < Clusters(len, v.Bytes())
    requires Consecutively(v, f.sclust, k) && Damaged(v, f.sclust + k) && v.link[f.sclust + k] <= END_OF_CHAIN
    ensures Allocate(v, f, len) == Outcome(0, v, f.(fptr := 0))
  {
    hide WalkChain, Clusters, Reallocate, Damaged, Consecutively;
    SeekToStart(v, f);
    RoundedSize(len, v.Bytes());
    DamagedInside(v, f.sclust + k);
    WalkCases(v, f.sclust, Clusters(len, v.Bytes()), k);
  }

  lemma DamagedInside(v: Vol, c: nat)
    requires Damaged(v, c)
    ensures 2 <= c < |v.link|
  {
  }

  /** The same for a file of the right size whose start cluster lies outside the table. */
  lemma AllocateOutside(v: Vol, f: Fil, len: nat)
    requires v.Valid() && f.err == 0 && 0 < len <= WORD - v.Bytes()
    requires f.fsize == Clusters(len, v.Bytes()) * v.Bytes() && !(2 <= f.sclust < |v.link|)
    ensures Allocate(v, f, len) == Outcome(0, v, f.(fptr := 0))
  {
    hide WalkChain, Clusters, Reallocate;
    SeekToStart(v, f);
    RoundedSize(len, v.Bytes());
    WalkOutside(v, f.sclust, Clusters(len, v.Bytes()));
  }

  /** What is refused before anything is looked at: a file with an error, and no length. */
  lemma AllocateRefused(v: Vol, f: Fil, len: nat)
    requires v.Valid()
    ensures f.err != 0 ==> Allocate(v, f, len) == Outcome(0, v, f)
    ensures f.err == 0 && len == 0 ==> Allocate(v, f, len) == Outcome(0, v, f.(fptr := 0))
  {
    hide WalkChain, Clusters, Reallocate;
    SeekToStart(v, f);
  }

  /** A file in clusters 2 and 3, of which the entry of cluster 3 cannot be read, is free, or is 1: not reported as
      contiguous, although the walk has come to the length. */
  lemma DamagedExample(v: Vol, f: Fil, entry: nat, bad: set<nat>)
    requires v == Vol([END_OF_CHAIN, END_OF_CHAIN, 3, entry, 0, 0, 0], bad, {}, 3, 3, 1, 100)
    requires f == Fil(2, 0, 0, 1024, true, false, 0)
    requires entry <= END_OF_CHAIN && (bad == {3} || (bad == {} && (entry == 0 || entry == 1)))
    ensures Allocate(v, f, 1000) == Outcome(0, v, f)
  {
    assert Clusters(1000, 512) == 2;
    assert Consecutively(v, 2, 1) && Damaged(v, 3);
    hide Clusters, Consecutively, Damaged;
    AllocateDamaged(v, f, 1000, 1);
  }

  // ---------------------------------------------------------------- releasing a damaged chain

  function After(cs: seq<nat>, next: nat, i: nat): nat
    requires i < |cs|
  {
    if i + 1 < |cs| then cs[i + 1] else next
  }

  /** A chain that leads on to cluster `next`. */
  predicate Leads(v: Vol, cs: seq<nat>, next: nat) {
    |cs| >= 1 && Readable(v, cs) && next !in cs &&
    (forall i :: 0 <= i < |cs| ==> 2 <= cs[i] < |v.link| && v.link[cs[i]] == After(cs, next, i)) &&
    forall i, j :: 0 <= i < j < |cs| ==> cs[i] != cs[j]
  }

  /** The answer of a release that comes to a damaged entry: a disk error, nothing wrong, or an internal error. */
  function DamageCode(v: Vol, c: nat): nat
    requires Damaged(v, c)
  {
    if c in v.bad then 1 else if v.link[c] == 0 then 0 else 2
  }

  lemma LeadsOn(v: Vol, cs: seq<nat>, next: nat)
    requires Leads(v, cs, next) && |cs| > 1
    ensures Leads(Release(v, cs[0]), cs[1..], next)
  {
    var w, rest := Release(v, cs[0]), cs[1..];
    forall i | 0 <= i < |rest| ensures 2 <= rest[i] < |w.link| && w.link[rest[i]] == After(rest, next, i) {
      assert rest[i] == cs[i + 1] && cs[0] != cs[i + 1];
      assert After(rest, next, i) == After(cs, next, i + 1);
    }
    ReadableRest(v, cs);
  }

  /** Releasing a chain that leads to a damaged entry frees the clusters before it and stops there. */
  lemma {:induction false} ReleaseStops(v: Vol, cs: seq<nat>, next: nat)
    requires v.Valid() && Leads(v, cs, next) && Damaged(v, next)
    ensures var (res, v') := RemoveFrom(v, cs[0]);
            res == DamageCode(v, next) && v'.link == Freed(v.link, cs) && v'.last == v.last
    decreases |cs|
  {
    var c, rest := cs[0], cs[1..];
    var v1 := Release(v, c);
    var nxt := if |cs| > 1 then cs[1] else next;
    assert v.Get(c) == v.link[c] == nxt >= 2;
    FreeFromUpdate(v.link, 2, c, 0);
    assert v1.link[next] == v.link[next];
    if |cs| == 1 {
      assert rest == [];
    } else {
      LeadsOn(v, cs, next);
      ReleaseStops(v1, rest, next);
    }
  }

  /** Truncating such a file at its start: the clusters before the damage are freed, the file has lost its start and
      its size, and an error of the release stays in the file object. */
  lemma TruncateDamaged(v: Vol, f: Fil, cs: seq<nat>, next: nat)
    requires v.Valid() && f.err == 0 && f.write && f.fptr == 0 && f.fsize > 0
    requires Leads(v, cs, next) && f.sclust == cs[0] && Damaged(v, next)
    ensures var o, code := Truncate(v, f), DamageCode(v, next);
            o.res == code && o.v.link == Freed(v.link, cs) && o.f == Fil(0, f.clust, 0, 0, true, true, code)
  {
    ReleaseStops(v, cs, next);
  }

  /** A file with a size and a start cluster outside the table: it loses both, and the error stays. */
  lemma TruncateOutside(v: Vol, f: Fil)
    requires v.Valid() && f.err == 0 && f.write && f.fptr == 0 && f.fsize > 0 && !(2 <= f.sclust < |v.link|)
    ensures Truncate(v, f) == Outcome(2, v, Fil(0, f.clust, 0, 0, true, true, 2))
  {
  }

  /** Cutting a file inside its data, by the entry of the current cluster: nothing happens to the table if that is
      unreadable, reserved or outside; a cluster marked free is made an end all the same, which is an error, too. */
  lemma CutDamaged(v: Vol, f: Fil)
    requires v.Valid() && f.err == 0 && f.write && 0 < f.fptr < f.fsize
    requires Damaged(v, f.clust) || !(2 <= f.clust < |v.link|)
    ensures var code := if f.clust in v.bad && 2 <= f.clust < |v.link| then 1 else 2;
            var marked := Damaged(v, f.clust) && f.clust !in v.bad && v.link[f.clust] == 0;
            Truncate(v, f) == Outcome(code, if marked then v.(link := v.link[f.clust := END_OF_CHAIN]) else v,
                                      f.(fsize := f.fptr, changed := true, err := code))
  {
  }

  lemma LeadsFrom(v: Vol, f: Fil, cs: seq<nat>, next: nat)
    requires 2 <= f.clust < |v.link| && f.clust !in v.bad && cs != [] && v.link[f.clust] == cs[0]
    requires Leads(v.(link := v.link[f.clust := END_OF_CHAIN]), cs, next)
    ensures v.Get(f.clust) == cs[0] && 2 <= cs[0] < |v.link|
  {
  }

  /** Cutting a file inside its data when the chain behind leads to damage: the clusters between are freed. */
  lemma CutLeads(v: Vol, f: Fil, cs: seq<nat>, next: nat)
    requires v.Valid() && f.err == 0 && f.write && 0 < f.fptr < f.fsize
    requires 2 <= f.clust < |v.link| && f.clust !in v.bad && cs != [] && v.link[f.clust] == cs[0]
    requires var w := v.(link := v.link[f.clust := END_OF_CHAIN]); Leads(w, cs, next) && Damaged(w, next)
    ensures var w := v.(link := v.link[f.clust := END_OF_CHAIN]);
            var o, code := Truncate(v, f), DamageCode(w, next);
            o.res == code && o.v.link == Freed(w.link, cs) && o.f == f.(fsize := f.fptr, changed := true, err := code)
  {
    LeadsFrom(v, f, cs, next);
    ReleaseStops(v.(link := v.link[f.clust := END_OF_CHAIN]), cs, next);
    hide Leads, Damaged, DamageCode, RemoveFrom, Freed;
  }

  /** The allocator on a file of another size, or a scattered one, whose chain comes to an entry that cannot be read, or
      is 1: what lies before it is lost to the file, and nothing is allocated. */
  lemma AllocateLosesFile(v: Vol, f: Fil, cs: seq<nat>, next: nat, len: nat)
    requires v.Valid() && f.err == 0 && f.write && f.fsize > 0 && 0 < len <= WORD - v.Bytes()
    requires f.fsize == Clusters(len, v.Bytes()) * v.Bytes() ==>
               WalkChain(v, f.sclust, 0, Clusters(len, v.Bytes())) == Broken
    requires Leads(v, cs, next) && f.sclust == cs[0] && Damaged(v, next) && DamageCode(v, next) != 0
    ensures var o, code := Allocate(v, f, len), DamageCode(v, next);
            o.res == 0 && o.v.link == Freed(v.link, cs) && o.f == Fil(0, f.clust, 0, 0, true, true, code)
  {
    hide WalkChain, Clusters, Truncate, Leads, Damaged, Freed, Seek, FirstRun;
    SeekToStart(v, f);
    RoundedSize(len, v.Bytes());
    TruncateDamaged(v, f.(fptr := 0), cs, next);
  }

  // ---------------------------------------------------------------- taking a cluster

  /** The search stops at the first cluster behind `scl`, going round once, that is free, damaged or unreadable. */
  lemma CandidateIsFirst(v: Vol, scl: nat)
    requires v.Valid() && 1 <= scl < |v.link| && forall d :: 0 <= d < |v.link| ==> v.link[d] <= END_OF_CHAIN
    ensures var c := Candidate(v, scl);
            (c != 0 ==> Damaged(v, c)) &&
            (forall d: nat :: Damaged(v, d) ==>
               c != 0 && (c > scl ==> d <= scl || c <= d) && (c <= scl ==> d <= scl && c <= d))
  {
    StopAtFirst(v, scl + 1, |v.link|);
    if scl >= 2 { StopAtFirst(v, 2, scl + 1); }
    forall d: nat | d < |v.link| ensures 2 <= d && Stops(v.Get(d)) <==> Damaged(v, d) {}
    hide StopAt, Stops, Damaged;
  }

  /** What stretching answers without taking a cluster, by the entry of the cluster to be stretched, and by the one
      the search comes to. */
  lemma CreateChainRefused(v: Vol, clst: nat)
    requires v.Valid() && forall c :: 0 <= c < |v.link| ==> v.link[c] <= END_OF_CHAIN
    ensures clst == 1 || clst >= |v.link| ==> CreateChain(v, clst) == (1, v)
    ensures 2 <= clst < |v.link| && clst in v.bad ==> CreateChain(v, clst) == (DISK_ERROR, v)
    ensures 2 <= clst < |v.link| && clst !in v.bad && v.link[clst] < 2 ==> CreateChain(v, clst) == (1, v)
    ensures 2 <= clst < |v.link| && clst !in v.bad && 2 <= v.link[clst] < |v.link| ==>
              CreateChain(v, clst) == (v.link[clst], v)
    ensures clst == 0 || (2 <= clst < |v.link| && clst !in v.bad && v.link[clst] >= |v.link|) ==>
              var c := Candidate(v, if clst != 0 then clst else if 1 <= v.last < |v.link| then v.last else 1);
              (c == 0 ==> CreateChain(v, clst) == (0, v)) &&
              (c != 0 && c in v.bad ==> CreateChain(v, clst) == (DISK_ERROR, v)) &&
              (c != 0 && c !in v.bad && v.link[c] == 1 ==> CreateChain(v, clst) == (1, v)) &&
              (v.Free(c) && (clst != 0 ==> (clst, c) !in v.stuck) ==> CreateChain(v, clst).0 == c)
  {
    if clst == 0 { CandidateIsFirst(v, Hint(v)); } else if clst < |v.link| { CandidateIsFirst(v, clst); }
    hide Candidate;
  }

  // ---------------------------------------------------------------- sectors

  /** The sectors of the clusters follow one another without gap, `csize` of them to a cluster, from the base on; a
      number that is no cluster has no sector. */
  lemma SectorsTile(v: Vol, c: nat)
    requires v.Valid()
    ensures ClusterSector(v, 2) == v.base % 0x1_0000_0000
    ensures 2 <= c && c + 1 < |v.link| ==>
              ClusterSector(v, c + 1) == (ClusterSector(v, c) + v.csize) % 0x1_0000_0000
    ensures c < 2 || c >= |v.link| ==> ClusterSector(v, c) == 0
  {
    if 2 <= c && c + 1 < |v.link| {
      var a, n := c - 2, v.csize;
      assert (c + 1 - 2) * n == a * n + n;
      ModAdd(a * n + v.base, n);
    }
  }

  lemma ModAdd(x: nat, n: nat)
    ensures (x % WORD + n) % WORD == (x + n) % WORD
  {
  }
}
