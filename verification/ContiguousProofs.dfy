/** What the contiguous allocator achieves: the area found is the first that fits, the file ends up
    occupying exactly that area, and no other file notices. */
module ContiguousProofs {
  import opened FatModel
  import opened Contiguous

  // ---------------------------------------------------------------- cluster chains

  /** `cs` is a complete cluster chain: in the table, linked in order, closed by an end mark. */
  predicate Chain(link: seq<nat>, cs: seq<nat>) {
    |cs| >= 1 &&
    (forall i :: 0 <= i < |cs| ==> 2 <= cs[i] < |link|) &&
    (forall i :: 0 <= i < |cs| - 1 ==> link[cs[i]] == cs[i + 1]) &&
    link[cs[|cs| - 1]] >= |link|
  }

  /** All entries of the chain can be read. */
  predicate Readable(v: Vol, cs: seq<nat>) {
    forall i :: 0 <= i < |cs| ==> cs[i] !in v.bad && cs[i] < |v.link| && v.link[cs[i]] <= END_OF_CHAIN
  }

  lemma {:induction false} ChainUnique(link: seq<nat>, a: seq<nat>, b: seq<nat>)
    requires Chain(link, a) && Chain(link, b) && a[0] == b[0]
    ensures a == b
    decreases |a|
  {
    assert |a| > 1 ==> link[a[0]] == a[0 + 1] < |link|;
    assert |b| > 1 ==> link[b[0]] == b[0 + 1] < |link|;
    if |a| > 1 && |b| > 1 {
      assert link[a[0]] == a[1] && link[b[0]] == b[1];
      ChainUnique(link, a[1..], b[1..]);
      assert a == [a[0]] + a[1..] && b == [b[0]] + b[1..];
    }
  }

  /** A chain visits no cluster twice. */
  lemma NoRepeat(link: seq<nat>, cs: seq<nat>, j: nat)
    requires Chain(link, cs) && 0 < j < |cs|
    ensures cs[j] != cs[0]
  {
    if cs[j] == cs[0] {
      assert Chain(link, cs[j..]);
      ChainUnique(link, cs, cs[j..]);
    }
  }

  /** The table with the clusters `cs` freed. */
  function Freed(link: seq<nat>, cs: seq<nat>): (r: seq<nat>)
    requires forall i :: 0 <= i < |cs| ==> cs[i] < |link|
    ensures |r| == |link|
    ensures forall c :: 0 <= c < |link| ==> r[c] == if c in cs then 0 else link[c]
    decreases |cs|
  {
    if |cs| == 0 then link else Freed(link[cs[0] := 0], cs[1..])
  }

  /** Removing a readable chain frees exactly its clusters. */
  lemma {:induction false} RemoveChainFrees(v: Vol, cs: seq<nat>)
    requires v.Valid() && Chain(v.link, cs) && Readable(v, cs)
    ensures var (res, v') := RemoveFrom(v, cs[0]);
            res == FR_OK && v'.link == Freed(v.link, cs) && v'.last == v.last
    decreases |cs|
  {
    var c, rest := cs[0], cs[1..];
    var v1 := Release(v, c);
    assert v.Get(c) == v.link[c] <= END_OF_CHAIN;
    FreeFromUpdate(v.link, 2, c, 0);
    if |cs| == 1 {
      assert rest == [];
    } else {
      assert v.link[c] == cs[1];
      RestIsChain(v.link, cs);
      ReadableRest(v, cs);
      RemoveChainFrees(v1, rest);
    }
  }

  lemma RestIsChain(link: seq<nat>, cs: seq<nat>)
    requires Chain(link, cs) && |cs| > 1
    ensures Chain(link[cs[0] := 0], cs[1..])
  {
    forall i | 0 < i < |cs| ensures cs[i] != cs[0] {
      NoRepeat(link, cs, i);
    }
  }

  lemma ReadableRest(v: Vol, cs: seq<nat>)
    requires Readable(v, cs) && |cs| >= 1 && cs[0] < |v.link|
    ensures Readable(Release(v, cs[0]), cs[1..])
  {
  }

  // ---------------------------------------------------------------- one cluster

  /** `create_chain` behind the hint or behind an end of chain: it reports a full volume exactly when no
      cluster is free and none is unreadable, it only ever takes a free cluster, and it changes nothing
      but that cluster and the link to it; an error changes nothing, except that a cluster that was marked and
      then cannot be linked stays marked. */
  lemma CreateChainSound(v: Vol, clst: nat)
    requires v.Valid() && (clst == 0 || (v.Get(clst) != DISK_ERROR && v.Get(clst) >= |v.link|))
    ensures var (c, v') := CreateChain(v, clst);
            (c == 0 <==> forall d :: 2 <= d < |v.link| ==> !Stops(v.Get(d))) &&
            (Leaks(v, clst) ==> c == DISK_ERROR && v' == Leak(v, Candidate(v, clst))) &&
            (Stops(c) && !Leaks(v, clst) ==> v' == v) &&
            (!Stops(c) ==>
               !Leaks(v, clst) && v.Free(c) && v'.link[c] == END_OF_CHAIN && v'.last == c &&
               (clst != 0 ==> v'.link[clst] == c) &&
               forall d :: 0 <= d < |v.link| && d != c && d != clst ==> v'.link[d] == v.link[d])
  {
    var scl := if clst == 0 then Hint(v) else clst;
    StopAtFirst(v, scl + 1, |v.link|);
    if scl >= 2 { StopAtFirst(v, 2, scl + 1); }
    hide StopAt, Stops;
  }

  /** Stretching a cluster that is not the last of its chain just goes on to the next. */
  lemma OwnLink(v: Vol, cs: seq<nat>, k: nat)
    requires v.Valid() && Chain(v.link, cs) && Readable(v, cs) && k + 1 < |cs|
    ensures CreateChain(v, cs[k]) == (cs[k + 1], v) && 2 <= cs[k + 1] < |v.link|
  {
    assert v.Get(cs[k]) == v.link[cs[k]] == cs[k + 1];
  }

  /** The hint makes the allocator take the very next cluster when that is free. */
  lemma TakesNext(v: Vol, scl: nat)
    requires 1 <= scl && v.Free(scl + 1)
    ensures Candidate(v, scl) == scl + 1
  {
  }

  // ---------------------------------------------------------------- stretching along a free run

  /** The table with clusters `s .. s + t - 1` chained in order. */
  function Linked(link: seq<nat>, s: nat, t: nat): (r: seq<nat>)
    requires t >= 1 && s + t <= |link|
    ensures |r| == |link|
  {
    seq(|link|, c requires 0 <= c < |link| =>
      if s <= c < s + t - 1 then c + 1 else if c == s + t - 1 then END_OF_CHAIN else link[c])
  }

  lemma LinkedIsChain(link: seq<nat>, s: nat, t: nat)
    requires t >= 1 && 2 <= s && s + t <= |link| <= END_OF_CHAIN
    ensures Chain(Linked(link, s, t), seq(t, i requires 0 <= i => s + i))
  {
  }

  /** `m` clusters of `bcs` bytes. */
  function Total(bcs: nat, m: nat): nat
    decreases m
  {
    if m == 0 then 0 else bcs + Total(bcs, m - 1)
  }

  lemma TotalStep(bcs: nat, m: nat)
    ensures Total(bcs, m + 1) == bcs + Total(bcs, m)
    ensures m == 0 ==> Total(bcs, m) == 0
  {
  }

  lemma {:induction false} TotalIsProduct(bcs: nat, m: nat)
    ensures Total(bcs, m) == m * bcs
    decreases m
  {
    if m != 0 {
      TotalIsProduct(bcs, m - 1);
      assert m * bcs == (m - 1) * bcs + bcs;
    }
  }

  /** A seek that advanced `bytes` and left the table `link` and the hint `last`. */
  predicate Reached(o: Outcome, f: Fil, link: seq<nat>, last: nat, bytes: nat) {
    o.res == FR_OK && o.v.link == link && o.v.last == last && (o.f.changed <==> f.changed || o.f.fptr > f.fsize) &&
    o.f.sclust == f.sclust && o.f.fptr == f.fptr + bytes &&
    o.f.fsize == (if o.f.fptr > f.fsize then o.f.fptr else f.fsize)
  }

  lemma ReachedFrom(o: Outcome, f: Fil, f1: Fil, link: seq<nat>, last: nat, a: nat, b: nat)
    requires Reached(o, f1, link, last, b)
    requires f1.sclust == f.sclust && f1.fptr == f.fptr + a && f1.fsize == f.fsize && f1.changed == f.changed
    ensures Reached(o, f, link, last, a + b)
  {
  }

  lemma ReachedEnd(v: Vol, f: Fil)
    ensures Reached(Outcome(FR_OK, v, Grown(f.(fptr := f.fptr + v.Bytes()))), f, v.link, v.last, v.Bytes())
  {
  }

  /** The link from `c` to the cluster behind it cannot be written. */
  predicate Jams(v: Vol, c: nat) {
    (c, c + 1) in v.stuck
  }

  /** Every link along `t` clusters from `s` on can be written. */
  predicate Linkable(v: Vol, s: nat, t: nat) {
    forall c :: s <= c < s + t - 1 ==> !Jams(v, c)
  }

  lemma LinkableStep(v: Vol, v': Vol, s: nat, t: nat)
    requires t >= 2 && Linkable(v, s, t) && v'.stuck == v.stuck
    ensures !Jams(v, s) && Linkable(v', s + 1, t - 1)
  {
    assert forall c: nat :: Jams(v, c) == Jams(v', c);
  }

  /** Following from the end of a chain of `t` clusters through `m` more free ones. */
  lemma {:induction false} FollowRun(v: Vol, f: Fil, link0: seq<nat>, s: nat, t: nat, m: nat)
    requires v.Valid() && f.write && |link0| == |v.link| && s >= 2 && t >= 1
    requires s + t + m <= |v.link| && v.link == Linked(link0, s, t)
    requires forall c :: s <= c < s + t + m ==> c !in v.bad
    requires forall c :: s <= c < s + t + m ==> link0[c] == 0
    requires v.last == s + t - 1 && Linkable(v, s + t - 1, m + 1)
    ensures Reached(Follow(v, f, s + t - 1, Total(v.Bytes(), m + 1)), f,
                    Linked(link0, s, t + m), s + t + m - 1, Total(v.Bytes(), m + 1))
    decreases m
  {
    hide CreateChain, Linked, Arrive, Occupy, Follow, Reached, Total, Jams, Linkable;
    TotalStep(v.Bytes(), m);
    if m == 0 {
      FollowEnd(v, f, s + t - 1);
      ReachedEnd(v, f);
    } else {
      var v1 := Occupy(v, s + t, s + t - 1);
      OccupyShape(v, s + t, s + t - 1);
      LinkableStep(v, v1, s + t - 1, m + 1);
      StretchOne(v, link0, s, t);
      FollowRun(v1, f.(clust := s + t, fptr := f.fptr + v.Bytes()), link0, s, t + 1, m - 1);
      FollowRunStep(v, v1, f, s + t, m, Linked(link0, s, t + m), s + t + m - 1);
    }
  }

  /** Following through more free clusters until one cannot be linked, which then stays marked. */
  lemma {:induction false} FollowJam(v: Vol, f: Fil, link0: seq<nat>, s: nat, t: nat, m: nat, ofs: nat)
    requires v.Valid() && f.write && |link0| == |v.link| && s >= 2 && t >= 1
    requires s + t + m < |v.link| && v.link == Linked(link0, s, t)
    requires forall c :: s <= c <= s + t + m ==> c !in v.bad
    requires forall c :: s <= c <= s + t + m ==> link0[c] == 0
    requires v.last == s + t - 1 && Linkable(v, s + t - 1, m + 1) && Jams(v, s + t + m - 1)
    requires ofs >= Total(v.Bytes(), m + 2)
    ensures Jammed(Follow(v, f, s + t - 1, ofs), f, Linked(link0, s, t + m)[s + t + m := END_OF_CHAIN], s + t + m - 1)
    decreases m
  {
    hide CreateChain, Linked, Occupy, Follow, Jammed, Total, Jams, Linkable;
    TotalStep(v.Bytes(), m + 1);
    TotalStep(v.Bytes(), m);
    if m == 0 {
      StretchJam(v, link0, s, t);
      FollowError(v, f, s + t - 1, ofs);
      JammedHere(v, f, Leak(v, s + t));
    } else {
      var v1 := Occupy(v, s + t, s + t - 1);
      var f1 := f.(clust := s + t, fptr := f.fptr + v.Bytes());
      OccupyShape(v, s + t, s + t - 1);
      LinkableStep(v, v1, s + t - 1, m + 1);
      SameLinks(v, v1, s + t + m - 1, 1);
      StretchOne(v, link0, s, t);
      FollowJam(v1, f1, link0, s, t + 1, m - 1, ofs - v.Bytes());
      FollowStep(v, f, s + t - 1, ofs, s + t, v1);
      JammedFrom(Follow(v1, f1, s + t, ofs - v.Bytes()), f, f1,
                 Linked(link0, s, t + m)[s + t + m := END_OF_CHAIN], s + t + m - 1);
    }
  }

  lemma SameLinks(v: Vol, v': Vol, s: nat, t: nat)
    requires v'.stuck == v.stuck
    ensures Jams(v', s) == Jams(v, s) && Linkable(v', s, t) == Linkable(v, s, t)
  {
    assert forall c: nat :: Jams(v, c) == Jams(v', c);
  }

  /** A seek that failed with a disk error before it touched the size, and left the table `link` and the hint `last`. */
  predicate Jammed(o: Outcome, f: Fil, link: seq<nat>, last: nat) {
    o.res == FR_DISK_ERR && o.v.link == link && o.v.last == last && o.f.sclust == f.sclust && o.f.fsize == f.fsize &&
    o.f.write == f.write && o.f.changed == f.changed && o.f.err == FR_DISK_ERR
  }

  lemma JammedFrom(o: Outcome, f: Fil, f1: Fil, link: seq<nat>, last: nat)
    requires Jammed(o, f1, link, last) && f1.sclust == f.sclust && f1.fsize == f.fsize && f1.write == f.write
    requires f1.changed == f.changed
    ensures Jammed(o, f, link, last)
  {
  }

  lemma JammedHere(v: Vol, f: Fil, v': Vol)
    ensures Jammed(Abort(v', f, FR_DISK_ERR), f, v'.link, v'.last)
  {
  }

  lemma FollowError(v: Vol, f: Fil, clst: nat, ofs: nat)
    requires v.Valid() && f.write && ofs > v.Bytes() && CreateChain(v, clst).0 == DISK_ERROR
    ensures Follow(v, f, clst, ofs) == Abort(CreateChain(v, clst).1, f, FR_DISK_ERR)
  {
    hide CreateChain;
  }

  lemma StretchJam(v: Vol, link0: seq<nat>, s: nat, t: nat)
    requires v.Valid() && |link0| == |v.link| && s >= 2 && t >= 1
    requires s + t < |v.link| && v.link == Linked(link0, s, t)
    requires s + t - 1 !in v.bad && s + t !in v.bad && link0[s + t] == 0 && Jams(v, s + t - 1)
    ensures CreateChain(v, s + t - 1) == (DISK_ERROR, Leak(v, s + t))
    ensures Leak(v, s + t).link == Linked(link0, s, t)[s + t := END_OF_CHAIN]
  {
    TakesNext(v, s + t - 1);
    hide Candidate;
    assert v.link[s + t - 1] == END_OF_CHAIN && v.link[s + t] == 0;
  }

  lemma FollowRunStep(v: Vol, v1: Vol, f: Fil, c: nat, m: nat, link: seq<nat>, last: nat)
    requires v.Valid() && v1.Valid() && v1.Bytes() == v.Bytes() && f.write && m >= 1 && c >= 3
    requires CreateChain(v, c - 1) == (c, v1) && c < |v1.link|
    requires var f1 := f.(clust := c, fptr := f.fptr + v.Bytes());
             Reached(Follow(v1, f1, c, Total(v.Bytes(), m)), f1, link, last, Total(v.Bytes(), m))
    ensures Reached(Follow(v, f, c - 1, Total(v.Bytes(), m + 1)), f, link, last, Total(v.Bytes(), m + 1))
  {
    hide CreateChain, Follow, Reached;
    var bcs := v.Bytes();
    var f1 := f.(clust := c, fptr := f.fptr + bcs);
    FollowStep(v, f, c - 1, Total(bcs, m + 1), c, v1);
    ReachedFrom(Follow(v1, f1, c, Total(bcs, m)), f, f1, link, last, bcs, Total(bcs, m));
  }

  lemma FollowEnd(v: Vol, f: Fil, clst: nat)
    requires v.Valid()
    ensures Follow(v, f, clst, v.Bytes()) == Outcome(FR_OK, v, Grown(f.(fptr := f.fptr + v.Bytes())))
  {
    WholeSectors(v.csize);
    hide ClusterSector;
  }

  lemma OccupyShape(v: Vol, c: nat, clst: nat)
    requires c < |v.link| && clst < |v.link|
    ensures var v' := Occupy(v, c, clst); SameShape(v, v') && v'.last == c
  {
  }

  lemma FollowStep(v: Vol, f: Fil, clst: nat, ofs: nat, c: nat, v': Vol)
    requires v.Valid() && v'.Valid() && f.write && ofs > v.Bytes()
    requires CreateChain(v, clst) == (c, v') && 1 < c < |v'.link|
    ensures Follow(v, f, clst, ofs) ==
            Follow(v', f.(clust := c, fptr := f.fptr + v.Bytes()), c, ofs - v.Bytes())
  {
    hide CreateChain;
  }

  lemma StretchOne(v: Vol, link0: seq<nat>, s: nat, t: nat)
    requires v.Valid() && |link0| == |v.link| && s >= 2 && t >= 1
    requires s + t < |v.link| && v.link == Linked(link0, s, t)
    requires s + t - 1 !in v.bad && s + t !in v.bad && link0[s + t] == 0 && !Jams(v, s + t - 1)
    ensures CreateChain(v, s + t - 1) == (s + t, Occupy(v, s + t, s + t - 1))
    ensures Occupy(v, s + t, s + t - 1).link == Linked(link0, s, t + 1)
  {
    TakesNext(v, s + t - 1);
    hide Candidate;
    assert v.link[s + t - 1] == END_OF_CHAIN && v.link[s + t] == 0;
    var l := v.link[s + t := END_OF_CHAIN][s + t - 1 := s + t];
    assert forall c :: 0 <= c < |l| ==> l[c] == Linked(link0, s, t + 1)[c];
    assert l == Linked(link0, s, t + 1);
  }

  lemma WholeSectors(csize: nat)
    ensures csize * SECTOR % SECTOR == 0
  {
  }

  /** Seeking to the end of a free run right behind the hint gives the empty file exactly that run. */
  lemma SeekAlongRun(v: Vol, f: Fil, s: nat, t: nat)
    requires v.Valid() && FreeRun(v, s, t) && t >= 1 && v.last == s - 1 && Linkable(v, s, t)
    requires f.err == 0 && f.write && f.sclust == 0 && f.fptr == 0
    ensures var o := Seek(v, f, Total(v.Bytes(), t));
            o.res == FR_OK && o.v.link == Linked(v.link, s, t) && o.v.last == s + t - 1 &&
            o.f.sclust == s && o.f.fptr == Total(v.Bytes(), t) && (o.f.changed <==> f.changed || o.f.fptr > f.fsize) &&
            o.f.fsize == (if o.f.fptr > f.fsize then o.f.fptr else f.fsize)
  {
    hide CreateChain, Follow, Linked, Ahead, Skipped, Occupy, Linkable, Jams;
    var bcs, v1 := v.Bytes(), Occupy(v, s, 0);
    FirstOfRun(v, s, t);
    SameLinks(v, v1, s, t);
    RunIsFree(v, s, t);
    var f1 := f.(sclust := s, clust := s);
    FollowRun(v1, f1, v.link, s, 1, t - 1);
    assert 1 + (t - 1) == t && s + 1 - 1 == s && t - 1 + 1 == t && v1.Bytes() == bcs;
    assert Seek(v, f, Total(bcs, t)) == Follow(v1, f1, s, Total(bcs, t));
  }

  /** If the link behind the first `j` clusters cannot be written, the seek fails and leaves the file with those. */
  lemma SeekJams(v: Vol, f: Fil, s: nat, t: nat, j: nat)
    requires v.Valid() && FreeRun(v, s, t) && 1 <= j < t && v.last == s - 1
    requires Linkable(v, s, j) && Jams(v, s + j - 1)
    requires f.err == 0 && f.write && f.sclust == 0 && f.fptr == 0
    ensures Jammed(Seek(v, f, Total(v.Bytes(), t)), f.(sclust := s), Linked(v.link, s, j)[s + j := END_OF_CHAIN],
                   s + j - 1)
  {
    hide CreateChain, Follow, Linked, Ahead, Skipped, Occupy, Jammed, Total, Linkable, Jams;
    var bcs, v1 := v.Bytes(), Occupy(v, s, 0);
    FirstOfRun(v, s, t);
    SameLinks(v, v1, s, j);
    SameLinks(v, v1, s + j - 1, j);
    RunIsFree(v, s, t);
    TotalGrows(bcs, j + 1, t);
    TotalPositive(bcs, t);
    var f1 := f.(sclust := s, clust := s);
    FollowJam(v1, f1, v.link, s, 1, j - 1, Total(bcs, t));
    assert 1 + (j - 1) == j && s + 1 - 1 == s && j - 1 + 2 == j + 1 && v1.Bytes() == bcs;
    assert Seek(v, f, Total(bcs, t)) == Follow(v1, f1, s, Total(bcs, t));
    JammedFrom(Follow(v1, f1, s, Total(bcs, t)), f.(sclust := s), f1,
               Linked(v.link, s, j)[s + j := END_OF_CHAIN], s + j - 1);
  }

  lemma {:induction false} TotalGrows(bcs: nat, m: nat, n: nat)
    requires m <= n
    ensures Total(bcs, m) <= Total(bcs, n)
    decreases n
  {
    if m < n { TotalGrows(bcs, m, n - 1); }
  }

  lemma TotalPositive(bcs: nat, m: nat)
    requires m >= 1 && bcs >= 1
    ensures Total(bcs, m) >= bcs
  {
  }

  /** The first cluster of the run is taken, as a chain of its own. */
  lemma FirstOfRun(v: Vol, s: nat, t: nat)
    requires v.Valid() && FreeRun(v, s, t) && t >= 1 && v.last == s - 1
    ensures CreateChain(v, 0) == (s, Occupy(v, s, 0)) && Occupy(v, s, 0).link == Linked(v.link, s, 1)
    ensures SameShape(v, Occupy(v, s, 0)) && Occupy(v, s, 0).last == s
  {
    assert v.Get(s) == 0;
    TakesNext(v, s - 1);
    hide Candidate;
  }

  lemma RunIsFree(v: Vol, s: nat, t: nat)
    requires FreeRun(v, s, t)
    ensures forall c :: s <= c < s + t ==> c !in v.bad && v.link[c] == 0
  {
    forall c | s <= c < s + t ensures c !in v.bad && v.link[c] == 0 {
      assert v.Get(c) == 0;
    }
  }

  // ---------------------------------------------------------------- cluster arithmetic

  /** The cluster count is the ceiling of `len / csz` exactly when the rounding does not overflow. */
  lemma ClustersCeiling(len: nat, csz: nat)
    requires 0 < len < WORD && 0 < csz < WORD
    ensures var t := Clusters(len, csz);
            (len <= WORD - csz <==> t >= 1 && (t - 1) * csz < len <= t * csz)
    ensures len <= WORD - csz ==> Clusters(len, csz) * csz < WORD + 1
  {
    var x := len + csz - 1;
    if len <= WORD - csz {
      Division(x, csz);
    } else {
      assert x % WORD == x - WORD;
      assert (x - WORD) / csz == 0;
    }
  }

  lemma Division(x: nat, d: nat)
    requires d > 0
    ensures x / d * d <= x < x / d * d + d
    ensures (x / d - 1) * d == x / d * d - d
  {
  }

  // ---------------------------------------------------------------- the contiguity check

  /** The clusters `start, start + 1, ...`, `t` of them. */
  function Consec(start: nat, t: nat): (r: seq<nat>)
    ensures |r| == t
  {
    seq(t, i requires 0 <= i => start + i)
  }

  /** The first `t` clusters are consecutive, and the chain goes on in the same way if it goes on at all. */
  predicate InPlace(cs: seq<nat>, t: nat) {
    1 <= t <= |cs| && cs[..t] == Consec(cs[0], t) && (t < |cs| ==> cs[t] == cs[0] + t)
  }

  /** What the walk makes of a chain, long enough or not: one that ends too early, in order up to its end, is
      reported as an error, and so is a file without clusters. */
  function WalkOf(cs: seq<nat>, t: nat): Walk {
    if cs == [] then HardError
    else if InPlace(cs, t) then Consecutive
    else if t > |cs| && cs == Consec(cs[0], |cs|) then HardError
    else Broken
  }

  lemma WalkDecides(v: Vol, cs: seq<nat>, t: nat)
    requires v.Valid() && Chain(v.link, cs) && Readable(v, cs)
    ensures WalkChain(v, cs[0], 0, t) == WalkOf(cs, t)
  {
    WalkFrom(v, cs, t, 0);
  }

  lemma {:induction false} WalkFrom(v: Vol, cs: seq<nat>, t: nat, k: nat)
    requires v.Valid() && Chain(v.link, cs) && Readable(v, cs) && k < |cs| && (t == 0 || k < t)
    requires (t == 0 ==> k == 0) && forall i :: 0 <= i <= k ==> cs[i] == cs[0] + i
    ensures WalkChain(v, cs[k], k, t) == WalkOf(cs, t)
    decreases |cs| - k
  {
    hide Chain, InPlace;
    WalkLink(v, cs, k);
    if k + 1 < |cs| && cs[k + 1] == cs[k] + 1 {
      if k + 1 < t { WalkFrom(v, cs, t, k + 1); } else { WalkDone(cs, t, k); }
    } else if k + 1 < |cs| {
      WalkBreaks(cs, t, k);
    } else {
      WalkEnds(v, cs, t);
    }
  }

  lemma WalkLink(v: Vol, cs: seq<nat>, k: nat)
    requires v.Valid() && Chain(v.link, cs) && Readable(v, cs) && k < |cs|
    ensures var cl := v.Get(cs[k]);
            if k + 1 < |cs| then cl == cs[k + 1] && 2 <= cl < |v.link| else |v.link| <= cl <= END_OF_CHAIN
  {
  }

  lemma WalkDone(cs: seq<nat>, t: nat, k: nat)
    requires k + 1 < |cs| && t <= k + 1 && (t == 0 || k < t)
    requires forall i :: 0 <= i <= k + 1 ==> cs[i] == cs[0] + i
    ensures t >= 1 ==> InPlace(cs, t)
    ensures t == 0 ==> !InPlace(cs, t)
  {
  }

  lemma WalkBreaks(cs: seq<nat>, t: nat, k: nat)
    requires k + 1 < |cs| && (t == 0 || k < t) && cs[k] == cs[0] + k && cs[k + 1] != cs[k] + 1
    ensures !InPlace(cs, t) && cs != Consec(cs[0], |cs|)
  {
    assert Consec(cs[0], |cs|)[k + 1] == cs[0] + k + 1;
    if t > k + 1 { assert Consec(cs[0], t)[k + 1] == cs[0] + k + 1; }
  }

  lemma WalkEnds(v: Vol, cs: seq<nat>, t: nat)
    requires v.Valid() && Chain(v.link, cs) && Readable(v, cs) && (t == 0 || |cs| <= t) && (t == 0 ==> |cs| == 1)
    requires forall i :: 0 <= i < |cs| ==> cs[i] == cs[0] + i
    ensures WalkChain(v, cs[|cs| - 1], |cs| - 1, t) == WalkOf(cs, t)
  {
    assert cs == Consec(cs[0], |cs|) && cs[..|cs|] == cs;
    WalkLink(v, cs, |cs| - 1);
    hide Chain, Readable;
    var end := v.Get(cs[|cs| - 1]);
    assert t > |cs| ==> WalkChain(v, end, |cs|, t) == HardError;
  }

  // ---------------------------------------------------------------- end to end

  /** An open, writable, error-free file that owns the chain `cs`, or nothing when `cs` is empty.  The chain may
      be longer or shorter than the size asks for. */
  predicate Occupies(v: Vol, f: Fil, cs: seq<nat>) {
    f.err == 0 && f.write &&
    (if cs == [] then f.sclust == 0 && f.fsize == 0
     else Chain(v.link, cs) && Readable(v, cs) && f.sclust == cs[0])
  }

  /** A file of size zero that owns clusters all the same. */
  predicate Stranded(f: Fil) {
    f.fsize == 0 && f.sclust != 0
  }

  /** The volume with the file's old chain released. */
  function Without(v: Vol, cs: seq<nat>): Vol
    requires forall i :: 0 <= i < |cs| ==> cs[i] < |v.link|
  {
    v.(link := Freed(v.link, cs))
  }

  /** Truncating at the start releases the chain, unless the size is zero already: then nothing happens. */
  lemma TruncateFrees(v: Vol, f: Fil, cs: seq<nat>)
    requires v.Valid() && Occupies(v, f, cs) && f.fptr == 0
    ensures var o := Truncate(v, f);
            if Stranded(f) then o == Outcome(FR_OK, v, f)
            else o.res == FR_OK && o.v.link == Freed(v.link, cs) &&
                 o.f == Fil(0, f.clust, 0, 0, true, f.changed || f.fsize > 0, 0)
  {
    if cs != [] {
      RemoveChainFrees(v, cs);
    }
  }

  lemma FirstRunSame(v: Vol, v': Vol, t: nat, from: nat)
    requires v.link == v'.link && v.bad == v'.bad && from >= 2 && t >= 1
    ensures FirstRun(v, t, from) == FirstRun(v', t, from)
    decreases |v.link| - from
  {
    assert forall c :: v.Get(c) == v'.Get(c);
    if from < |v.link| { FirstRunSame(v, v', t, from + 1); }
  }

  /** How many clusters of a run are chained before a link cannot be written; all of them when every link can. */
  function LinkedCount(v: Vol, s: nat, t: nat): (j: nat)
    requires t >= 1
    ensures 1 <= j <= t && Linkable(v, s, j) && (j < t ==> Jams(v, s + j - 1))
    ensures j == t <==> Linkable(v, s, t)
    decreases t
  {
    if t == 1 then 1 else
    var j := LinkedCount(v, s, t - 1);
    if j < t - 1 || Jams(v, s + t - 2) then j else t
  }

  /** The run chained in order, or its first `j` clusters with the next one marked and left alone. */
  function Chained(link: seq<nat>, s: nat, t: nat, j: nat): (r: seq<nat>)
    requires 1 <= j <= t && s + t <= |link|
    ensures |r| == |link| && forall c :: 0 <= c < |link| && !(s <= c < s + t) ==> r[c] == link[c]
  {
    if j == t then Linked(link, s, t) else Linked(link, s, j)[s + j := END_OF_CHAIN]
  }

  /** The old clusters are released, and then: without a free run of the required length the call fails and the file
      is left empty; otherwise the file gets exactly the first such run, chained in order and closed, everything
      outside the old chain and the new run is untouched, and the sector of the first cluster is returned.  If some
      link along the run cannot be written the call fails, and the file is left with the clusters before it but still
      with size zero. */
  predicate Moved(v: Vol, f: Fil, cs: seq<nat>, tcl: nat, o: Outcome)
    requires v.Valid() && (forall i :: 0 <= i < |cs| ==> cs[i] < |v.link|) && tcl >= 1
  {
    var w := Without(v, cs);
    var s := FirstRun(w, tcl, 2);
    var changed := f.changed || f.fsize > 0;
    if s == 0 then o.res == 0 && o.v.link == w.link && o.f == Fil(0, f.clust, 0, 0, true, changed, 0)
    else
      var j := LinkedCount(v, s, tcl);
      o.v.link == Chained(w.link, s, tcl, j) && o.v.last == s + j - 1 && o.f.sclust == s &&
      if j == tcl then o.res == ClusterSector(v, s) && o.f.fsize == tcl * v.Bytes() == o.f.fptr && o.f.changed
      else o.res == 0 && o.f == Fil(s, o.f.clust, o.f.fptr, 0, true, changed, FR_DISK_ERR)
  }

  lemma ReallocateResult(v: Vol, f: Fil, cs: seq<nat>, tcl: nat)
    requires v.Valid() && Occupies(v, f, cs) && !Stranded(f) && f.fptr == 0 && tcl >= 1
    ensures Moved(v, f, cs, tcl, Reallocate(v, f, tcl, tcl * v.Bytes()))
  {
    hide Truncate, FirstRun, Seek, FreeRun, ClusterSector, Chained, Freed, Linkable, Jams, LinkedCount, Total;
    var t := Truncate(v, f);
    var w := Without(v, cs);
    var size := tcl * v.Bytes();
    TotalIsProduct(v.Bytes(), tcl);
    TruncateFrees(v, f, cs);
    TruncateKeepsShape(v, f);
    FirstRunSame(t.v, w, tcl, 2);
    var s := FirstRun(t.v, tcl, 2);
    if s != 0 {
      var v2 := t.v.(last := s - 1);
      RunAnywhere(t.v, v2, s, tcl);
      SeekKeepsShape(v2, t.f, size);
      SectorAnywhere(v, Seek(v2, t.f, size).v, s);
      SeekRun(v, v2, t.f, s, tcl);
    }
  }

  /** The seek behind the hint, however far it comes. */
  lemma SeekRun(v: Vol, v2: Vol, f: Fil, s: nat, t: nat)
    requires v.Valid() && v2.Valid() && FreeRun(v2, s, t) && t >= 1 && v2.last == s - 1 && SameShape(v, v2)
    requires f.err == 0 && f.write && f.sclust == 0 && f.fptr == 0 && f.fsize == 0
    ensures var o, j := Seek(v2, f, Total(v2.Bytes(), t)), LinkedCount(v, s, t);
            o.v.link == Chained(v2.link, s, t, j) && o.v.last == s + j - 1 && o.f.sclust == s &&
            if j == t then o.res == FR_OK && o.f.fsize == Total(v2.Bytes(), t) == o.f.fptr && o.f.changed
            else o.res == FR_DISK_ERR && o.f == Fil(s, o.f.clust, o.f.fptr, 0, true, f.changed, FR_DISK_ERR)
  {
    hide Seek, FreeRun, Linked, Linkable, Jams, Total;
    var j := LinkedCount(v, s, t);
    SameLinks(v, v2, s, t);
    TotalPositive(v2.Bytes(), t);
    if j == t {
      SeekAlongRun(v2, f, s, t);
    } else {
      SameLinks(v, v2, s, j);
      SameLinks(v, v2, s + j - 1, j);
      SeekJams(v2, f, s, t, j);
    }
  }

  lemma RunAnywhere(v: Vol, v': Vol, s: nat, t: nat)
    requires v.link == v'.link && v.bad == v'.bad && FreeRun(v, s, t)
    ensures FreeRun(v', s, t)
  {
    forall c | s <= c < s + t ensures v'.Get(c) == 0 {
      assert v.Get(c) == 0;
    }
  }

  lemma SectorAnywhere(v: Vol, v': Vol, c: nat)
    requires v.Valid() && v'.Valid() && SameShape(v, v')
    ensures ClusterSector(v, c) == ClusterSector(v', c)
  {
  }

  /** The end-to-end statement for every file that owns clusters only if it has a size, and every length that
      rounds without overflow. */
  lemma AllocateResult(v: Vol, f: Fil, cs: seq<nat>, len: nat)
    requires v.Valid() && Occupies(v, f, cs) && !Stranded(f) && 0 < len <= WORD - v.Bytes()
    ensures var o, tcl := Allocate(v, f, len), Clusters(len, v.Bytes());
            var walk := if tcl * v.Bytes() == f.fsize then WalkOf(cs, tcl) else Broken;
            var f0 := f.(fptr := 0);
            if walk == HardError then o == Outcome(0, v, f0)
            else if walk == Consecutive then o == Outcome(ClusterSector(v, f.sclust), v, f0)
            else tcl >= 1 && Moved(v, f0, cs, tcl, o)
  {
    hide WalkChain, WalkOf, ClusterSector, Reallocate, Seek, Clusters, Chain, Readable, Moved;
    RoundedSize(len, v.Bytes());
    AllocateSteps(v, f, cs, len);
    ReallocateResult(v, f.(fptr := 0), cs, Clusters(len, v.Bytes()));
  }

  /** The same for the count of free clusters: a right count stays right exactly unless the run found holds a link
      that cannot be written. */
  lemma AllocateCounts(v: Vol, f: Fil, cs: seq<nat>, len: nat)
    requires v.Valid() && Occupies(v, f, cs) && !Stranded(f) && 0 < len <= WORD - v.Bytes()
    ensures var tcl := Clusters(len, v.Bytes());
            var walk := if tcl * v.Bytes() == f.fsize then WalkOf(cs, tcl) else Broken;
            var s := FirstRun(Without(v, cs), tcl, 2);
            Kept(v, Allocate(v, f, len).v, walk == Broken && s != 0 && !Linkable(v, s, tcl))
  {
    hide FirstRun, WalkChain, WalkOf, ReallocateLeaks, Freed, Clusters, Chain, Readable, Linkable, Allocate, Kept;
    var f0, tcl := f.(fptr := 0), Clusters(len, v.Bytes());
    RoundedSize(len, v.Bytes());
    TotalIsProduct(v.Bytes(), tcl);
    AllocateKeeps(v, f, len);
    if cs == [] { WalkFromZero(v, tcl); } else { WalkDecides(v, cs, tcl); }
    ReallocationLeaks(v, f0, cs, tcl);
  }

  lemma ReallocationLeaks(v: Vol, f: Fil, cs: seq<nat>, tcl: nat)
    requires v.Valid() && Occupies(v, f, cs) && !Stranded(f) && f.fptr == 0 && tcl >= 1
    ensures var s := FirstRun(Without(v, cs), tcl, 2);
            ReallocateLeaks(v, f, tcl, Total(v.Bytes(), tcl)) <==> s != 0 && !Linkable(v, s, tcl)
  {
    hide Truncate, FirstRun, SeekLeaks, FreeRun, Freed, Linkable, Total;
    var t := Truncate(v, f);
    TruncateFrees(v, f, cs);
    TruncateKeepsShape(v, f);
    FirstRunSame(t.v, Without(v, cs), tcl, 2);
    var s := FirstRun(t.v, tcl, 2);
    if s != 0 {
      var v2 := t.v.(last := s - 1);
      RunAnywhere(t.v, v2, s, tcl);
      SameLinks(v, v2, s, tcl);
      SeekRunLeaks(v2, t.f, s, tcl);
    }
  }

  lemma SeekRunLeaks(v: Vol, f: Fil, s: nat, t: nat)
    requires v.Valid() && FreeRun(v, s, t) && t >= 1 && v.last == s - 1
    requires f.err == 0 && f.write && f.sclust == 0 && f.fptr == 0
    ensures SeekLeaks(v, f, Total(v.Bytes(), t)) <==> !Linkable(v, s, t)
  {
    hide CreateChain, FollowLeaks, Linked, Ahead, Skipped, Occupy, Linkable, Total;
    var v1 := Occupy(v, s, 0);
    FirstOfRun(v, s, t);
    RunIsFree(v, s, t);
    SameLinks(v, v1, s, t);
    TotalPositive(v.Bytes(), t);
    RunLeaks(v1, v.link, s, 1, t - 1);
    assert s + 1 - 1 == s && t - 1 + 1 == t && v1.Bytes() == v.Bytes();
  }

  /** The first half of the call: the walk along the old chain, when the rounded size is that of the file. */
  lemma AllocateSteps(v: Vol, f: Fil, cs: seq<nat>, len: nat)
    requires v.Valid() && 0 < len <= WORD - v.Bytes() && f.err == 0
    requires if cs == [] then f.sclust == 0 else Chain(v.link, cs) && Readable(v, cs) && f.sclust == cs[0]
    ensures var tcl, f0 := Clusters(len, v.Bytes()), f.(fptr := 0);
            var walk := if tcl * v.Bytes() == f.fsize then WalkOf(cs, tcl) else Broken;
            Allocate(v, f, len) ==
            if walk == HardError then Outcome(0, v, f0)
            else if walk == Consecutive then Outcome(ClusterSector(v, f.sclust), v, f0)
            else Reallocate(v, f0, tcl, tcl * v.Bytes())
  {
    hide WalkChain, WalkOf, ClusterSector, Reallocate, Seek, Clusters, Chain, Readable;
    SeekToStart(v, f);
    RoundedSize(len, v.Bytes());
    var tcl := Clusters(len, v.Bytes());
    if cs == [] { WalkFromZero(v, tcl); } else { WalkDecides(v, cs, tcl); }
  }

  /** Following along a free run leaks a cluster exactly if some link along it cannot be written. */
  lemma {:induction false} RunLeaks(v: Vol, link0: seq<nat>, s: nat, t: nat, m: nat)
    requires v.Valid() && |link0| == |v.link| && s >= 2 && t >= 1
    requires s + t + m <= |v.link| && v.link == Linked(link0, s, t)
    requires forall c :: s <= c < s + t + m ==> c !in v.bad
    requires forall c :: s <= c < s + t + m ==> link0[c] == 0
    requires v.last == s + t - 1
    ensures FollowLeaks(v, s + t - 1, Total(v.Bytes(), m + 1)) <==> !Linkable(v, s + t - 1, m + 1)
    decreases m
  {
    hide CreateChain, Leaks, Linked, Occupy, Total, Jams;
    TotalStep(v.Bytes(), m);
    TotalPositive(v.Bytes(), m + 1);
    if m == 0 {
      TotalStep(v.Bytes(), 0);
    } else {
      TotalPositive(v.Bytes(), m);
      LeaksHere(v, link0, s, t);
      if Jams(v, s + t - 1) {
        hide FollowLeaks;
      } else {
        var v1 := Occupy(v, s + t, s + t - 1);
        StretchOne(v, link0, s, t);
        OccupyShape(v, s + t, s + t - 1);
        RunLeaks(v1, link0, s, t + 1, m - 1);
        SameLinks(v, v1, s + t, m);
        SplitLinkable(v, s + t - 1, m + 1);
        hide Linkable;
      }
    }
  }

  lemma SplitLinkable(v: Vol, s: nat, t: nat)
    requires t >= 2
    ensures Linkable(v, s, t) <==> !Jams(v, s) && Linkable(v, s + 1, t - 1)
  {
    hide Jams;
  }

  lemma LeaksHere(v: Vol, link0: seq<nat>, s: nat, t: nat)
    requires v.Valid() && |link0| == |v.link| && s >= 2 && t >= 1
    requires s + t < |v.link| && v.link == Linked(link0, s, t)
    requires s + t - 1 !in v.bad && s + t !in v.bad && link0[s + t] == 0
    ensures Leaks(v, s + t - 1) == Jams(v, s + t - 1)
  {
    TakesNext(v, s + t - 1);
    hide Candidate;
    assert v.link[s + t - 1] == END_OF_CHAIN && v.link[s + t] == 0;
  }

  /** A file of 1000 bytes scattered over clusters 2 and 4, with cluster 3 taken by another file: it moves to
      clusters 4 and 5, the first of which it frees itself. */
  lemma ScatteredExample(v: Vol, f: Fil)
    requires v == Vol([END_OF_CHAIN, END_OF_CHAIN, 4, END_OF_CHAIN, END_OF_CHAIN, 0, 0, 0], {}, {}, 4, 3, 1, 100)
    requires f == Fil(2, 2, 700, 1024, true, f.changed, 0)
    ensures var o := Allocate(v, f, 1000);
            o.res == 102 && o.f.sclust == 4 && o.f.fsize == 1024 &&
            o.v.link == [END_OF_CHAIN, END_OF_CHAIN, 0, END_OF_CHAIN, 5, END_OF_CHAIN, 0, 0]
  {
    hide Allocate, Freed, FirstRun, Linked, Occupies, Clusters, Consec, WalkOf;
    ScatteredFile(v, f);
    ScatteredFreed(v);
    ScatteredRun(Without(v, [2, 4]));
    ScatteredMove(v, f);
  }

  lemma ScatteredMove(v: Vol, f: Fil)
    requires v.Valid() && v.csize == 1 && Occupies(v, f, [2, 4]) && f.sclust == 2 && f.fsize == 1024
    requires WalkOf([2, 4], 2) == Broken && Clusters(1000, 512) == 2
    requires 4 < |v.link| && FirstRun(Without(v, [2, 4]), 2, 2) == 4 && v.stuck == {}
    ensures var o := Allocate(v, f, 1000);
            FreeRun(Without(v, [2, 4]), 4, 2) &&
            o.res == ClusterSector(v, 4) && o.f.sclust == 4 && o.f.fsize == 1024 &&
            o.v.link == Linked(Without(v, [2, 4]).link, 4, 2)
  {
    hide Allocate, Freed, Linked, FreeRun, Occupies, Clusters, Consec, ClusterSector, WalkOf;
    AllocateResult(v, f, [2, 4], 1000);
    assert LinkedCount(v, 4, 2) == 2;
    hide FirstRun, LinkedCount;
  }

  lemma ScatteredFile(v: Vol, f: Fil)
    requires v == Vol([END_OF_CHAIN, END_OF_CHAIN, 4, END_OF_CHAIN, END_OF_CHAIN, 0, 0, 0], {}, {}, 4, 3, 1, 100)
    requires f == Fil(2, 2, 700, 1024, true, f.changed, 0)
    ensures Occupies(v, f, [2, 4]) && Clusters(1000, 512) == 2 && WalkOf([2, 4], 2) == Broken
  {
    assert [2, 4][..2] == [2, 4] && Consec(2, 2)[1] == 3;
  }

  lemma ScatteredFreed(v: Vol)
    requires v.link == [END_OF_CHAIN, END_OF_CHAIN, 4, END_OF_CHAIN, END_OF_CHAIN, 0, 0, 0]
    ensures Freed(v.link, [2, 4]) == [END_OF_CHAIN, END_OF_CHAIN, 0, END_OF_CHAIN, 0, 0, 0, 0]
  {
  }

  lemma ScatteredRun(w: Vol)
    requires w.link == [END_OF_CHAIN, END_OF_CHAIN, 0, END_OF_CHAIN, 0, 0, 0, 0] && w.bad == {}
    ensures FirstRun(w, 2, 2) == 4
    ensures Linked(w.link, 4, 2) == [END_OF_CHAIN, END_OF_CHAIN, 0, END_OF_CHAIN, 5, END_OF_CHAIN, 0, 0]
  {
    assert w.Get(3) != 0 && !FreeRun(w, 2, 2) && !FreeRun(w, 3, 2) && FreeRun(w, 4, 2);
    assert FirstRun(w, 2, 2) == FirstRun(w, 2, 3) == FirstRun(w, 2, 4);
  }

  /** A length within one cluster of 4 GiB rounds to no clusters at all.  The call fails, and a file that was not
      empty has lost its contents; only for an empty file that owns clusters it reports their first sector, if
      there is any free cluster, without having done anything. */
  lemma OverflowEmptiesFile(v: Vol, f: Fil, cs: seq<nat>, len: nat)
    requires v.Valid() && Occupies(v, f, cs) && WORD - v.Bytes() < len < WORD
    ensures var o := Allocate(v, f, len);
            if Stranded(f) then
              o.v.link == v.link && o.f == f.(fptr := 0) &&
              o.res == if FirstRun(v, 1, 2) == 0 then 0 else ClusterSector(v, f.sclust)
            else o.res == 0 && o.v.link == Freed(v.link, cs) && o.f.sclust == 0 && o.f.fsize == 0
  {
    hide Seek, Freed, Clusters, Reallocate, Chain, Readable, WalkChain, WalkOf, FirstRun, ClusterSector;
    var f0 := f.(fptr := 0);
    SeekToStart(v, f);
    ClustersOverflow(len, v.Bytes());
    if cs == [] {
      WalkFromZero(v, 0);
    } else {
      WalkDecides(v, cs, 0);
      NoWalk(cs);
      ReallocateNothing(v, f0, cs);
    }
  }

  lemma NoWalk(cs: seq<nat>)
    ensures WalkOf(cs, 0) == if cs == [] then HardError else Broken
  {
  }

  lemma ClustersOverflow(len: nat, csz: nat)
    requires 0 < csz < WORD && WORD - csz < len < WORD
    ensures Clusters(len, csz) == 0
  {
    var x := len + csz - 1;
    assert x % WORD == x - WORD;
    assert (x - WORD) / csz == 0;
  }

  lemma ReallocateNothing(v: Vol, f: Fil, cs: seq<nat>)
    requires v.Valid() && Occupies(v, f, cs) && f.fptr == 0
    ensures var o := Reallocate(v, f, 0, 0);
            if Stranded(f) then
              o.v.link == v.link && o.f == f &&
              o.res == if FirstRun(v, 1, 2) == 0 then 0 else ClusterSector(v, f.sclust)
            else o.res == 0 && o.v.link == Freed(v.link, cs) && o.f.sclust == 0 && o.f.fsize == 0
  {
    hide FirstRun, Truncate, Freed, Seek, Chain, Readable, ClusterSector;
    TruncateFrees(v, f, cs);
    TruncateKeepsShape(v, f);
    var t := Truncate(v, f);
    var s := FirstRun(t.v, 1, 2);
    if s != 0 {
      var v2 := t.v.(last := s - 1);
      SeekToStart(v2, t.f);
      SectorAnywhere(v, v2, f.sclust);
      NoSector(v2);
    }
  }

  lemma NoSector(v: Vol)
    requires v.Valid()
    ensures ClusterSector(v, 0) == 0
  {
  }

  /** Without write access nothing on the volume ever changes, whatever the file, the table and the length. */
  lemma ReadOnlyKeeps(v: Vol, f: Fil, len: nat)
    requires v.Valid() && !f.write
    ensures Allocate(v, f, len).v == v
  {
    hide WalkChain, ClusterSector, Clusters, FirstRun, Seek;
    SeekToStart(v, f);
  }

  /** An open, error-free file without write access, and its readable chain. */
  predicate Inspected(v: Vol, f: Fil, cs: seq<nat>)
    requires v.Valid()
  {
    f.err == 0 && !f.write &&
    (if cs == [] then f.sclust == 0 else Chain(v.link, cs) && Readable(v, cs) && f.sclust == cs[0])
  }

  /** What a call without write access answers, for every length: the sector exactly for a file of the rounded size
      that lies in consecutive clusters; otherwise failure, with an access error that stays in the file object
      unless the length was zero or the walk itself reported an error. */
  lemma ReadOnlyCheck(v: Vol, f: Fil, cs: seq<nat>, len: nat)
    requires v.Valid() && Inspected(v, f, cs) && len < WORD
    ensures var o, tcl := Allocate(v, f, len), Clusters(len, v.Bytes());
            var walk := if tcl * v.Bytes() == f.fsize then WalkOf(cs, tcl) else Broken;
            if len == 0 || walk == HardError then o.res == 0 && o.f == f.(fptr := 0)
            else if walk == Consecutive then o.res == ClusterSector(v, f.sclust) && o.f == f.(fptr := 0)
            else o.res == 0 && o.f.err == FR_DENIED
  {
    hide FirstRun, WalkChain, WalkOf, ClusterSector, Seek, Clusters, Chain, Readable;
    var csz, tcl := v.Bytes(), Clusters(len, v.Bytes());
    SeekToStart(v, f);
    if len > WORD - csz { ClustersOverflow(len, csz); } else if len > 0 { RoundedSize(len, csz); }
    if cs == [] { WalkFromZero(v, tcl); } else { WalkDecides(v, cs, tcl); }
    NoWalk(cs);
  }

  /** Cluster 0 is outside the table, so a walk from it is an error. */
  lemma WalkFromZero(v: Vol, t: nat)
    requires v.Valid()
    ensures WalkChain(v, 0, 0, t) == HardError == WalkOf([], t)
  {
  }

  lemma RoundedSize(len: nat, csz: nat)
    requires 0 < csz && 0 < len <= WORD - csz
    ensures var t := Clusters(len, csz); t * csz < WORD && t >= 1 && t * csz % WORD == t * csz
  {
    Division(len + csz - 1, csz);
  }

  /** After a reallocation the file's chain is exactly the run found, or the part of it that could be linked. */
  lemma NewChain(v: Vol, cs: seq<nat>, s: nat, tcl: nat, j: nat)
    requires v.Valid() && (forall i :: 0 <= i < |cs| ==> cs[i] < |v.link|) && 1 <= j <= tcl
    requires FreeRun(Without(v, cs), s, tcl)
    ensures Chain(Chained(Without(v, cs).link, s, tcl, j), Consec(s, j))
  {
    LinkedIsChain(Without(v, cs).link, s, j);
    assert Consec(s, j) == seq(j, i requires 0 <= i => s + i);
  }

  /** No other file notices: a chain that shares no cluster with the released one is still the same chain. */
  lemma OtherFilesKept(v: Vol, cs: seq<nat>, other: seq<nat>, s: nat, tcl: nat, j: nat)
    requires v.Valid() && (forall i :: 0 <= i < |cs| ==> cs[i] < |v.link|) && 1 <= j <= tcl
    requires FreeRun(Without(v, cs), s, tcl)
    requires Chain(v.link, other) && forall i :: 0 <= i < |other| ==> other[i] !in cs
    ensures Chain(Chained(Without(v, cs).link, s, tcl, j), other)
    ensures forall i :: 0 <= i < |other| ==> !(s <= other[i] < s + tcl)
  {
    var w := Without(v, cs);
    var l := Chained(w.link, s, tcl, j);
    RunIsFree(w, s, tcl);
    forall i | 0 <= i < |other| ensures !(s <= other[i] < s + tcl) && l[other[i]] == v.link[other[i]] {
      assert w.link[other[i]] == v.link[other[i]];
      if i + 1 < |other| {
        assert v.link[other[i]] == other[i + 1];
      }
    }
  }
}
