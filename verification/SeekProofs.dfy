/** Where `f_lseek` takes a file, from whatever position, and what `f_truncate` leaves of its chain. */
module SeekProofs {
  import opened FatModel
  import opened Contiguous
  import opened ContiguousProofs
  import opened AllocatorErrors

  /** The cluster in which byte `pos - 1` lies, by its number in the chain. */
  function Nth(pos: nat, bcs: nat): nat
    requires pos > 0 && bcs > 0
  {
    (pos - 1) / bcs
  }

  lemma Inside(pos: nat, bcs: nat, n: nat)
    requires 0 < pos <= n * bcs && bcs > 0
    ensures Nth(pos, bcs) < n
  {
    var q := Nth(pos, bcs);
    assert q * bcs <= pos - 1;
    if q >= n { Grows(n, q, bcs); }
  }

  lemma Grows(m: nat, n: nat, b: nat)
    requires m <= n
    ensures m * b <= n * b
  {
  }

  lemma OneBack(pos: nat, bcs: nat)
    requires pos > bcs > 0
    ensures Nth(pos, bcs) == 1 + Nth(pos - bcs, bcs)
  {
    Moved(pos - bcs - 1, bcs, 1);
  }

  lemma Moved(x: nat, b: nat, j: nat)
    requires b > 0
    ensures (x + j * b) / b == x / b + j
  {
    var q, r := x / b, x % b;
    assert x + j * b == (q + j) * b + r;
    Quotient(x + j * b, b, q + j, r);
  }

  lemma Quotient(x: nat, b: nat, q: nat, r: nat)
    requires r < b && x == q * b + r
    ensures x / b == q
  {
    var p := x / b;
    assert p * b <= x < p * b + b;
    if p < q { Grows(p + 1, q, b); } else if p > q { Grows(q + 1, p, b); }
  }

  /** The sectors of the chain do not wrap round to sector 0. */
  predicate Addressed(v: Vol, cs: seq<nat>)
    requires v.Valid()
  {
    forall i :: 0 <= i < |cs| ==> ClusterSector(v, cs[i]) != 0
  }

  /** Following a chain from its cluster `k` on, `ofs` bytes far. */
  lemma {:induction false} FollowChain(v: Vol, f: Fil, cs: seq<nat>, k: nat, ofs: nat)
    requires v.Valid() && Chain(v.link, cs) && Readable(v, cs) && Addressed(v, cs) && k < |cs| && f.clust == cs[k]
    requires 0 < ofs <= (|cs| - k) * v.Bytes()
    ensures k + Nth(ofs, v.Bytes()) < |cs|
    ensures Follow(v, f, cs[k], ofs) ==
            Outcome(FR_OK, v, Grown(f.(fptr := f.fptr + ofs, clust := cs[k + Nth(ofs, v.Bytes())])))
    decreases |cs| - k
  {
    hide Chain, Readable, CreateChain, ClusterSector, Nth;
    var bcs := v.Bytes();
    Inside(ofs, bcs, |cs| - k);
    if ofs <= bcs {
      Inside(ofs, bcs, 1);
      assert Follow(v, f, cs[k], ofs) == Arrive(v, f, cs[k], ofs);
    } else {
      if k + 1 == |cs| { Inside(ofs, bcs, 1); }
      OneBack(ofs, bcs);
      OneLess(|cs| - k, bcs);
      OwnLink(v, cs, k);
      OwnEntry(v, cs, k);
      FollowChain(v, f.(clust := cs[k + 1], fptr := f.fptr + bcs), cs, k + 1, ofs - bcs);
    }
  }

  lemma OneLess(n: nat, b: nat)
    requires n >= 1
    ensures n * b - b == (n - 1) * b
  {
  }

  lemma OwnEntry(v: Vol, cs: seq<nat>, k: nat)
    requires v.Valid() && Chain(v.link, cs) && Readable(v, cs) && k + 1 < |cs|
    ensures v.Get(cs[k]) == cs[k + 1] && 2 <= cs[k + 1] < |v.link| < DISK_ERROR
  {
  }

  /** The file object belongs to its position: the current cluster is the one of the byte before it. */
  predicate Positioned(v: Vol, f: Fil, cs: seq<nat>)
    requires v.Valid()
  {
    f.err == 0 && cs != [] && f.sclust == cs[0] && f.fptr <= |cs| * v.Bytes() &&
    (f.fptr > 0 ==> Nth(f.fptr, v.Bytes()) < |cs| && f.clust == cs[Nth(f.fptr, v.Bytes())])
  }

  /** The target lies in the current cluster or behind it: the following starts there. */
  lemma SeekForward(v: Vol, f: Fil, cs: seq<nat>, target: nat)
    requires v.Valid() && Chain(v.link, cs) && Readable(v, cs) && Addressed(v, cs) && Positioned(v, f, cs)
    requires 0 < target <= |cs| * v.Bytes() && f.fptr > 0 && Ahead(target, f.fptr, v.Bytes())
    ensures var bcs := v.Bytes();
            Nth(target, bcs) < |cs| && f.clust != 0 &&
            var skipped := Skipped(target, f.fptr, bcs);
            Follow(v, f.(fptr := skipped), f.clust, target - skipped) ==
            Outcome(FR_OK, v, Grown(f.(fptr := target, clust := cs[Nth(target, bcs)])))
  {
    hide Chain, Readable, Follow, Addressed;
    var bcs := v.Bytes();
    var k := Nth(f.fptr, bcs);
    assert Skipped(target, f.fptr, bcs) == k * bcs;
    Inside(target, bcs, |cs|);
    SkippedThere(target, k, bcs, |cs|);
    InTable(v, cs, k);
    hide Nth, Ahead, Skipped;
    FollowChain(v, f.(fptr := k * bcs), cs, k, target - k * bcs);
  }

  lemma InTable(v: Vol, cs: seq<nat>, k: nat)
    requires Chain(v.link, cs) && k < |cs|
    ensures cs[k] != 0
  {
  }

  /** Seeking inside the chain, forward or back, reaches the position asked for (cut to the size without write access)
      with its cluster, changes nothing on the volume, and extends the size if need be. */
  lemma SeekReaches(v: Vol, f: Fil, cs: seq<nat>, ofs: nat)
    requires v.Valid() && Chain(v.link, cs) && Readable(v, cs) && Addressed(v, cs) && Positioned(v, f, cs)
    requires (if !f.write && ofs > f.fsize then f.fsize else ofs) <= |cs| * v.Bytes()
    ensures var o, target := Seek(v, f, ofs), if !f.write && ofs > f.fsize then f.fsize else ofs;
            o.res == FR_OK && o.v == v && o.f.fptr == target && Positioned(v, o.f, cs) &&
            o.f.fsize == (if target > f.fsize then target else f.fsize) &&
            (o.f.changed <==> f.changed || target > f.fsize)
  {
    hide Chain, Readable, Follow, Addressed;
    var bcs, target := v.Bytes(), if !f.write && ofs > f.fsize then f.fsize else ofs;
    if target > 0 {
      Inside(target, bcs, |cs|);
      if f.fptr > 0 && Ahead(target, f.fptr, bcs) {
        SeekForward(v, f, cs, target);
        hide Nth, Ahead;
      } else {
        FollowChain(v, f.(fptr := 0, clust := f.sclust), cs, 0, target);
        InTable(v, cs, 0);
        hide Nth, Ahead;
      }
    }
  }

  // ---------------------------------------------------------------- seeks that leave the chain alone

  /** A seek within the current cluster looks at no entry of the table; only one that ends off a sector boundary needs
      the sector of the cluster. */
  lemma SeekInside(v: Vol, f: Fil, ofs: nat)
    requires v.Valid() && f.err == 0 && f.fptr > 0 && f.clust != 0
    requires 0 < ofs && (f.write || ofs <= f.fsize) && Nth(ofs, v.Bytes()) == Nth(f.fptr, v.Bytes())
    ensures Seek(v, f, ofs) ==
            if ofs % 512 != 0 && ClusterSector(v, f.clust) == 0 then Outcome(2, v, f.(fptr := ofs, err := 2))
            else if ofs > f.fsize then Outcome(0, v, f.(fptr := ofs, fsize := ofs, changed := true))
            else Outcome(0, v, f.(fptr := ofs))
  {
    var bcs, k := v.Bytes(), Nth(f.fptr, v.Bytes());
    assert Skipped(ofs, f.fptr, bcs) == k * bcs;
    assert k * bcs <= ofs - 1 < k * bcs + bcs by { DivisionBounds(ofs - 1, bcs); }
    SectorOffset(ofs, k, v.csize);
    hide ClusterSector, Skipped;
  }

  /** A position without a current cluster: a seek ahead stays at the start of the cluster of the position. */
  lemma SeekNowhere(v: Vol, f: Fil, ofs: nat)
    requires v.Valid() && f.err == 0 && f.clust == 0 && 0 < f.fptr <= f.fsize
    requires 0 < ofs && (f.write || ofs <= f.fsize) && Nth(ofs, v.Bytes()) >= Nth(f.fptr, v.Bytes())
    ensures Seek(v, f, ofs) == Outcome(0, v, f.(fptr := Nth(f.fptr, v.Bytes()) * v.Bytes()))
  {
    DivisionBounds(f.fptr - 1, v.Bytes());
  }

  lemma DivisionBounds(x: nat, b: nat)
    requires b > 0
    ensures x / b * b <= x < x / b * b + b
  {
  }

  lemma SectorOffset(x: nat, k: nat, n: nat)
    requires x >= k * (n * SECTOR)
    ensures (x - k * (n * SECTOR)) % SECTOR == x % SECTOR
  {
    assert k * (n * SECTOR) == (k * n) * SECTOR;
    var m := k * n;
    assert x == (x - m * SECTOR) + m * SECTOR;
    Remainder(x - m * SECTOR, m);
  }

  lemma Remainder(x: nat, m: nat)
    ensures (x + m * SECTOR) % SECTOR == x % SECTOR
  {
  }

  /** A file without clusters that is at its start: when no first cluster is to be had, it stays as it is, with the
      error if the search came to a damaged entry, and without any if the disk is full. */
  lemma SeekFirst(v: Vol, f: Fil, ofs: nat)
    requires v.Valid() && f.err == 0 && f.write && f.sclust == 0 && f.fptr == 0 && ofs > 0
    requires forall c :: 0 <= c < |v.link| ==> v.link[c] <= END_OF_CHAIN
    ensures var c := Candidate(v, if 1 <= v.last < |v.link| then v.last else 1);
            (c == 0 ==> Seek(v, f, ofs) == Outcome(0, v, f.(clust := 0))) &&
            (c != 0 && c in v.bad ==> Seek(v, f, ofs) == Outcome(1, v, f.(err := 1))) &&
            (c != 0 && c !in v.bad && v.link[c] == 1 ==> Seek(v, f, ofs) == Outcome(2, v, f.(err := 2)))
  {
    CreateChainRefused(v, 0);
    CandidateIsFirst(v, if 1 <= v.last < |v.link| then v.last else 1);
    hide CreateChain, Follow, Candidate;
  }

  /** No cluster is free, and no entry damaged. */
  predicate Full(v: Vol) {
    forall c :: 2 <= c < |v.link| ==> c !in v.bad && 1 < v.link[c] <= END_OF_CHAIN
  }

  lemma {:induction false} FollowFull(v: Vol, f: Fil, cs: seq<nat>, k: nat, ofs: nat)
    requires v.Valid() && Chain(v.link, cs) && Full(v) && f.write && k < |cs| && f.clust == cs[k]
    requires ofs > Total(v.Bytes(), |cs| - k)
    ensures Follow(v, f, cs[k], ofs) ==
            Outcome(FR_OK, v, Grown(f.(fptr := f.fptr + Total(v.Bytes(), |cs| - k), clust := cs[|cs| - 1])))
    decreases |cs| - k
  {
    hide Chain, Full, Readable, CreateChain, Follow, Grown, Total, Vol.Bytes, Vol.Valid;
    var n, bcs := |cs| - k - 1, v.Bytes();
    TotalStep(bcs, n);
    FullReadable(v, cs);
    if n == 0 {
      LastIsFull(v, f, cs, ofs);
    } else {
      FollowOwn(v, f, cs, k, ofs);
      FollowFull(v, f.(clust := cs[k + 1], fptr := f.fptr + bcs), cs, k + 1, ofs - bcs);
    }
  }

  lemma FollowOwn(v: Vol, f: Fil, cs: seq<nat>, k: nat, ofs: nat)
    requires v.Valid() && Chain(v.link, cs) && Readable(v, cs) && f.write && k + 1 < |cs| && ofs > v.Bytes()
    ensures Follow(v, f, cs[k], ofs) ==
            Follow(v, f.(clust := cs[k + 1], fptr := f.fptr + v.Bytes()), cs[k + 1], ofs - v.Bytes())
  {
    OwnLink(v, cs, k);
    hide Chain, Readable, CreateChain, Follow, Vol.Bytes;
    FollowStep(v, f, cs[k], ofs, cs[k + 1], v);
  }

  lemma FullReadable(v: Vol, cs: seq<nat>)
    requires v.Valid() && Chain(v.link, cs) && Full(v)
    ensures Readable(v, cs)
  {
  }

  lemma LastIsFull(v: Vol, f: Fil, cs: seq<nat>, ofs: nat)
    requires v.Valid() && Chain(v.link, cs) && Full(v) && f.write && ofs > v.Bytes()
    ensures Follow(v, f, cs[|cs| - 1], ofs) == Outcome(FR_OK, v, Grown(f.(fptr := f.fptr + v.Bytes())))
  {
    NoneLeft(v, cs[|cs| - 1]);
    WholeSectors(v.csize);
    hide Chain, Full, CreateChain, ClusterSector, Grown;
  }

  lemma NoneLeft(v: Vol, c: nat)
    requires v.Valid() && Full(v) && 2 <= c < |v.link| && v.link[c] >= |v.link|
    ensures CreateChain(v, c) == (0, v)
  {
    StopAtFirst(v, c + 1, |v.link|);
    StopAtFirst(v, 2, c + 1);
  }

  /** On a full volume a seek behind the chain stops at the end of its last cluster, to which the file then grows. */
  lemma SeekFull(v: Vol, f: Fil, cs: seq<nat>, ofs: nat)
    requires v.Valid() && Chain(v.link, cs) && Full(v) && f.write && Positioned(v, f, cs) && ofs > |cs| * v.Bytes()
    ensures var o, end := Seek(v, f, ofs), |cs| * v.Bytes();
            o.res == FR_OK && o.v == v && o.f.fptr == end && Positioned(v, o.f, cs) &&
            o.f.fsize == (if end > f.fsize then end else f.fsize) && (o.f.changed <==> f.changed || end > f.fsize)
  {
    hide Chain, Follow, Full;
    var bcs := v.Bytes();
    LastByte(|cs|, bcs);
    InTable(v, cs, 0);
    if f.fptr > 0 {
      var k := Nth(f.fptr, bcs);
      InTable(v, cs, k);
      DivisionBounds(ofs - 1, bcs);
      BehindEnd(ofs, k, bcs, |cs|);
      assert Skipped(ofs, f.fptr, bcs) == k * bcs;
      TotalIsProduct(bcs, |cs| - k);
      FollowFull(v, f.(fptr := k * bcs), cs, k, ofs - k * bcs);
      hide Nth, Ahead, Skipped;
    } else {
      TotalIsProduct(bcs, |cs|);
      FollowFull(v, f.(clust := f.sclust), cs, 0, ofs);
      hide Nth;
    }
  }

  lemma LastByte(n: nat, b: nat)
    requires n >= 1 && b > 0
    ensures n * b > 0 && Nth(n * b, b) == n - 1
  {
    assert n * b == (n - 1) * b + b;
    Quotient(n * b - 1, b, n - 1, b - 1);
  }

  lemma BehindEnd(ofs: nat, k: nat, bcs: nat, n: nat)
    requires ofs > n * bcs && bcs > 0 && k < n
    ensures k <= Nth(ofs, bcs) && k * bcs < ofs && ofs - k * bcs > (n - k) * bcs && k * bcs + (n - k) * bcs == n * bcs
  {
    assert (n - k) * bcs == n * bcs - k * bcs;
    Grows(k, n, bcs);
    if Nth(ofs, bcs) < n { Grows(Nth(ofs, bcs) + 1, n, bcs); DivisionBounds(ofs - 1, bcs); }
  }

  // ---------------------------------------------------------------- cutting

  /** Cutting a file at its position: the chain ends with the cluster of the byte before it, the clusters behind are
      free, and no other entry changes. */
  lemma TruncateCuts(v: Vol, f: Fil, cs: seq<nat>)
    requires v.Valid() && Chain(v.link, cs) && Readable(v, cs) && Positioned(v, f, cs)
    requires f.write && 0 < f.fptr < f.fsize
    ensures var o, k := Truncate(v, f), Nth(f.fptr, v.Bytes());
            k < |cs| && o.res == FR_OK && o.f == f.(fsize := f.fptr, changed := true) &&
            |o.v.link| == |v.link| && Chain(o.v.link, cs[..k + 1]) &&
            (forall i :: k < i < |cs| ==> o.v.link[cs[i]] == 0) &&
            forall c :: 0 <= c < |v.link| && c !in cs[k..] ==> o.v.link[c] == v.link[c]
  {
    var k := Nth(f.fptr, v.Bytes());
    hide Nth;
    if k + 1 == |cs| {
      assert v.Get(cs[k]) >= |v.link|;
      assert cs[..k + 1] == cs;
    } else {
      CutChain(v, cs, k);
      assert v.Get(cs[k]) == cs[k + 1];
    }
  }

  lemma Distinct(link: seq<nat>, cs: seq<nat>, i: nat, j: nat)
    requires Chain(link, cs) && i < j < |cs|
    ensures cs[i] != cs[j]
  {
    assert Chain(link, cs[i..]);
    NoRepeat(link, cs[i..], j - i);
  }

  lemma CutChain(v: Vol, cs: seq<nat>, k: nat)
    requires v.Valid() && Chain(v.link, cs) && Readable(v, cs) && k + 1 < |cs|
    ensures var (res, v') := RemoveChain(v.(link := v.link[cs[k] := END_OF_CHAIN]), cs[k + 1]);
            res == FR_OK && |v'.link| == |v.link| && Chain(v'.link, cs[..k + 1]) &&
            (forall i :: k < i < |cs| ==> v'.link[cs[i]] == 0) &&
            forall c :: 0 <= c < |v.link| && c !in cs[k..] ==> v'.link[c] == v.link[c]
  {
    hide Readable, Freed, RemoveFrom;
    FreedRest(v.link, cs, k);
    hide Chain;
    var w, rest := v.(link := v.link[cs[k] := END_OF_CHAIN]), cs[k + 1..];
    CutRest(v, cs, k);
    RemoveChainFrees(w, rest);
    assert forall i :: 0 <= i < |rest| ==> rest[i] in cs;
    CutTable(v.link, Freed(w.link, rest), cs, k);
  }

  lemma FreedRest(link: seq<nat>, cs: seq<nat>, k: nat)
    requires Chain(link, cs) && k < |cs|
    ensures forall c :: c in cs ==> c < |link|
    ensures var after := Freed(link[cs[k] := END_OF_CHAIN], cs[k + 1..]);
            |after| == |link| &&
            forall c: nat :: c < |link| ==>
              after[c] == if c in cs[k + 1..] then 0 else if c == cs[k] then END_OF_CHAIN else link[c]
  {
  }

  lemma CutRest(v: Vol, cs: seq<nat>, k: nat)
    requires v.Valid() && Chain(v.link, cs) && Readable(v, cs) && k + 1 < |cs|
    ensures var w := v.(link := v.link[cs[k] := END_OF_CHAIN]);
            Chain(w.link, cs[k + 1..]) && Readable(w, cs[k + 1..]) && 2 <= cs[k + 1] < |v.link|
  {
    forall j | k < j < |cs| ensures cs[k] != cs[j] { Distinct(v.link, cs, k, j); }
  }

  lemma CutTable(before: seq<nat>, after: seq<nat>, cs: seq<nat>, k: nat)
    requires Chain(before, cs) && k + 1 < |cs| && |after| == |before| <= END_OF_CHAIN
    requires forall c: nat :: c < |before| ==>
               after[c] == if c in cs[k + 1..] then 0 else if c == cs[k] then END_OF_CHAIN else before[c]
    ensures Chain(after, cs[..k + 1]) && (forall i :: k < i < |cs| ==> after[cs[i]] == 0)
    ensures forall c :: 0 <= c < |before| && c !in cs[k..] ==> after[c] == before[c]
  {
    var rest := cs[k + 1..];
    forall i | k < i < |cs| ensures cs[i] in rest && cs[i] < |before| { assert rest[i - k - 1] == cs[i]; }
    forall i | 0 <= i <= k ensures cs[i] !in rest && (i < k ==> cs[i] != cs[k]) { NotBehind(before, cs, k, i); }
    assert cs[k..] == [cs[k]] + rest;
    FrontChain(before, after, cs, k);
    hide Chain;
  }

  lemma FrontChain(before: seq<nat>, after: seq<nat>, cs: seq<nat>, k: nat)
    requires Chain(before, cs) && k < |cs| && |after| == |before| <= after[cs[k]]
    requires forall i :: 0 <= i < k ==> cs[i] < |before| && after[cs[i]] == before[cs[i]]
    ensures Chain(after, cs[..k + 1])
  {
  }

  lemma NotBehind(link: seq<nat>, cs: seq<nat>, k: nat, i: nat)
    requires Chain(link, cs) && k < |cs| && i <= k
    ensures cs[i] !in cs[k + 1..] && (i < k ==> cs[i] != cs[k])
  {
    forall j | i < j < |cs| ensures cs[i] != cs[j] { Distinct(link, cs, i, j); }
    hide Chain;
  }

  lemma SkippedThere(target: nat, k: nat, bcs: nat, n: nat)
    requires 0 < target <= n * bcs && bcs > 0 && k <= Nth(target, bcs) && k < n
    ensures k * bcs < target && target - k * bcs <= (n - k) * bcs
    ensures k + Nth(target - k * bcs, bcs) == Nth(target, bcs)
  {
    var q := Nth(target, bcs);
    assert q * bcs <= target - 1;
    Grows(k, q, bcs);
    assert (n - k) * bcs == n * bcs - k * bcs;
    Moved(target - k * bcs - 1, bcs, k);
  }
}
