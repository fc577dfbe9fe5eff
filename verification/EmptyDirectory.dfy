/** The recursive tree deletion, sharing one path buffer across all levels of recursion. */
module DirectoryCleaner {
  import opened Options
  import opened DirectoryTree
  import opened DirectoryProofs

  // ---------------------------------------------------------------- the FatFs calls it makes

  /** Position of the first visible slot. */
  function SkipTo(w: World, slots: seq<Slot>): (k: nat)
    ensures k <= |slots|
    ensures forall i :: 0 <= i < k ==> !Visible(w, slots[i])
    ensures k < |slots| ==> Visible(w, slots[k])
    decreases |slots|
  {
    if |slots| == 0 || Visible(w, slots[0]) then 0 else 1 + SkipTo(w, slots[1..])
  }

  /** The tree with the object at `comps` deleted. */
  function RemoveAt(n: Node, comps: seq<Name>): Node
    requires |comps| >= 1 && Lookup(n, comps).Some?
    decreases |comps|
  {
    var i := Find(n.slots, comps[0]);
    if |comps| == 1 then Dir(n.rdo, n.slots[i := Deleted])
    else Dir(n.rdo, n.slots[i := Used(comps[0], RemoveAt(n.slots[i].node, comps[1..]))])
  }

  /** `f_unlink`: the root, a missing object, a read-only one and a directory in use are refused. */
  function Unlink(root: Node, p: string): (nat, Node) {
    var target := Parse(p);
    if target.None? then (Refusal(root, p), root)
    else if |target.value| == 0 then (FR_INVALID_NAME, root) else
    var comps := target.value;
    var n := Lookup(root, comps);
    if n.None? then
      var parent := Lookup(root, comps[..|comps| - 1]);
      (if parent.Some? && parent.value.Dir? then FR_NO_FILE else FR_NO_PATH, root)
    else if n.value.rdo || (n.value.Dir? && !Empty(n.value)) then (FR_DENIED, root)
    else (FR_OK, RemoveAt(root, comps))
  }

  /** An open directory: the place it stands for and the read position. */
  class DirObject {
    const comps: seq<Name>
    var index: nat

    constructor (comps: seq<Name>)
      ensures this.comps == comps && index == 0
    {
      this.comps, index := comps, 0;
    }
  }

  class Volume {
    const w: World
    var root: Node
    var calls: nat

    constructor (w: World, root: Node)
      ensures this.w == w && this.root == root && calls == 0
    {
      this.w, this.root, calls := w, root, 0;
    }

    method OpenDir(p: string) returns (res: nat, d: DirObject)
      modifies this`calls
      ensures fresh(d) && d.index == 0 && calls == old(calls) + 1
      ensures var target := Parse(p);
              if w.fault(calls) != 0 then res == w.fault(calls)
              else if target.None? then res == Refusal(root, p)
              else if Lookup(root, target.value).None? || Lookup(root, target.value).value.File? then res == FR_NO_PATH
              else res == FR_OK && d.comps == target.value
    {
      calls := calls + 1;
      d := new DirObject([]);
      if w.fault(calls) != 0 { return w.fault(calls), d; }
      var target := Parse(p);
      if target.None? { return Refusal(root, p), d; }
      var n := Lookup(root, target.value);
      if n.None? || n.value.File? { return FR_NO_PATH, d; }
      d := new DirObject(target.value);
      res := FR_OK;
    }

    /** The next visible entry; an empty name at the end of the table. */
    method ReadDir(d: DirObject) returns (res: nat, name: Name, isDir: bool)
      requires Lookup(root, d.comps).Some? && Lookup(root, d.comps).value.Dir?
      requires d.index <= |Lookup(root, d.comps).value.slots|
      modifies this`calls, d
      ensures calls == old(calls) + 1 && res == w.fault(calls)
      ensures res == FR_OK ==>
                var slots := Lookup(root, d.comps).value.slots;
                var k := old(d.index) + SkipTo(w, slots[old(d.index)..]);
                if k == |slots| then name == "" && d.index == k
                else name == slots[k].name && isDir == slots[k].node.Dir? && d.index == k + 1
    {
      calls := calls + 1;
      res, name, isDir := w.fault(calls), "", false;
      if res != FR_OK { return; }
      var slots := Lookup(root, d.comps).value.slots;
      var k, start := d.index, d.index;
      while k < |slots| && !Visible(w, slots[k])
        invariant start <= k <= |slots|
        invariant start + SkipTo(w, slots[start..]) == k + SkipTo(w, slots[k..])
      {
        assert slots[k..][1..] == slots[k + 1..];
        k := k + 1;
      }
      if k < |slots| {
        name, isDir := slots[k].name, slots[k].node.Dir?;
        k := k + 1;
      }
      d.index := k;
    }

    method Remove(p: string) returns (res: nat)
      modifies this
      ensures calls == old(calls) + 1
      ensures if w.fault(calls) != 0 then res == w.fault(calls) && root == old(root)
              else (res, root) == Unlink(old(root), p)
    {
      calls := calls + 1;
      if w.fault(calls) != 0 { return w.fault(calls); }
      var (r, n) := Unlink(root, p);
      root := n;
      res := r;
    }
  }

  // ---------------------------------------------------------------- the path buffer

  /** The buffer holds the zero-terminated text `p`. */
  ghost predicate Holds(path: array<char>, p: string)
    reads path
  {
    |p| < path.Length && path[..|p|] == p && path[|p|] == '\0' && '\0' !in p
  }

  // ---------------------------------------------------------------- one step of the loop

  /** The state between two reads: the part `done` of the table is finished, `rest` is untouched. */
  ghost predicate Progress(w: World, root0: Node, root: Node, comps: seq<Name>, n0: Node,
                           done: seq<Slot>, rest: seq<Slot>)
  {
    Lookup(root0, comps) == Some(n0) && n0.Dir? && WellFormed(root0) &&
    root == Replace(root0, comps, Dir(n0.rdo, done + rest)) &&
    PrunedSlots(n0.slots, done + rest)
  }

  lemma ProgressFacts(w: World, root0: Node, root: Node, comps: seq<Name>, n0: Node, done: seq<Slot>, rest: seq<Slot>)
    requires Progress(w, root0, root, comps, n0, done, rest)
    ensures Lookup(root, comps) == Some(Dir(n0.rdo, done + rest))
    ensures WellFormed(Dir(n0.rdo, done + rest))
    ensures Lookup(root0, comps) == Some(n0) && root == Replace(root0, comps, Dir(n0.rdo, done + rest))
  {
    LookupReplaced(root0, comps, Dir(n0.rdo, done + rest));
    WellFormedAt(root0, comps);
    PrunedWellFormed(n0, Dir(n0.rdo, done + rest));
  }

  /** The result for the whole table when `done` is finished and `r` is the result for the rest. */
  function After(done: seq<Slot>, r: Result): Result {
    r.(slots := done + r.slots)
  }

  /** `rest` is what follows the first `k` slots of the original table. */
  predicate Aligned(n0: Node, k: nat, rest: seq<Slot>) {
    n0.Dir? && k <= |n0.slots| && rest == n0.slots[k..]
  }

  /** Skipping invisible slots does not change what remains to be done. */
  lemma SkipAhead(w: World, done: seq<Slot>, rest: seq<Slot>, j: nat, calls: nat)
    requires j <= |rest| && forall i :: 0 <= i < j ==> !Visible(w, rest[i])
    ensures After(done, Purge(w, rest, calls)) == After(done + rest[..j], Purge(w, rest[j..], calls))
  {
    PurgeSkips(w, rest, j, calls);
    assert done + (rest[..j] + Purge(w, rest[j..], calls).slots) ==
           done + rest[..j] + Purge(w, rest[j..], calls).slots;
  }

  lemma {:induction false} PurgeSkips(w: World, rest: seq<Slot>, j: nat, calls: nat)
    requires j <= |rest| && forall i :: 0 <= i < j ==> !Visible(w, rest[i])
    ensures var r := Purge(w, rest[j..], calls);
            Purge(w, rest, calls) == r.(slots := rest[..j] + r.slots)
    decreases j
  {
    hide Purge, Visible;
    var r := Purge(w, rest[j..], calls);
    if j == 0 {
      assert rest[0..] == rest && rest[..0] + r.slots == r.slots;
    } else {
      var tail := rest[1..];
      PurgeInvisible(w, rest, calls);
      assert tail[j - 1..] == rest[j..];
      PurgeSkips(w, tail, j - 1, calls);
      assert rest[..j] + r.slots == [rest[0]] + (tail[..j - 1] + r.slots);
    }
  }

  lemma PurgeInvisible(w: World, rest: seq<Slot>, calls: nat)
    requires |rest| > 0 && !Visible(w, rest[0])
    ensures Purge(w, rest, calls) == Prepend(rest[0], Purge(w, rest[1..], calls))
  {
  }

  lemma SlotFound(rdo: bool, slots: seq<Slot>, k: nat)
    requires WellFormed(Dir(rdo, slots)) && k < |slots| && slots[k].Used?
    ensures ValidName(slots[k].name) && Find(slots, slots[k].name) == k
  {
    FindFirst(slots, k);
  }

  /** The child read at position `|done|`, by its path. */
  lemma ChildPath(w: World, root0: Node, root: Node, comps: seq<Name>, n0: Node,
                  done: seq<Slot>, rest: seq<Slot>, p: string, m: Node)
    requires Progress(w, root0, root, comps, n0, done, rest) && Parse(p) == Some(comps)
    requires |rest| > 0 && rest[0].Used?
    ensures var name := rest[0].name; var child := p + "/" + name;
            ValidName(name) && Parse(child) == Some(comps + [name]) &&
            Lookup(root, comps + [name]) == Some(rest[0].node) &&
            Replace(root, comps + [name], m) == Replace(root0, comps, Dir(n0.rdo, done + [Used(name, m)] + rest[1..]))
  {
    ProgressFacts(w, root0, root, comps, n0, done, rest);
    var name, slots, k := rest[0].name, done + rest, |done|;
    assert slots[k] == rest[0];
    SlotFound(n0.rdo, slots, k);
    hide WellFormed, PrunedSlots, Parse, Find, Lookup, Replace;
    ParseAppend(p, name);
    ChildAt(root, comps, name, m);
    ReplaceAgain(root0, comps, Dir(n0.rdo, slots), Dir(n0.rdo, slots[k := Used(name, m)]));
    assert slots[k := Used(name, m)] == done + [Used(name, m)] + rest[1..];
  }

  lemma {:induction false} RemoveChild(n: Node, comps: seq<Name>, name: Name)
    requires Lookup(n, comps).Some? && Lookup(n, comps).value.Dir?
    requires Find(Lookup(n, comps).value.slots, name) < |Lookup(n, comps).value.slots|
    ensures var d := Lookup(n, comps).value; var k := Find(d.slots, name);
            Lookup(n, comps + [name]).Some? &&
            RemoveAt(n, comps + [name]) == Replace(n, comps, Dir(d.rdo, d.slots[k := Deleted]))
    decreases |comps|
  {
    ChildAt(n, comps, name, n);
    if |comps| == 0 {
      assert comps + [name] == [name];
    } else {
      assert (comps + [name])[1..] == comps[1..] + [name];
      RemoveChild(n.slots[Find(n.slots, comps[0])].node, comps[1..], name);
    }
  }

  /** Unlinking the child deletes exactly its slot. */
  lemma UnlinkChild(w: World, root0: Node, root: Node, comps: seq<Name>, n0: Node,
                    done: seq<Slot>, rest: seq<Slot>, p: string)
    requires Progress(w, root0, root, comps, n0, done, rest) && Parse(p) == Some(comps)
    requires |rest| > 0 && rest[0].Used? && !IsDot(rest[0].name)
    ensures var m := rest[0].node;
            Unlink(root, p + "/" + rest[0].name) ==
            if m.rdo || (m.Dir? && !Empty(m)) then (FR_DENIED, root)
            else (FR_OK, Replace(root0, comps, Dir(n0.rdo, done + [Deleted] + rest[1..])))
  {
    ChildPath(w, root0, root, comps, n0, done, rest, p, rest[0].node);
    ProgressFacts(w, root0, root, comps, n0, done, rest);
    var slots, k := done + rest, |done|;
    assert slots[k] == rest[0];
    SlotFound(n0.rdo, slots, k);
    hide WellFormed, PrunedSlots, Parse, Find, Lookup, Replace;
    RemoveChild(root, comps, rest[0].name);
    ReplaceAgain(root0, comps, Dir(n0.rdo, slots), Dir(n0.rdo, slots[k := Deleted]));
    assert slots[k := Deleted] == done + [Deleted] + rest[1..];
  }

  /** Replacing the slot read last by a pruned one is progress. */
  lemma Advance(w: World, root0: Node, root: Node, root': Node, comps: seq<Name>, n0: Node,
                done: seq<Slot>, rest: seq<Slot>, s: Slot)
    requires Progress(w, root0, root, comps, n0, done, rest)
    requires |rest| > 0 && rest[0] == n0.slots[|done|] && PrunedSlot(rest[0], s)
    requires root' == Replace(root0, comps, Dir(n0.rdo, done + [s] + rest[1..]))
    ensures Progress(w, root0, root', comps, n0, done + [s], rest[1..])
    ensures Progress(w, root0, root', comps, n0, done, [s] + rest[1..])
  {
    var slots := done + [s] + rest[1..];
    assert slots == done + ([s] + rest[1..]);
    forall i | 0 <= i < |slots| ensures PrunedSlot(n0.slots[i], slots[i]) {
      if i != |done| { assert slots[i] == (done + rest)[i]; }
    }
  }

  // ---------------------------------------------------------------- the program

  /** The buffer holds `p` and a separator. */
  ghost predicate Prefixed(path: array<char>, p: string)
    reads path
  {
    |p| < path.Length && path[..|p|] == p && path[|p|] == '/' && '\0' !in p
  }

  /** Empties the directory named by the text `p` in the buffer.  The buffer is overrun exactly when the run comes to
      need more room than it has; otherwise, on every return, at every depth, the buffer holds `p` again. */
  method EmptyDirectory(vol: Volume, path: array<char>, ghost p: string) returns (fr: nat, overrun: bool)
    requires Holds(path, p) && WellFormed(vol.root)
    modifies vol, path
    ensures overrun == (|p| + ReachPath(vol.w, old(vol.root), p, old(vol.calls)) > path.Length)
    ensures !overrun ==>
              Holds(path, p) && (fr, vol.root, vol.calls) == EmptyPath(vol.w, old(vol.root), p, old(vol.calls))
    decreases TargetNode(vol.root, p), 2
  {
    hide WellFormed, PrunedSlots, Purge, Parse, Progress, Lookup, Replace, Next, Delete, EmptyPath, ReachNext;
    ghost var root0, w := vol.root, vol.w;
    overrun := false;
    var len := TextLength(path, p);
    var dir;
    fr, dir := vol.OpenDir(path[..len]);
    if fr != FR_OK {
      PathRefused(w, root0, p, old(vol.calls));
      return;
    }
    ghost var comps, n0 := dir.comps, Lookup(vol.root, dir.comps).value;
    var i := len;
    path[i] := '/';
    i := i + 1;
    PathGoal(w, root0, p, old(vol.calls), comps, n0);
    fr, overrun := EmptyEntries(vol, path, dir, i, p, n0);
    if overrun { return; }
    i := i - 1;
    path[i] := '\0';
  }

  /** The loop over the entries of an open directory. */
  method EmptyEntries(vol: Volume, path: array<char>, dir: DirObject, i: nat, ghost p: string, ghost n0: Node)
    returns (fr: nat, overrun: bool)
    requires Lookup(vol.root, dir.comps) == Some(n0) && n0.Dir? && WellFormed(vol.root)
    requires Parse(p) == Some(dir.comps) && dir.index == 0
    requires i == |p| + 1 && Prefixed(path, p)
    modifies vol, path, dir
    ensures overrun == (|p| + ReachNext(vol.w, n0.slots, old(vol.calls)) > path.Length)
    ensures !overrun ==>
              var r := Next(vol.w, n0.slots, old(vol.calls));
              Prefixed(path, p) && fr == r.res && vol.calls == r.calls &&
              vol.root == Replace(old(vol.root), dir.comps, Dir(n0.rdo, r.slots))
    decreases n0, 1
  {
    hide WellFormed, PrunedSlots, Purge, Parse, Progress, Lookup, Replace, Next, Delete, Prefixed, Reading, Awaiting;
    PrefixedFits(path, p);
    hide ReachNext, ReachPurge, ReachEntry;
    ghost var root0, w, comps := vol.root, vol.w, dir.comps;
    ghost var done: seq<Slot>, rest: seq<Slot> := [], n0.slots;
    ghost var goal, need := Next(w, n0.slots, vol.calls), ReachNext(w, n0.slots, vol.calls);
    ghost var space: nat := path.Length - |p|;
    StartOfTable(w, root0, comps, n0, vol.calls);
    overrun := false;
    while true
      invariant Prefixed(path, p) && dir.index == |done| && !overrun
      invariant Awaiting(w, root0, vol.root, comps, n0, done, rest, vol.calls, goal)
      invariant need > space <==> ReachNext(w, rest, vol.calls) > space
      decreases |rest|
    {
      ghost var root1 := vol.root;
      AwaitingFacts(w, root0, root1, comps, n0, done, rest, vol.calls, goal);
      NextReach(w, rest, vol.calls);
      var name, isDir;
      fr, name, isDir := vol.ReadDir(dir);
      if fr != FR_OK { break; }
      ghost var c, j := vol.calls, SkipTo(w, rest);
      done, rest := done + rest[..j], rest[j..];
      ReadingFacts(w, root0, root1, comps, n0, done, rest, c, goal);
      EntryReach(w, rest, c, space);
      if name == "" { break; }
      if vol.w.rpath && name[0] == '.' {
        PassDot(w, root0, root1, comps, n0, done, rest, c, goal);
        done, rest := done + [rest[0]], rest[1..];
        continue;
      }
      fr, overrun := DeleteEntry(vol, path, i, name, isDir, p, root0, comps, n0, done, rest);
      if overrun { return; }
      ghost var slot := Delete(w, rest[0], c).1;
      PassEntry(w, root0, root1, vol.root, comps, n0, done, rest, c, goal);
      if fr != FR_OK { break; }
      done, rest := done + [slot], rest[1..];
    }
  }

  lemma PrefixedFits(path: array<char>, p: string)
    requires Prefixed(path, p)
    ensures |p| < path.Length
  {
  }

  /** What a read leaves of the room still needed. */
  lemma NextReach(w: World, rest: seq<Slot>, calls: nat)
    ensures ReachNext(w, rest, calls) ==
            if w.fault(calls + 1) != FR_OK then 1 else ReachPurge(w, rest[SkipTo(w, rest)..], calls + 1)
  {
    ReachSkips(w, rest, SkipTo(w, rest), calls + 1);
  }

  lemma {:induction false} ReachSkips(w: World, rest: seq<Slot>, j: nat, calls: nat)
    requires j <= |rest| && forall i :: 0 <= i < j ==> !Visible(w, rest[i])
    ensures ReachPurge(w, rest, calls) == ReachPurge(w, rest[j..], calls)
    decreases j
  {
    hide Visible, ReachNext, ReachEntry;
    if j == 0 {
      assert rest[0..] == rest;
    } else {
      assert rest[1..][j - 1..] == rest[j..];
      ReachSkips(w, rest[1..], j - 1, calls);
    }
  }

  /** What one entry leaves of it. */
  lemma EntryReach(w: World, rest: seq<Slot>, calls: nat, space: nat)
    requires space >= 1 && (rest != [] ==> Visible(w, rest[0]))
    ensures rest == [] ==> ReachPurge(w, rest, calls) <= space
    ensures rest != [] && IsDot(rest[0].name) ==> ReachPurge(w, rest, calls) == ReachNext(w, rest[1..], calls)
    ensures rest != [] && !IsDot(rest[0].name) ==>
              var (r, _, c) := Delete(w, rest[0], calls);
              ReachPurge(w, rest, calls) > space <==>
              ReachEntry(w, rest[0], calls) > space || (r == FR_OK && ReachNext(w, rest[1..], c) > space)
  {
    hide ReachNext, ReachEntry, Delete;
  }

  /** The directory a path names; a file stands for "none". */
  function TargetNode(root: Node, p: string): Node {
    var comps := Parse(p);
    if comps.Some? && Lookup(root, comps.value).Some? then Lookup(root, comps.value).value else File(false)
  }

  /** One entry: complete the path, empty the entry if it is a directory, unlink it. */
  method DeleteEntry(vol: Volume, path: array<char>, i: nat, name: Name, isDir: bool,
                     ghost p: string, ghost root0: Node, ghost comps: seq<Name>, ghost n0: Node,
                     ghost done: seq<Slot>, ghost rest: seq<Slot>)
    returns (fr: nat, overrun: bool)
    requires n0.Dir? && Progress(vol.w, root0, vol.root, comps, n0, done, rest) && WellFormed(vol.root)
    requires |rest| > 0 && |done| < |n0.slots| && rest[0] == n0.slots[|done|] && rest[0].Used?
    requires rest[0].name == name && !IsDot(name) && isDir == rest[0].node.Dir?
    requires Parse(p) == Some(comps) && i == |p| + 1 && Prefixed(path, p)
    modifies vol, path
    ensures overrun == (|p| + ReachEntry(vol.w, rest[0], old(vol.calls)) > path.Length)
    ensures !overrun ==>
              var (r, s, c) := Delete(vol.w, rest[0], old(vol.calls));
              Prefixed(path, p) && fr == r && vol.calls == c &&
              vol.root == Replace(root0, comps, Dir(n0.rdo, done + [s] + rest[1..]))
    decreases n0, 0
  {
    hide WellFormed, PrunedSlots, Parse, Progress, Empty, EmptyPath, EmptyDir, Replace, Lookup, Unlink;
    hide ReachDir, ReachPath;
    fr, overrun := FR_OK, i + |name| >= path.Length;
    if overrun { return; }
    ghost var root, w, tail := vol.root, vol.w, rest[1..];
    ghost var child := p + "/" + name;
    ghost var node := rest[0].node;
    ValidAhead(w, root0, root, comps, n0, done, rest);
    CopyName(path, i, name, p);
    ChildPath(w, root0, root, comps, n0, done, rest, p, node);
    ghost var m := node;
    if isDir {
      ChildEmptied(w, root0, root, comps, n0, done, rest, p, vol.calls);
      m := EmptyDir(w, node, vol.calls).1;
      EmptyDirPrunes(w, node, vol.calls);
      ChildReach(w, root, comps + [name], child, node, vol.calls);
      fr, overrun := EmptyDirectory(vol, path, child);
      if overrun { return; }
    } else {
      PrunedSelf(node);
      SameSlot(w, root0, root, comps, n0, done, rest);
    }
    assert vol.root == Replace(root0, comps, Dir(n0.rdo, done + [Used(name, m)] + tail));
    KeptPrefix(path, p, child);
    if fr != FR_OK { return; }
    Advance(w, root0, root, vol.root, comps, n0, done, rest, Used(name, m));
    UnlinkChild(w, root0, vol.root, comps, n0, done, [Used(name, m)] + tail, p);
    assert ([Used(name, m)] + tail)[1..] == tail;
    var len := TextLength(path, child);
    fr := vol.Remove(path[..len]);
  }

  /** A name with its terminator goes behind the separator. */
  method CopyName(path: array<char>, i: nat, name: Name, ghost p: string)
    requires i == |p| + 1 && i + |name| < path.Length && path[..|p|] == p && path[|p|] == '/'
    requires '\0' !in p && '\0' !in name
    modifies path
    ensures Holds(path, p + "/" + name)
  {
    var j := 0;
    while j < |name|
      invariant j <= |name|
      invariant path[..|p|] == p && path[|p|] == '/' && path[i..i + j] == name[..j]
    {
      path[i + j] := name[j];
      j := j + 1;
    }
    path[i + j] := '\0';
    assert path[..i + j] == path[..|p|] + [path[|p|]] + path[i..i + j];
  }

  method TextLength(path: array<char>, ghost p: string) returns (i: nat)
    requires Holds(path, p)
    ensures i == |p|
  {
    i := 0;
    assert forall k :: 0 <= k < |p| ==> path[..|p|][k] in p;
    while path[i] != '\0'
      invariant i <= |p|
      decreases |p| - i
    {
      i := i + 1;
    }
  }

  // ---------------------------------------------------------------- facts used by the loop

  lemma ChildEmptied(w: World, root0: Node, root: Node, comps: seq<Name>, n0: Node,
                     done: seq<Slot>, rest: seq<Slot>, p: string, calls: nat)
    requires Progress(w, root0, root, comps, n0, done, rest) && Parse(p) == Some(comps)
    requires |rest| > 0 && rest[0].Used? && rest[0].node.Dir?
    ensures var (r, m, c) := EmptyDir(w, rest[0].node, calls);
            EmptyPath(w, root, p + "/" + rest[0].name, calls) ==
            (r, Replace(root0, comps, Dir(n0.rdo, done + [Used(rest[0].name, m)] + rest[1..])), c)
  {
    var (r, m, c) := EmptyDir(w, rest[0].node, calls);
    ChildPath(w, root0, root, comps, n0, done, rest, p, m);
    hide Parse, Lookup, Replace;
    if w.fault(calls + 1) != FR_OK {
      assert m == rest[0].node;
      SameSlot(w, root0, root, comps, n0, done, rest);
    }
  }

  lemma PathGoal(w: World, root0: Node, p: string, calls: nat, comps: seq<Name>, n0: Node)
    requires w.fault(calls + 1) == FR_OK && Parse(p) == Some(comps) && Lookup(root0, comps) == Some(n0) && n0.Dir?
    ensures var goal := Next(w, n0.slots, calls + 1);
            EmptyPath(w, root0, p, calls) == (goal.res, Replace(root0, comps, Dir(n0.rdo, goal.slots)), goal.calls)
  {
  }

  lemma PathRefused(w: World, root0: Node, p: string, calls: nat)
    requires w.fault(calls + 1) != FR_OK || Parse(p).None? || Lookup(root0, Parse(p).value).None? ||
             Lookup(root0, Parse(p).value).value.File?
    ensures var (res, root, c) := EmptyPath(w, root0, p, calls);
            root == root0 && c == calls + 1 &&
            res == if w.fault(calls + 1) != FR_OK then w.fault(calls + 1)
                   else if Parse(p).None? then Refusal(root0, p) else FR_NO_PATH
  {
  }

  lemma ValidAhead(w: World, root0: Node, root: Node, comps: seq<Name>, n0: Node, done: seq<Slot>, rest: seq<Slot>)
    requires Progress(w, root0, root, comps, n0, done, rest)
    ensures Lookup(root0, comps) == Some(n0)
    ensures |rest| > 0 && rest[0].Used? ==> ValidName(rest[0].name)
  {
    ProgressFacts(w, root0, root, comps, n0, done, rest);
    assert |rest| == 0 || (done + rest)[|done|] == rest[0];
  }

  lemma SameSlot(w: World, root0: Node, root: Node, comps: seq<Name>, n0: Node, done: seq<Slot>, rest: seq<Slot>)
    requires Progress(w, root0, root, comps, n0, done, rest) && |rest| > 0
    ensures root == Replace(root0, comps, Dir(n0.rdo, done + [rest[0]] + rest[1..]))
  {
    assert done + [rest[0]] + rest[1..] == done + rest;
  }

  lemma ChildReach(w: World, root: Node, comps: seq<Name>, child: string, node: Node, calls: nat)
    requires Parse(child) == Some(comps) && Lookup(root, comps) == Some(node) && node.Dir?
    ensures ReachPath(w, root, child, calls) == ReachDir(w, node, calls)
  {
  }

  lemma KeptPrefix(path: array<char>, p: string, child: string)
    requires Holds(path, child) && p + "/" <= child && '\0' !in p
    ensures Prefixed(path, p)
  {
    assert path[..|child|][..|p|] == path[..|p|] && child[..|p|] == p && path[..|child|][|p|] == '/';
  }

  /** The loop state in front of a read: `goal` is what the whole table will come to. */
  ghost predicate Awaiting(w: World, root0: Node, root: Node, comps: seq<Name>, n0: Node,
                           done: seq<Slot>, rest: seq<Slot>, calls: nat, goal: Result)
  {
    Progress(w, root0, root, comps, n0, done, rest) && Aligned(n0, |done|, rest) &&
    goal == After(done, Next(w, rest, calls))
  }

  /** The loop state when a read has skipped to the next visible entry, or to the end. */
  ghost predicate Reading(w: World, root0: Node, root: Node, comps: seq<Name>, n0: Node,
                          done: seq<Slot>, rest: seq<Slot>, calls: nat, goal: Result)
  {
    Progress(w, root0, root, comps, n0, done, rest) && Aligned(n0, |done|, rest) &&
    goal == After(done, Purge(w, rest, calls)) && (|rest| > 0 ==> Visible(w, rest[0]))
  }

  lemma StartOfTable(w: World, root0: Node, comps: seq<Name>, n0: Node, calls: nat)
    requires Lookup(root0, comps) == Some(n0) && n0.Dir? && WellFormed(root0)
    ensures Awaiting(w, root0, root0, comps, n0, [], n0.slots, calls, Next(w, n0.slots, calls))
  {
    PrunedSlotsSelf(n0.slots);
    ReplaceSame(root0, comps);
    assert [] + n0.slots == n0.slots == n0.slots[0..];
    assert n0 == Dir(n0.rdo, n0.slots);
    assert [] + Next(w, n0.slots, calls).slots == Next(w, n0.slots, calls).slots;
  }

  /** A read looks at the rest of the table; if it fails the call is over. */
  lemma AwaitingFacts(w: World, root0: Node, root: Node, comps: seq<Name>, n0: Node,
                      done: seq<Slot>, rest: seq<Slot>, calls: nat, goal: Result)
    requires Awaiting(w, root0, root, comps, n0, done, rest, calls, goal)
    ensures Lookup(root, comps) == Some(Dir(n0.rdo, done + rest)) && (done + rest)[|done|..] == rest
    ensures w.fault(calls + 1) != FR_OK ==>
              goal == Result(w.fault(calls + 1), done + rest, calls + 1) &&
              root == Replace(root0, comps, Dir(n0.rdo, goal.slots))
    ensures w.fault(calls + 1) == FR_OK ==>
              var j := SkipTo(w, rest);
              Reading(w, root0, root, comps, n0, done + rest[..j], rest[j..], calls + 1, goal)
  {
    hide WellFormed, Parse, Lookup, Replace, PrunedSlots, Purge;
    ProgressFacts(w, root0, root, comps, n0, done, rest);
    if w.fault(calls + 1) == FR_OK {
      var j := SkipTo(w, rest);
      SkipAhead(w, done, rest, j, calls + 1);
      assert (done + rest[..j]) + rest[j..] == done + rest;
    }
  }

  lemma ReadingFacts(w: World, root0: Node, root: Node, comps: seq<Name>, n0: Node,
                     done: seq<Slot>, rest: seq<Slot>, calls: nat, goal: Result)
    requires Reading(w, root0, root, comps, n0, done, rest, calls, goal)
    ensures rest == [] ==>
              goal == Result(FR_OK, done, calls) && root == Replace(root0, comps, Dir(n0.rdo, goal.slots))
    ensures rest != [] ==>
              |done| < |n0.slots| && rest[0] == n0.slots[|done|] && Visible(w, rest[0]) && rest[0].name != "" &&
              WellFormed(root) && Progress(w, root0, root, comps, n0, done, rest)
  {
    ProgressFacts(w, root0, root, comps, n0, done, rest);
    ValidAhead(w, root0, root, comps, n0, done, rest);
    WellFormedReplaced(root0, comps, Dir(n0.rdo, done + rest));
    assert rest == [] ==> done + rest == done;
  }

  lemma {:induction false} WellFormedReplaced(n: Node, comps: seq<Name>, m: Node)
    requires WellFormed(n) && Lookup(n, comps).Some? && (WellFormed(Lookup(n, comps).value) ==> WellFormed(m))
    ensures WellFormed(Replace(n, comps, m))
    decreases |comps|
  {
    if |comps| != 0 {
      WellFormedReplaced(n.slots[Find(n.slots, comps[0])].node, comps[1..], m);
    }
  }

  lemma PassDot(w: World, root0: Node, root: Node, comps: seq<Name>, n0: Node,
                done: seq<Slot>, rest: seq<Slot>, calls: nat, goal: Result)
    requires Reading(w, root0, root, comps, n0, done, rest, calls, goal)
    requires |rest| > 0 && IsDot(rest[0].name)
    ensures Awaiting(w, root0, root, comps, n0, done + [rest[0]], rest[1..], calls, goal)
  {
    hide WellFormed, Parse, Lookup, Replace, PrunedSlots;
    var head, tail := rest[0], rest[1..];
    var n := Next(w, tail, calls);
    assert done + ([head] + n.slots) == done + [head] + n.slots;
    assert (done + [head]) + tail == done + rest;
  }

  lemma PassEntry(w: World, root0: Node, root: Node, root': Node, comps: seq<Name>, n0: Node,
                  done: seq<Slot>, rest: seq<Slot>, calls: nat, goal: Result)
    requires Reading(w, root0, root, comps, n0, done, rest, calls, goal)
    requires |rest| > 0 && !IsDot(rest[0].name)
    requires root' == Replace(root0, comps, Dir(n0.rdo, done + [Delete(w, rest[0], calls).1] + rest[1..]))
    ensures var (e, slot, c) := Delete(w, rest[0], calls);
            if e != FR_OK then
              goal == Result(e, done + [slot] + rest[1..], c) && root' == Replace(root0, comps, Dir(n0.rdo, goal.slots))
            else Awaiting(w, root0, root', comps, n0, done + [slot], rest[1..], c, goal)
  {
    hide WellFormed, Parse, Lookup, Replace, PrunedSlots, Delete, Progress;
    var (e, slot, c) := Delete(w, rest[0], calls);
    var n := Next(w, rest[1..], c);
    DeletePrunes(w, rest[0], calls);
    Advance(w, root0, root, root', comps, n0, done, rest, slot);
    assert done + ([slot] + n.slots) == done + [slot] + n.slots;
    assert done + ([slot] + rest[1..]) == done + [slot] + rest[1..];
  }
}
