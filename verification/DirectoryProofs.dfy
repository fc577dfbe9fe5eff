/** What emptying a directory achieves, on every tree and under every pattern of failing calls. */
module DirectoryProofs {
  import opened Options
  import opened DirectoryTree

  // ---------------------------------------------------------------- only deletions

  /** `m` is `n` with some objects deleted. */
  predicate Pruned(n: Node, m: Node) {
    if n.File? then m == n
    else m.Dir? && m.rdo == n.rdo && |m.slots| == |n.slots| &&
         forall i :: 0 <= i < |n.slots| ==> PrunedSlot(n.slots[i], m.slots[i])
  }

  predicate PrunedSlot(s: Slot, t: Slot) {
    if s.Deleted? || IsDot(s.name) then t == s
    else t.Deleted? || (t.name == s.name && Pruned(s.node, t.node))
  }

  predicate PrunedSlots(s: seq<Slot>, t: seq<Slot>) {
    |s| == |t| && forall i :: 0 <= i < |s| ==> PrunedSlot(s[i], t[i])
  }

  lemma {:induction false} PrunedSelf(n: Node)
    ensures Pruned(n, n)
    decreases n
  {
    if n.Dir? {
      forall i | 0 <= i < |n.slots| ensures PrunedSlot(n.slots[i], n.slots[i]) {
        PrunedSlotSelf(n.slots[i]);
      }
    }
  }

  lemma {:induction false} PrunedSlotSelf(s: Slot)
    ensures PrunedSlot(s, s)
    decreases s
  {
    if s.Used? { PrunedSelf(s.node); }
  }

  lemma {:induction false} PrunedSlotsSelf(s: seq<Slot>)
    ensures PrunedSlots(s, s)
  {
    forall i | 0 <= i < |s| ensures PrunedSlot(s[i], s[i]) {
      PrunedSlotSelf(s[i]);
    }
  }

  lemma {:induction false} NextPrunes(w: World, slots: seq<Slot>, calls: nat)
    ensures PrunedSlots(slots, Next(w, slots, calls).slots)
    decreases slots, 1
  {
    if w.fault(calls + 1) != 0 { PrunedSlotsSelf(slots); } else { PurgePrunes(w, slots, calls + 1); }
  }

  lemma {:induction false} PurgePrunes(w: World, slots: seq<Slot>, calls: nat)
    ensures PrunedSlots(slots, Purge(w, slots, calls).slots)
    decreases slots, 0
  {
    if |slots| != 0 {
      var head, tail := slots[0], slots[1..];
      assert slots == [head] + tail;
      PrunedSlotSelf(head);
      if !Visible(w, head) {
        PurgePrunes(w, tail, calls);
      } else if IsDot(head.name) {
        NextPrunes(w, tail, calls);
      } else {
        DeletePrunes(w, head, calls);
        var (r, slot, c) := Delete(w, head, calls);
        if r != FR_OK { PrunedSlotsSelf(tail); } else { NextPrunes(w, tail, c); }
      }
    }
  }

  lemma {:induction false} DeletePrunes(w: World, s: Slot, calls: nat)
    requires s.Used? && !IsDot(s.name)
    ensures PrunedSlot(s, Delete(w, s, calls).1)
    decreases s
  {
    PrunedSelf(s.node);
    if s.node.Dir? { EmptyDirPrunes(w, s.node, calls); }
  }

  /** Whatever happens, emptying a directory only deletes objects inside it. */
  lemma {:induction false} EmptyDirPrunes(w: World, n: Node, calls: nat)
    requires n.Dir?
    ensures Pruned(n, EmptyDir(w, n, calls).1)
    decreases n
  {
    if w.fault(calls + 1) != 0 { PrunedSelf(n); } else { NextPrunes(w, n.slots, calls + 1); }
  }

  /** Deleting objects keeps a tree well formed. */
  lemma {:induction false} PrunedWellFormed(n: Node, m: Node)
    requires WellFormed(n) && Pruned(n, m)
    ensures WellFormed(m)
    decreases n
  {
    if n.Dir? {
      forall i | 0 <= i < |m.slots| && m.slots[i].Used?
        ensures ValidName(m.slots[i].name) && WellFormed(m.slots[i].node) && n.slots[i].Used? &&
                n.slots[i].name == m.slots[i].name
      {
        assert PrunedSlot(n.slots[i], m.slots[i]);
        if !IsDot(n.slots[i].name) { PrunedWellFormed(n.slots[i].node, m.slots[i].node); }
      }
    }
  }

  // ---------------------------------------------------------------- success means empty

  lemma {:induction false} NextEmpties(w: World, slots: seq<Slot>, calls: nat)
    requires Next(w, slots, calls).res == FR_OK
    ensures Blank(Next(w, slots, calls).slots)
    decreases slots, 1
  {
    PurgeEmpties(w, slots, calls + 1);
  }

  lemma {:induction false} PurgeEmpties(w: World, slots: seq<Slot>, calls: nat)
    requires Purge(w, slots, calls).res == FR_OK
    ensures Blank(Purge(w, slots, calls).slots)
    decreases slots, 0
  {
    if |slots| != 0 {
      var head, tail := slots[0], slots[1..];
      if !Visible(w, head) {
        PurgeEmpties(w, tail, calls);
      } else if IsDot(head.name) {
        NextEmpties(w, tail, calls);
      } else {
        NextEmpties(w, tail, Delete(w, head, calls).2);
      }
    }
  }

  /** When a directory is emptied successfully nothing but dot entries is left in it. */
  lemma SuccessEmpties(w: World, n: Node, calls: nat)
    requires n.Dir? && EmptyDir(w, n, calls).0 == FR_OK
    ensures Empty(EmptyDir(w, n, calls).1)
  {
    NextEmpties(w, n.slots, calls + 1);
  }

  // ---------------------------------------------------------------- success, exactly

  /** Something in the table (dot entries aside) is read-only, at any depth. */
  predicate Protected(slots: seq<Slot>) {
    exists i :: 0 <= i < |slots| && ProtectedSlot(slots[i])
  }

  predicate ProtectedSlot(s: Slot) {
    s.Used? && !IsDot(s.name) && (s.node.rdo || (s.node.Dir? && Protected(s.node.slots)))
  }

  ghost predicate Faultless(w: World) {
    forall k: nat :: w.fault(k) == 0
  }

  lemma {:induction false} NextSucceeds(w: World, slots: seq<Slot>, calls: nat)
    requires Faultless(w)
    ensures Next(w, slots, calls).res == (if Protected(slots) then FR_DENIED else FR_OK)
    decreases slots, 1
  {
    PurgeSucceeds(w, slots, calls + 1);
  }

  lemma ProtectedHead(slots: seq<Slot>)
    requires |slots| > 0
    ensures Protected(slots) <==> ProtectedSlot(slots[0]) || Protected(slots[1..])
  {
    if Protected(slots) {
      var i :| 0 <= i < |slots| && ProtectedSlot(slots[i]);
      if i > 0 { assert ProtectedSlot(slots[1..][i - 1]); }
    }
    if Protected(slots[1..]) {
      var i :| 0 <= i < |slots[1..]| && ProtectedSlot(slots[1..][i]);
      assert ProtectedSlot(slots[i + 1]);
    }
  }

  lemma {:induction false} PurgeSucceeds(w: World, slots: seq<Slot>, calls: nat)
    requires Faultless(w)
    ensures Purge(w, slots, calls).res == (if Protected(slots) then FR_DENIED else FR_OK)
    decreases slots, 0
  {
    if |slots| != 0 {
      var head, tail := slots[0], slots[1..];
      ProtectedHead(slots);
      if !Visible(w, head) {
        PurgeSucceeds(w, tail, calls);
      } else if IsDot(head.name) {
        NextSucceeds(w, tail, calls);
      } else {
        DeleteSucceeds(w, head, calls);
        NextSucceeds(w, tail, Delete(w, head, calls).2);
      }
    }
  }

  lemma {:induction false} DeleteSucceeds(w: World, s: Slot, calls: nat)
    requires Faultless(w) && s.Used? && !IsDot(s.name)
    ensures Delete(w, s, calls).0 == (if ProtectedSlot(s) then FR_DENIED else FR_OK)
    decreases s
  {
    if s.node.Dir? {
      EmptyDirSucceeds(w, s.node, calls);
      if EmptyDir(w, s.node, calls).0 == FR_OK { SuccessEmpties(w, s.node, calls); }
    }
  }

  /** If no call fails, a directory is emptied exactly when nothing inside it is read-only. */
  lemma {:induction false} EmptyDirSucceeds(w: World, n: Node, calls: nat)
    requires Faultless(w) && n.Dir?
    ensures EmptyDir(w, n, calls).0 == (if Protected(n.slots) then FR_DENIED else FR_OK)
    decreases n
  {
    NextSucceeds(w, n.slots, calls + 1);
  }

  // ---------------------------------------------------------------- how far the path reaches

  lemma {:induction false} ReachNextFull(w: World, slots: seq<Slot>, calls: nat)
    ensures ReachNext(w, slots, calls) <= RoomSlots(slots)
    ensures Faultless(w) && !Protected(slots) ==> ReachNext(w, slots, calls) == RoomSlots(slots)
    decreases slots, 1
  {
    ReachPurgeFull(w, slots, calls + 1);
  }

  lemma {:induction false} ReachPurgeFull(w: World, slots: seq<Slot>, calls: nat)
    ensures ReachPurge(w, slots, calls) <= RoomSlots(slots)
    ensures Faultless(w) && !Protected(slots) ==> ReachPurge(w, slots, calls) == RoomSlots(slots)
    decreases slots, 0
  {
    hide Protected;
    if |slots| != 0 {
      var head, tail := slots[0], slots[1..];
      ProtectedHead(slots);
      if !Visible(w, head) {
        ReachPurgeFull(w, tail, calls);
      } else if IsDot(head.name) {
        ReachNextFull(w, tail, calls);
      } else {
        if head.node.Dir? { ReachDirFull(w, head.node, calls); }
        if Faultless(w) { DeleteSucceeds(w, head, calls); }
        ReachNextFull(w, tail, Delete(w, head, calls).2);
      }
    }
  }

  /** Emptying a directory never needs more room than its deepest path; when no call fails and nothing inside is
      read-only it needs exactly that. */
  lemma {:induction false} ReachDirFull(w: World, n: Node, calls: nat)
    requires n.Dir?
    ensures ReachDir(w, n, calls) <= Room(n)
    ensures Faultless(w) && !Protected(n.slots) ==> ReachDir(w, n, calls) == Room(n)
    decreases n
  {
    ReachNextFull(w, n.slots, calls + 1);
  }

  /** The whole call, when no call fails and nothing inside the directory is read-only: the path buffer has to hold
      the deepest path below it. */
  lemma ReachPathFull(w: World, root: Node, p: string, calls: nat)
    requires Faultless(w) && Parse(p).Some? && Lookup(root, Parse(p).value).Some?
    requires var n := Lookup(root, Parse(p).value).value; n.Dir? && !Protected(n.slots)
    ensures ReachPath(w, root, p, calls) == Room(Lookup(root, Parse(p).value).value)
  {
    hide Parse, Lookup, Protected, ReachDir, Room;
    ReachDirFull(w, Lookup(root, Parse(p).value).value, calls);
  }

  /** `k` directories inside one another, with names of twelve characters. */
  function Nest(k: nat): (n: Node)
    ensures n.Dir?
    decreases k
  {
    Dir(false, if k == 0 then [] else [Used("ARCHIVES.DIR", Nest(k - 1))])
  }

  lemma {:induction false} NestRoom(k: nat)
    ensures WellFormed(Nest(k)) && !Protected(Nest(k).slots) && Room(Nest(k)) == 13 * k + 1
    decreases k
  {
    if k != 0 {
      NestRoom(k - 1);
      var slots := Nest(k).slots;
      assert slots[1..] == [] && !ProtectedSlot(slots[0]);
      assert RoomSlots(slots) == 1 + 12 + Room(Nest(k - 1));
      hide Room, RoomSlots, Protected;
    }
  }

  /** Emptying the root with the 64-byte buffer of the example program: four such directories fit, five overrun it. */
  lemma DeepTreeExample(w: World, k: nat, calls: nat)
    requires Faultless(w)
    ensures WellFormed(Nest(k)) && (|"/"| + ReachPath(w, Nest(k), "/", calls) > 64 <==> k >= 5)
  {
    NestRoom(k);
    assert Parse("/") == Some([]) && Lookup(Nest(k), []) == Some(Nest(k));
    ReachPathFull(w, Nest(k), "/", calls);
    hide Room, ReachPath, WellFormed;
  }

  // ---------------------------------------------------------------- paths

  lemma {:induction false} StripAppend(p: string, x: string)
    requires StripSeparators(p) != ""
    ensures StripSeparators(p + x) == StripSeparators(p) + x
    decreases |p|
  {
    if Separator(p[0]) {
      assert (p + x)[1..] == p[1..] + x;
      StripAppend(p[1..], x);
    }
  }

  lemma {:induction false} SegmentAppend(q: string, x: string)
    requires |x| > 0 && Separator(x[0])
    ensures SegmentLength(q + x) == SegmentLength(q)
    decreases |q|
  {
    if |q| == 0 {
      assert q + x == x;
    } else if !Separator(q[0]) {
      assert (q + x)[1..] == q[1..] + x;
      SegmentAppend(q[1..], x);
    }
  }

  lemma {:induction false} SegmentWhole(name: Name)
    requires forall c :: c in name ==> !Separator(c)
    ensures SegmentLength(name) == |name|
    decreases |name|
  {
    if |name| > 0 {
      assert name[0] in name;
      forall c | c in name[1..] ensures !Separator(c) { assert c in name; }
      SegmentWhole(name[1..]);
    }
  }

  lemma OneSegment(name: Name)
    requires ValidName(name)
    ensures Segments(name) == Some([name])
  {
    assert name[0] in name;
    SegmentWhole(name);
  }

  /** The first segment of a path is not affected by what is appended behind a separator. */
  lemma FirstSegment(p: string, x: string)
    requires Segments(p).Some? && |x| > 0 && Separator(x[0])
    ensures var q := StripSeparators(p);
            var n := SegmentLength(q);
            var rest := Segments((q + x)[n + 1..]);
            Segments(p + x) == if rest.None? then None else Some([q[..n]] + rest.value)
  {
    var q := StripSeparators(p);
    StripAppend(p, x);
    SegmentAppend(q, x);
    assert (q + x)[..SegmentLength(q)] == q[..SegmentLength(q)];
    hide StripSeparators, SegmentLength, Separator;
  }

  lemma {:induction false} SegmentsAppend(p: string, name: Name)
    requires ValidName(name) && Segments(p).Some?
    ensures Segments(p + "/" + name) == Some(Segments(p).value + [name])
    decreases |p|
  {
    hide StripSeparators, SegmentLength, ValidName;
    var q, x := StripSeparators(p), "/" + name;
    var n := SegmentLength(q);
    assert p + "/" + name == p + x;
    FirstSegment(p, x);
    if n == |q| {
      assert (q + x)[n + 1..] == name && q[..n] == q;
      OneSegment(name);
    } else {
      var tail := Segments(q[n + 1..]).value;
      assert (q + x)[n + 1..] == q[n + 1..] + "/" + name;
      SegmentsAppend(q[n + 1..], name);
      assert [q[..n]] + (tail + [name]) == ([q[..n]] + tail) + [name];
    }
  }

  /** Appending a separator and a name to a path names the child. */
  lemma ParseAppend(p: string, name: Name)
    requires ValidName(name) && Parse(p).Some?
    ensures Parse(p + "/" + name) == Some(Parse(p).value + [name])
  {
    var full := p + "/" + name;
    assert name[0] in name;
    if |p| == 0 {
      assert full == "/" + name && full[1..] == name && [] + [name] == [name];
      OneSegment(name);
    } else if Separator(p[0]) {
      assert full[1..] == p[1..] + "/" + name;
      if |p| == 1 {
        var q := "/" + name;
        assert full[1..] == q && q[1..] == name && StripSeparators(q) == StripSeparators(name) == name;
        assert Parse(p) == Some([]) && [] + [name] == [name];
        OneSegment(name);
      } else {
        SegmentsAppend(p[1..], name);
      }
    } else {
      SegmentsAppend(p, name);
    }
  }

  // ---------------------------------------------------------------- trees

  lemma {:induction false} FindUpdate(slots: seq<Slot>, name: Name, m: Node)
    requires Find(slots, name) < |slots|
    ensures Find(slots[Find(slots, name) := Used(name, m)], name) == Find(slots, name)
    decreases |slots|
  {
    if !(slots[0].Used? && slots[0].name == name) {
      var k := Find(slots, name);
      assert slots[k := Used(name, m)][1..] == slots[1..][k - 1 := Used(name, m)];
      FindUpdate(slots[1..], name, m);
    }
  }

  lemma {:induction false} FindFirst(slots: seq<Slot>, k: nat)
    requires k < |slots| && slots[k].Used?
    requires forall i :: 0 <= i < k && slots[i].Used? ==> slots[i].name != slots[k].name
    ensures Find(slots, slots[k].name) == k
    decreases |slots|
  {
    if k > 0 {
      assert slots[1..][k - 1] == slots[k];
      FindFirst(slots[1..], k - 1);
    }
  }

  lemma {:induction false} FindOther(slots: seq<Slot>, name: Name, other: Name, m: Node)
    requires Find(slots, name) < |slots| && name != other
    ensures Find(slots[Find(slots, name) := Used(name, m)], other) == Find(slots, other)
    decreases |slots|
  {
    var k := Find(slots, name);
    if k > 0 {
      assert slots[k := Used(name, m)][1..] == slots[1..][k - 1 := Used(name, m)];
      FindOther(slots[1..], name, other, m);
    } else {
      assert slots[k := Used(name, m)][1..] == slots[1..];
    }
  }

  lemma {:induction false} LookupReplaced(n: Node, comps: seq<Name>, m: Node)
    requires Lookup(n, comps).Some?
    ensures Lookup(Replace(n, comps, m), comps) == Some(m)
    decreases |comps|
  {
    if |comps| != 0 {
      var i := Find(n.slots, comps[0]);
      FindUpdate(n.slots, comps[0], Replace(n.slots[i].node, comps[1..], m));
      LookupReplaced(n.slots[i].node, comps[1..], m);
    }
  }

  lemma {:induction false} ReplaceAgain(n: Node, comps: seq<Name>, a: Node, b: Node)
    requires Lookup(n, comps).Some?
    ensures Lookup(Replace(n, comps, a), comps).Some?
    ensures Replace(Replace(n, comps, a), comps, b) == Replace(n, comps, b)
    decreases |comps|
  {
    LookupReplaced(n, comps, a);
    if |comps| != 0 {
      var i := Find(n.slots, comps[0]);
      FindUpdate(n.slots, comps[0], Replace(n.slots[i].node, comps[1..], a));
      ReplaceAgain(n.slots[i].node, comps[1..], a, b);
    }
  }

  lemma {:induction false} ReplaceSame(n: Node, comps: seq<Name>)
    requires Lookup(n, comps).Some?
    ensures Replace(n, comps, Lookup(n, comps).value) == n
    decreases |comps|
  {
    if |comps| != 0 {
      ReplaceSame(n.slots[Find(n.slots, comps[0])].node, comps[1..]);
    }
  }

  /** A child of the directory at `comps`, reached by its name. */
  lemma {:induction false} ChildAt(n: Node, comps: seq<Name>, name: Name, m: Node)
    requires Lookup(n, comps).Some? && Lookup(n, comps).value.Dir?
    requires Find(Lookup(n, comps).value.slots, name) < |Lookup(n, comps).value.slots|
    ensures var d := Lookup(n, comps).value; var k := Find(d.slots, name);
            Lookup(n, comps + [name]) == Some(d.slots[k].node) &&
            Replace(n, comps + [name], m) == Replace(n, comps, Dir(d.rdo, d.slots[k := Used(name, m)]))
    decreases |comps|
  {
    if |comps| == 0 {
      assert comps + [name] == [name] && [name][1..] == [];
      var k := Find(n.slots, name);
      assert Lookup(n.slots[k].node, []) == Some(n.slots[k].node);
    } else {
      assert (comps + [name])[1..] == comps[1..] + [name];
      ChildAt(n.slots[Find(n.slots, comps[0])].node, comps[1..], name, m);
    }
  }

  /** Objects that do not lie on the way to `comps` or below it are found unchanged. */
  lemma {:induction false} OutsideKept(n: Node, comps: seq<Name>, m: Node, other: seq<Name>)
    requires Lookup(n, comps).Some? && !(comps <= other) && !(other <= comps)
    ensures Lookup(Replace(n, comps, m), other) == Lookup(n, other)
    decreases |comps|
  {
    var i := Find(n.slots, comps[0]);
    var r := Replace(n.slots[i].node, comps[1..], m);
    if comps[0] == other[0] {
      FindUpdate(n.slots, comps[0], r);
      assert comps == [comps[0]] + comps[1..] && other == [other[0]] + other[1..];
      OutsideKept(n.slots[i].node, comps[1..], m, other[1..]);
    } else {
      FindOther(n.slots, comps[0], other[0], r);
    }
  }

  lemma {:induction false} WellFormedAt(n: Node, comps: seq<Name>)
    requires WellFormed(n) && Lookup(n, comps).Some?
    ensures WellFormed(Lookup(n, comps).value)
    decreases |comps|
  {
    if |comps| != 0 {
      WellFormedAt(n.slots[Find(n.slots, comps[0])].node, comps[1..]);
    }
  }

  /** The call as a whole: outside the named directory nothing changes, and inside objects only vanish. */
  lemma EmptyPathFrame(w: World, root: Node, p: string, calls: nat, other: seq<Name>)
    ensures var (res, root', _) := EmptyPath(w, root, p, calls);
            var target := Parse(p);
            if target.Some? && Lookup(root, target.value).Some? then
              (!(target.value <= other) && !(other <= target.value) ==> Lookup(root', other) == Lookup(root, other)) &&
              Lookup(root', target.value).Some? &&
              Pruned(Lookup(root, target.value).value, Lookup(root', target.value).value) &&
              (res == FR_OK ==> Empty(Lookup(root', target.value).value))
            else root' == root && res != FR_OK
  {
    var target := Parse(p);
    if target.Some? && Lookup(root, target.value).Some? {
      var n := Lookup(root, target.value).value;
      PrunedSelf(n);
      if n.Dir? {
        var (res, m, _) := EmptyDir(w, n, calls);
        EmptyDirPrunes(w, n, calls);
        LookupReplaced(root, target.value, m);
        if res == FR_OK { SuccessEmpties(w, n, calls); }
        if !(target.value <= other) && !(other <= target.value) {
          OutsideKept(root, target.value, m, other);
        }
      }
    }
  }
}
