/** What a failing call does to the emptying of a directory, and which calls a run makes. */
module DirectoryFaults {
  import opened Options
  import opened DirectoryTree
  import opened DirectoryProofs
  import opened DirectoryCleaner

  // ---------------------------------------------------------------- the first failing call ends the run

  /** Of the calls `from + 1 .. to` only the last one may have failed, and then the run answers its error. */
  ghost predicate EndsAtFault(w: World, from: nat, to: nat, res: nat) {
    from <= to && forall k :: from < k <= to && w.fault(k) != 0 ==> k == to && res == w.fault(k)
  }

  lemma FaultsChain(w: World, a: nat, b: nat, c: nat, res: nat)
    requires EndsAtFault(w, a, b, FR_OK) && EndsAtFault(w, b, c, res)
    ensures EndsAtFault(w, a, c, res)
  {
  }

  lemma {:induction false} NextFaults(w: World, slots: seq<Slot>, calls: nat)
    ensures EndsAtFault(w, calls, Next(w, slots, calls).calls, Next(w, slots, calls).res)
    ensures calls < Next(w, slots, calls).calls
    decreases slots, 1
  {
    if w.fault(calls + 1) == 0 {
      PurgeFaults(w, slots, calls + 1);
      FaultsChain(w, calls, calls + 1, Purge(w, slots, calls + 1).calls, Purge(w, slots, calls + 1).res);
    }
  }

  lemma {:induction false} PurgeFaults(w: World, slots: seq<Slot>, calls: nat)
    ensures EndsAtFault(w, calls, Purge(w, slots, calls).calls, Purge(w, slots, calls).res)
    decreases slots, 0
  {
    if |slots| != 0 {
      var head, tail := slots[0], slots[1..];
      if !Visible(w, head) {
        PurgeFaults(w, tail, calls);
      } else if IsDot(head.name) {
        NextFaults(w, tail, calls);
      } else {
        DeleteFaults(w, head, calls);
        var (r, slot, c) := Delete(w, head, calls);
        if r == FR_OK {
          NextFaults(w, tail, c);
          FaultsChain(w, calls, c, Next(w, tail, c).calls, Next(w, tail, c).res);
        }
      }
    }
  }

  lemma {:induction false} DeleteFaults(w: World, s: Slot, calls: nat)
    requires s.Used?
    ensures EndsAtFault(w, calls, Delete(w, s, calls).2, Delete(w, s, calls).0)
    decreases s
  {
    if s.node.Dir? {
      EmptyDirFaults(w, s.node, calls);
      var (r, _, c) := EmptyDir(w, s.node, calls);
      if r == FR_OK { FaultsChain(w, calls, c, Delete(w, s, calls).2, Delete(w, s, calls).0); }
    }
  }

  /** The first call that fails, at whatever depth, ends the run, and the run answers its error. */
  lemma {:induction false} EmptyDirFaults(w: World, n: Node, calls: nat)
    requires n.Dir?
    ensures var (res, _, c) := EmptyDir(w, n, calls);
            calls < c && forall k :: calls < k <= c && w.fault(k) != 0 ==> k == c && res == w.fault(k)
    decreases n
  {
    if w.fault(calls + 1) == 0 {
      NextFaults(w, n.slots, calls + 1);
      FaultsChain(w, calls, calls + 1, Next(w, n.slots, calls + 1).calls, Next(w, n.slots, calls + 1).res);
    }
  }

  /** The same for the whole call, and what it answers when the directory cannot be opened: the error of the call; 5
      when there is no directory of that name; 6 for a path with an empty name, if the names before it lead to a
      directory. */
  lemma EmptyPathFaults(w: World, root: Node, p: string, calls: nat)
    ensures var (res, _, c) := EmptyPath(w, root, p, calls);
            calls < c && forall k :: calls < k <= c && w.fault(k) != 0 ==> k == c && res == w.fault(k)
    ensures var target := Parse(p);
            var n := if target.Some? then Lookup(root, target.value) else None;
            w.fault(calls + 1) != 0 || n.None? || n.value.File? ==>
              EmptyPath(w, root, p, calls) ==
              (if w.fault(calls + 1) != 0 then w.fault(calls + 1) else if target.None? then Refusal(root, p) else 5,
               root, calls + 1)
  {
    var target := Parse(p);
    if target.Some? && Lookup(root, target.value).Some? && Lookup(root, target.value).value.Dir? {
      EmptyDirFaults(w, Lookup(root, target.value).value, calls);
    }
  }

  // ---------------------------------------------------------------- how far a run comes

  /** A slot dealt with: its object is deleted if it is shown and not a dot entry. */
  function Cleared(w: World, s: Slot): Slot {
    if s.Used? && Visible(w, s) && !IsDot(s.name) then Deleted else s
  }

  /** The slots before `i` are dealt with, those behind it are untouched. */
  predicate ClearedTo(w: World, before: seq<Slot>, after: seq<Slot>, i: nat) {
    |after| == |before| && i <= |before| &&
    (forall j :: 0 <= j < i ==> after[j] == Cleared(w, before[j])) &&
    (forall j :: i < j < |before| ==> after[j] == before[j])
  }

  /** What an answer other than success may be: the error of the last call, or 7 for a refused deletion. */
  predicate Answers(w: World, r: Result) {
    r.res == FR_OK || (r.calls > 0 && w.fault(r.calls) != 0 && r.res == w.fault(r.calls)) || r.res == 7
  }

  lemma ClearedMore(w: World, before: seq<Slot>, s: Slot, after: seq<Slot>, i: nat)
    requires |before| > 0 && ClearedTo(w, before[1..], after, i) && s == Cleared(w, before[0])
    ensures ClearedTo(w, before, [s] + after, i + 1)
  {
    forall j | 0 <= j < i + 1 ensures ([s] + after)[j] == Cleared(w, before[j]) {
      if j > 0 { assert before[j] == before[1..][j - 1]; }
    }
    forall j | i + 1 < j < |before| ensures ([s] + after)[j] == before[j] {
      assert before[j] == before[1..][j - 1];
    }
  }

  lemma {:induction false} NextReaches(w: World, slots: seq<Slot>, calls: nat) returns (i: nat)
    ensures ClearedTo(w, slots, Next(w, slots, calls).slots, i)
    ensures Next(w, slots, calls).res == FR_OK ==> i == |slots|
    ensures Answers(w, Next(w, slots, calls))
    decreases slots, 1
  {
    if w.fault(calls + 1) != 0 { i := 0; } else { i := PurgeReaches(w, slots, calls + 1); }
  }

  lemma {:induction false} PurgeReaches(w: World, slots: seq<Slot>, calls: nat) returns (i: nat)
    ensures ClearedTo(w, slots, Purge(w, slots, calls).slots, i)
    ensures Purge(w, slots, calls).res == FR_OK ==> i == |slots|
    ensures Answers(w, Purge(w, slots, calls))
    decreases slots, 0
  {
    if |slots| == 0 {
      i := 0;
    } else {
      var head, tail := slots[0], slots[1..];
      if !Visible(w, head) {
        var k := PurgeReaches(w, tail, calls);
        ClearedMore(w, slots, head, Purge(w, tail, calls).slots, k);
        i := k + 1;
      } else if IsDot(head.name) {
        var k := NextReaches(w, tail, calls);
        ClearedMore(w, slots, head, Next(w, tail, calls).slots, k);
        i := k + 1;
      } else {
        DeleteReaches(w, head, calls);
        var (r, slot, c) := Delete(w, head, calls);
        if r != FR_OK {
          i := 0;
        } else {
          var k := NextReaches(w, tail, c);
          ClearedMore(w, slots, slot, Next(w, tail, c).slots, k);
          i := k + 1;
        }
      }
    }
  }

  lemma {:induction false} DeleteReaches(w: World, s: Slot, calls: nat)
    requires s.Used?
    ensures var (r, slot, c) := Delete(w, s, calls);
            (r == FR_OK ==> slot == Deleted) &&
            (r == FR_OK || (c > 0 && w.fault(c) != 0 && r == w.fault(c)) || r == 7)
    decreases s
  {
    if s.node.Dir? {
      var _ := EmptyDirReaches(w, s.node, calls);
      EmptyDirFaults(w, s.node, calls);
    }
  }

  /** However a run ends: the entries before some place are deleted, dot and hidden entries aside, those behind it are
      untouched, and on success that place is the end.  A run fails with the error of its last call, or with 7 when
      that call was refused. */
  lemma {:induction false} EmptyDirReaches(w: World, n: Node, calls: nat) returns (i: nat)
    requires n.Dir?
    ensures var (res, m, c) := EmptyDir(w, n, calls);
            m.Dir? && m.rdo == n.rdo && ClearedTo(w, n.slots, m.slots, i) && (res == FR_OK ==> i == |n.slots|) &&
            (res == FR_OK || (w.fault(c) != 0 && res == w.fault(c)) || res == 7)
    decreases n
  {
    if w.fault(calls + 1) != 0 { i := 0; } else { i := NextReaches(w, n.slots, calls + 1); }
  }

  // ---------------------------------------------------------------- how many calls a run makes

  /** Objects below a directory that are to be deleted, at any depth. */
  function Objects(slots: seq<Slot>, w: World): nat {
    if |slots| == 0 then 0 else
    var head := slots[0];
    Objects(slots[1..], w) +
    if !head.Used? || IsDot(head.name) then 0 else 1 + if head.node.Dir? then Objects(head.node.slots, w) else 0
  }

  /** Directories among them. */
  function Directories(slots: seq<Slot>): nat {
    if |slots| == 0 then 0 else
    var head := slots[0];
    Directories(slots[1..]) +
    if !head.Used? || IsDot(head.name) || head.node.File? then 0 else 1 + Directories(head.node.slots)
  }

  /** Dot entries that are shown, in the directory and in those below it. */
  function Dots(slots: seq<Slot>, w: World): nat {
    if |slots| == 0 then 0 else
    var head := slots[0];
    Dots(slots[1..], w) +
    if !head.Used? then 0 else if IsDot(head.name) then (if w.rpath then 1 else 0)
    else if head.node.Dir? then Dots(head.node.slots, w) else 0
  }

  /** The calls for a table: an open and a last read for every directory inside, a read and a deletion for every object,
      a read for every dot entry shown. */
  function Work(slots: seq<Slot>, w: World): nat {
    2 * Directories(slots) + 2 * Objects(slots, w) + Dots(slots, w)
  }

  lemma {:induction false} NextWorks(w: World, slots: seq<Slot>, calls: nat)
    requires Faultless(w) && !Protected(slots)
    ensures Next(w, slots, calls).calls == calls + 1 + Work(slots, w)
    decreases slots, 1
  {
    PurgeWorks(w, slots, calls + 1);
  }

  lemma {:induction false} PurgeWorks(w: World, slots: seq<Slot>, calls: nat)
    requires Faultless(w) && !Protected(slots)
    ensures Purge(w, slots, calls).calls == calls + Work(slots, w)
    decreases slots, 0
  {
    if |slots| != 0 {
      var head, tail := slots[0], slots[1..];
      ProtectedHead(slots);
      if !Visible(w, head) {
        PurgeWorks(w, tail, calls);
      } else if IsDot(head.name) {
        NextWorks(w, tail, calls);
      } else {
        DeleteSucceeds(w, head, calls);
        if head.node.Dir? {
          EmptyDirSucceeds(w, head.node, calls);
          EmptyDirWorks(w, head.node, calls);
        }
        NextWorks(w, tail, Delete(w, head, calls).2);
      }
    }
  }

  /** Without failing calls and read-only objects a run makes one call to open each directory, one read for each entry
      shown and one for the end of each table, and one deletion for each object. */
  lemma {:induction false} EmptyDirWorks(w: World, n: Node, calls: nat)
    requires Faultless(w) && n.Dir? && !Protected(n.slots)
    ensures EmptyDir(w, n, calls).2 ==
            calls + 2 + 2 * Directories(n.slots) + 2 * Objects(n.slots, w) + Dots(n.slots, w)
    decreases n
  {
    NextWorks(w, n.slots, calls + 1);
  }

  /** A read-only file is refused by the third call, after the opening and one read; a read-only directory is emptied
      first, so that its file is gone when it is refused by the seventh. */
  lemma DenialExample(w: World)
    requires Faultless(w)
    ensures EmptyDir(w, Dir(false, [Used("A", File(true))]), 0) == (7, Dir(false, [Used("A", File(true))]), 3)
    ensures EmptyDir(w, Dir(false, [Used("B", Dir(true, [Used("C", File(false))])), Deleted]), 0) ==
            (7, Dir(false, [Used("B", Dir(true, [Deleted])), Deleted]), 7)
  {
    var a, c := Used("A", File(true)), Used("C", File(false));
    assert Delete(w, a, 2) == (7, a, 3) && Delete(w, c, 4) == (0, Deleted, 5);
    assert Purge(w, [a], 2) == Result(7, [a], 3);
    assert [c][1..] == [] && Next(w, [], 5) == Result(0, [], 6);
    assert Purge(w, [c], 4) == Result(0, [Deleted], 6);
    var d, m := Dir(true, [c]), Dir(true, [Deleted]);
    assert EmptyDir(w, d, 2) == (0, m, 6);
    assert Delete(w, Used("B", d), 2) == (7, Used("B", m), 7);
    assert [Used("B", d), Deleted][1..] == [Deleted];
    assert Purge(w, [Used("B", d), Deleted], 2) == Result(7, [Used("B", m), Deleted], 7);
  }

  // ---------------------------------------------------------------- paths

  lemma OneName(name: Name, rest: string)
    requires |name| == 1 && !Separator(name[0])
    ensures Segments(name) == Some([name]) && Segments("/" + name) == Some([name])
    ensures Segments(name + "/" + rest) == if Segments(rest).None? then None else Some([name] + Segments(rest).value)
    ensures Leading(name + "/" + rest) == [name] + Leading(rest) && Leading(name) == [name]
  {
    var p := name + "/" + rest;
    assert SegmentLength(p[1..]) == 0 && SegmentLength(name[1..]) == 0;
    assert p[..1] == name && p[2..] == rest;
    assert StripSeparators("/" + name) == StripSeparators(name) by { assert ("/" + name)[1..] == name; }
  }

  lemma Emptiness()
    ensures Segments("") == None && Segments("/") == None && Leading("") == [] && Leading("/") == []
  {
    assert StripSeparators("/") == StripSeparators("/"[1..]) == "";
  }

  /** One heading separator is dropped, and separators between names may be repeated; no path at all is the root, and
      a path with nothing behind further separators is invalid. */
  lemma PathExamples()
    ensures Parse("") == Parse("/") == Some([])
    ensures Parse("A/B") == Parse("/A//B") == Some(["A", "B"])
    ensures Parse("//") == None && Parse("A/") == None
  {
    Emptiness();
    TwoNames();
    OneName("A", "");
    assert "A/" == "A" + "/" + "" && "//"[1..] == "/" && "/A//B"[1..] == "A//B";
    hide Segments, Leading, StripSeparators, SegmentLength;
  }

  lemma TwoNames()
    ensures Segments("A/B") == Segments("A//B") == Some(["A", "B"])
  {
    OneName("B", "");
    OneName("A", "B");
    OneName("A", "/B");
    hide Segments, Leading, StripSeparators, SegmentLength;
    assert "/B" == "/" + "B" && "A/B" == "A" + "/" + "B" && "A//B" == "A" + "/" + "/B" && ["A"] + ["B"] == ["A", "B"];
  }

  /** Dot entries by their first character alone; what is listed is what does not start with a dot, and with relative
      paths everything in use. */
  lemma ListedNames(w: World, name: Name, n: Node)
    ensures Visible(w, Used(name, n)) <==> w.rpath || name[..if |name| > 0 then 1 else 0] != "."
    ensures IsDot(".") && IsDot("..") && IsDot(".A") && !IsDot("A.") && !IsDot("") && !Visible(w, Deleted)
  {
    assert |name| > 0 ==> name[..1] == [name[0]];
  }

  /** The error for an invalid path is 6 where the names before lead to a directory, and 5 where they do not. */
  lemma RefusalExamples(n: Node)
    requires n.Dir?
    ensures Refusal(n, "//") == 6
    ensures Refusal(Dir(false, [Used("A", n)]), "A/") == 6 && Refusal(Dir(false, []), "A/") == 5
  {
    Emptiness();
    OneName("A", "");
    hide Segments, Leading, StripSeparators, SegmentLength;
    assert "//"[1..] == "/" && "A/" == "A" + "/" + "" && ["A"] + [] == ["A"] && ["A"][1..] == [];
  }

  lemma ExampleNames()
    ensures Parse("") == Some([]) && Parse("A") == Some(["A"]) && Parse("A/B") == Some(["A", "B"])
    ensures ["A"][..0] == [] && ["A"][1..] == [] && ["A", "B"][..1] == ["A"] && ["A", "B"][1..] == ["B"]
    ensures ["B"][1..] == []
  {
    PathExamples();
    OneName("A", "");
    hide Segments, StripSeparators, SegmentLength;
  }

  /** What deleting an object that is not there answers: the root 6, a missing object 4, a missing directory 5. */
  lemma UnlinkMissing()
    ensures var root := Dir(false, []);
            Unlink(root, "") == (6, root) && Unlink(root, "A") == (4, root) && Unlink(root, "A/B") == (5, root)
  {
    ExampleNames();
    hide Parse, Empty, Refusal;
    assert Find([], "A") == 0;
  }

  /** A read-only object and a directory in use are refused with 7, and a path through a file leads nowhere. */
  lemma UnlinkExamples(n: Node)
    ensures var root := Dir(false, [Used("A", n)]);
            (n.rdo || (n.Dir? && !Empty(n)) ==> Unlink(root, "A") == (7, root)) &&
            (n == File(false) ==> Unlink(root, "A") == (0, Dir(false, [Deleted])) && Unlink(root, "A/B") == (5, root))
  {
    ExampleNames();
    hide Parse, Empty, Refusal;
    var slots := [Used("A", n)];
    assert Find(slots, "A") == 0 && slots[0 := Deleted] == [Deleted];
    assert Lookup(n, []) == Some(n) && Lookup(Dir(false, slots), ["A"]) == Some(n);
    assert n.File? ==> Lookup(n, ["B"]) == None && Lookup(Dir(false, slots), ["A", "B"]) == None;
    assert RemoveAt(Dir(false, slots), ["A"]) == Dir(false, [Deleted]);
  }

  /** An object in a subdirectory. */
  lemma UnlinkBelow(n: Node)
    requires n == Dir(false, [Used("B", File(false))])
    ensures Unlink(Dir(false, [Used("A", n)]), "A/B") == (0, Dir(false, [Used("A", Dir(false, [Deleted]))]))
  {
    ExampleNames();
    hide Parse, Empty, Refusal;
    var slots := [Used("A", n)];
    assert Find(slots, "A") == 0 && Find(n.slots, "B") == 0;
    assert Lookup(n, ["B"]) == Some(File(false)) && Lookup(Dir(false, slots), ["A", "B"]) == Lookup(n, ["B"]);
    assert n.slots[0 := Deleted] == [Deleted] && RemoveAt(n, ["B"]) == Dir(false, [Deleted]);
    var m := Used("A", Dir(false, [Deleted]));
    assert slots[0 := m] == [m] && RemoveAt(Dir(false, slots), ["A", "B"]) == Dir(false, [m]);
    hide Lookup, RemoveAt;
  }
}
