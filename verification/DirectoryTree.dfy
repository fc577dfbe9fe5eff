/** A FAT directory tree as FatFs shows it to an application, and what emptying a directory means. */
module DirectoryTree {
  import opened Options

  type Name = string

  const FR_OK: nat := 0
  const FR_NO_FILE: nat := 4
  const FR_NO_PATH: nat := 5
  const FR_INVALID_NAME: nat := 6
  const FR_DENIED: nat := 7

  /** An object with its read-only attribute; a directory is a table of entry slots. */
  datatype Node = File(rdo: bool) | Dir(rdo: bool, slots: seq<Slot>)

  /** A slot of a directory table; deleting an object only marks its slot. */
  datatype Slot = Deleted | Used(name: Name, node: Node)

  predicate IsDot(name: Name) {
    |name| > 0 && name[0] == '.'
  }

  /** Path characters that separate or end segments. */
  predicate Separator(c: char) { c == '/' || c == '\\' }

  predicate ValidName(name: Name) {
    |name| > 0 && forall c :: c in name ==> c >= ' ' && !Separator(c)
  }

  predicate WellFormed(n: Node) {
    n.Dir? ==>
      (forall i :: 0 <= i < |n.slots| && n.slots[i].Used? ==>
         ValidName(n.slots[i].name) && WellFormed(n.slots[i].node)) &&
      (forall i, j :: 0 <= i < j < |n.slots| && n.slots[i].Used? && n.slots[j].Used? ==>
         n.slots[i].name != n.slots[j].name)
  }

  /** The slot of an object named `name`; the table size when there is none. */
  function Find(slots: seq<Slot>, name: Name): (i: nat)
    ensures i <= |slots|
    ensures i < |slots| ==> slots[i].Used? && slots[i].name == name
    decreases |slots|
  {
    if |slots| == 0 then 0
    else if slots[0].Used? && slots[0].name == name then 0
    else 1 + Find(slots[1..], name)
  }

  function Lookup(n: Node, comps: seq<Name>): Option<Node>
    decreases |comps|
  {
    if |comps| == 0 then Some(n)
    else if n.File? then None
    else
      var i := Find(n.slots, comps[0]);
      if i == |n.slots| then None else Lookup(n.slots[i].node, comps[1..])
  }

  /** The tree with the object at `comps` replaced. */
  function Replace(n: Node, comps: seq<Name>, m: Node): Node
    requires Lookup(n, comps).Some?
    decreases |comps|
  {
    if |comps| == 0 then m
    else
      var i := Find(n.slots, comps[0]);
      Dir(n.rdo, n.slots[i := Used(comps[0], Replace(n.slots[i].node, comps[1..], m))])
  }

  // ---------------------------------------------------------------- path strings

  function StripSeparators(p: string): (r: string)
    ensures |r| <= |p|
    decreases |p|
  {
    if |p| > 0 && Separator(p[0]) then StripSeparators(p[1..]) else p
  }

  /** Length of the segment at the front of `p`. */
  function SegmentLength(p: string): (n: nat)
    ensures n <= |p|
    ensures n < |p| ==> Separator(p[n])
    ensures forall i :: 0 <= i < n ==> !Separator(p[i])
    decreases |p|
  {
    if |p| == 0 || Separator(p[0]) then 0 else 1 + SegmentLength(p[1..])
  }

  /** The segments of a nonempty path; an empty segment makes the path invalid. */
  function Segments(p: string): Option<seq<Name>>
    decreases |p|
  {
    var q := StripSeparators(p);
    var n := SegmentLength(q);
    if n == 0 then None
    else if n == |q| then Some([q])
    else
      var rest := Segments(q[n + 1..]);
      if rest.None? then None else Some([q[..n]] + rest.value)
  }

  /** Path resolution: one heading separator is stripped; what is then empty is the root. */
  function Parse(p: string): Option<seq<Name>> {
    var q := if |p| > 0 && Separator(p[0]) then p[1..] else p;
    if |q| == 0 then Some([]) else Segments(q)
  }

  /** The segments in front of the empty one in an invalid path. */
  function Leading(p: string): seq<Name>
    decreases |p|
  {
    var q := StripSeparators(p);
    var n := SegmentLength(q);
    if n == 0 then []
    else if n == |q| then [q]
    else [q[..n]] + Leading(q[n + 1..])
  }

  /** The error for an invalid path: it is only found invalid where the directories before lead. */
  function Refusal(root: Node, p: string): nat {
    var n := Lookup(root, Leading(if |p| > 0 && Separator(p[0]) then p[1..] else p));
    if n.Some? && n.value.Dir? then FR_INVALID_NAME else FR_NO_PATH
  }

  // ---------------------------------------------------------------- emptying, as a function of the tree

  /** `fault(k)` is the error the `k`-th FatFs call fails with, 0 when it does not fail. */
  datatype World = World(rpath: bool, fault: nat -> nat)

  datatype Result = Result(res: nat, slots: seq<Slot>, calls: nat)

  /** `f_readdir` shows this slot. */
  predicate Visible(w: World, s: Slot) {
    s.Used? && (w.rpath || !IsDot(s.name))
  }

  predicate Blank(slots: seq<Slot>) {
    forall i :: 0 <= i < |slots| && slots[i].Used? ==> IsDot(slots[i].name)
  }

  /** No entries are left, dot entries aside. */
  predicate Empty(n: Node) {
    n.Dir? && Blank(n.slots)
  }

  /** Reading the next entry and everything after, on the part of the table not read yet. */
  function Next(w: World, slots: seq<Slot>, calls: nat): (r: Result)
    ensures |r.slots| == |slots|
    decreases slots, 1
  {
    if w.fault(calls + 1) != 0 then Result(w.fault(calls + 1), slots, calls + 1)
    else Purge(w, slots, calls + 1)
  }

  function Prepend(s: Slot, r: Result): Result {
    r.(slots := [s] + r.slots)
  }

  /** What remains to be done once a read of the next entry is under way. */
  function Purge(w: World, slots: seq<Slot>, calls: nat): (r: Result)
    ensures |r.slots| == |slots|
    decreases slots, 0
  {
    if |slots| == 0 then Result(FR_OK, [], calls) else
    var head, tail := slots[0], slots[1..];
    if !Visible(w, head) then Prepend(head, Purge(w, tail, calls))
    else if IsDot(head.name) then Prepend(head, Next(w, tail, calls))
    else
      var (r, slot, c) := Delete(w, head, calls);
      if r != FR_OK then Result(r, [slot] + tail, c) else Prepend(slot, Next(w, tail, c))
  }

  /** Emptying the object first if it is a directory, then unlinking it. */
  function Delete(w: World, s: Slot, calls: nat): (nat, Slot, nat)
    requires s.Used?
    decreases s
  {
    var (r, n, c) := if s.node.Dir? then EmptyDir(w, s.node, calls) else (FR_OK, s.node, calls);
    var kept := Used(s.name, n);
    if r != FR_OK then (r, kept, c)
    else if w.fault(c + 1) != 0 then (w.fault(c + 1), kept, c + 1)
    else if n.rdo || (n.Dir? && !Empty(n)) then (FR_DENIED, kept, c + 1)
    else (FR_OK, Deleted, c + 1)
  }

  function EmptyDir(w: World, n: Node, calls: nat): (nat, Node, nat)
    requires n.Dir?
    decreases n
  {
    if w.fault(calls + 1) != 0 then (w.fault(calls + 1), n, calls + 1)
    else
      var r := Next(w, n.slots, calls + 1);
      (r.res, Dir(n.rdo, r.slots), r.calls)
  }

  /** The whole call: open the directory the path names, empty it, leave everything else alone. */
  function EmptyPath(w: World, root: Node, p: string, calls: nat): (nat, Node, nat) {
    var target := Parse(p);
    if w.fault(calls + 1) != 0 then (w.fault(calls + 1), root, calls + 1)
    else if target.None? then (Refusal(root, p), root, calls + 1)
    else
      var n := Lookup(root, target.value);
      if n.None? || n.value.File? then (FR_NO_PATH, root, calls + 1)
      else
        var (res, m, c) := EmptyDir(w, n.value, calls);
        (res, Replace(root, target.value, m), c)
  }

  // ---------------------------------------------------------------- how far the path reaches

  function Max(a: nat, b: nat): nat { if a < b then b else a }

  /** Buffer space needed behind the path of an object, including the terminator. */
  function Room(n: Node): (r: nat)
    ensures r >= 1
    decreases n
  {
    if n.File? then 1 else RoomSlots(n.slots)
  }

  function RoomSlots(slots: seq<Slot>): (r: nat)
    ensures r >= 1
    decreases slots
  {
    if |slots| == 0 then 1 else
    var head := slots[0];
    var tail := RoomSlots(slots[1..]);
    if head.Used? && !IsDot(head.name) then Max(tail, 1 + |head.name| + Room(head.node)) else tail
  }

  /** Buffer space that emptying the directory `n` really comes to need behind its path, including the terminator:
      a call that fails early may leave the longest names unwritten. */
  function ReachDir(w: World, n: Node, calls: nat): (r: nat)
    requires n.Dir?
    ensures r >= 1
    decreases n
  {
    if w.fault(calls + 1) != 0 then 1 else ReachNext(w, n.slots, calls + 1)
  }

  function ReachNext(w: World, slots: seq<Slot>, calls: nat): (r: nat)
    ensures r >= 1
    decreases slots, 1
  {
    if w.fault(calls + 1) != 0 then 1 else ReachPurge(w, slots, calls + 1)
  }

  function ReachPurge(w: World, slots: seq<Slot>, calls: nat): (r: nat)
    ensures r >= 1
    decreases slots, 0
  {
    if |slots| == 0 then 1 else
    var head, tail := slots[0], slots[1..];
    if !Visible(w, head) then ReachPurge(w, tail, calls)
    else if IsDot(head.name) then ReachNext(w, tail, calls)
    else
      var (r, _, c) := Delete(w, head, calls);
      Max(ReachEntry(w, head, calls), if r != FR_OK then 1 else ReachNext(w, tail, c))
  }

  /** A separator, the name, and what the object itself needs. */
  function ReachEntry(w: World, s: Slot, calls: nat): (r: nat)
    requires s.Used?
    ensures r >= 2 + |s.name|
    decreases s
  {
    1 + |s.name| + if s.node.Dir? then ReachDir(w, s.node, calls) else 1
  }

  function ReachPath(w: World, root: Node, p: string, calls: nat): (r: nat)
    ensures r >= 1
  {
    var target := Parse(p);
    if target.Some? && Lookup(root, target.value).Some? && Lookup(root, target.value).value.Dir? then
      ReachDir(w, Lookup(root, target.value).value, calls)
    else 1
  }
}
