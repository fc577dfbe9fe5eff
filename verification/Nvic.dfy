/** Interrupt controller: what any sequence of accesses amounts to, and the register accesses themselves. */
module InterruptModel {
  import opened Options
  import opened Priorities

  /** Core interrupts with a programmable priority are -12 to -1, device interrupts 0 to 239. */
  predicate Programmable(irq: int) {
    -12 <= irq < 240
  }

  /** The byte a priority access to `irq` goes to.  Of a negative number only the low four bits count; the twelve
      handler priorities are slots -12 to -1, and slots -16 to -13 are what lies just before them: the four bytes of
      the configuration control register, which the 32-bit index reaches by wrapping round. */
  function Slot(irq: int): (slot: int)
    ensures Programmable(irq) ==> slot == irq
    ensures irq < 0 ==> -16 <= slot < 0
  {
    if irq < 0 then irq % 16 - 16 else irq
  }

  predicate ControlSlot(slot: int) {
    -16 <= slot < -12
  }

  predicate Device(irq: int) {
    0 <= irq < 240
  }

  /** `priority` holds the stored bytes by slot. */
  datatype State = State(enabled: set<int>, pending: set<int>, active: set<int>, priority: map<int, bv32>)

  /** Software accesses, and what the core does on its own: taking a pending enabled interrupt and returning. */
  datatype Event =
    | Enable(irq: int)
    | Disable(irq: int)
    | SetPending(irq: int)
    | ClearPending(irq: int)
    | SetPriority(irq: int, level: bv32)
    | Take(irq: int)
    | Return(irq: int)

  function Apply(s: State, e: Event, width: bv32): State
    requires 1 <= width <= 8
  {
    match e
    case Enable(q) => s.(enabled := s.enabled + {q})
    case Disable(q) => s.(enabled := s.enabled - {q})
    case SetPending(q) => s.(pending := s.pending + {q})
    case ClearPending(q) => s.(pending := s.pending - {q})
    case SetPriority(q, level) => s.(priority := s.priority[Slot(q) := Stored(level, width)])
    case Take(q) =>
      if q in s.enabled && q in s.pending then s.(pending := s.pending - {q}, active := s.active + {q}) else s
    case Return(q) => s.(active := s.active - {q})
  }

  function Run(s: State, events: seq<Event>, width: bv32): State
    requires 1 <= width <= 8
  {
    if events == [] then s else Apply(Run(s, events[..|events| - 1], width), events[|events| - 1], width)
  }

  /** What the latest Enable or Disable of this very interrupt said. */
  function LastSwitch(events: seq<Event>, irq: int, initially: bool): bool {
    if events == [] then initially
    else match events[|events| - 1]
      case Enable(q) => q == irq || LastSwitch(events[..|events| - 1], irq, initially)
      case Disable(q) => q != irq && LastSwitch(events[..|events| - 1], irq, initially)
      case _ => LastSwitch(events[..|events| - 1], irq, initially)
  }

  /** The level of the latest SetPriority that went to this slot. */
  function LastLevel(events: seq<Event>, slot: int): Option<bv32> {
    if events == [] then None
    else if events[|events| - 1].SetPriority? && Slot(events[|events| - 1].irq) == slot then
      Some(events[|events| - 1].level)
    else LastLevel(events[..|events| - 1], slot)
  }

  /** Over any run an interrupt is enabled exactly as it was last switched, whatever happens to other interrupts. */
  lemma {:induction false} EnabledAsLastSwitched(s: State, events: seq<Event>, irq: int, width: bv32)
    requires 1 <= width <= 8
    ensures irq in Run(s, events, width).enabled <==> LastSwitch(events, irq, irq in s.enabled)
  {
    if events != [] { EnabledAsLastSwitched(s, events[..|events| - 1], irq, width); }
  }

  /** Over any run the byte in a slot is the one of the last level set there, by whichever interrupt number. */
  lemma {:induction false} PriorityAsLastSet(s: State, events: seq<Event>, slot: int, width: bv32)
    requires 1 <= width <= 8
    ensures LastLevel(events, slot).Some? ==>
              slot in Run(s, events, width).priority &&
              Run(s, events, width).priority[slot] == Stored(LastLevel(events, slot).value, width)
    ensures LastLevel(events, slot).None? ==>
              (slot in Run(s, events, width).priority <==> slot in s.priority) &&
              (slot in s.priority ==> Run(s, events, width).priority[slot] == s.priority[slot])
  {
    hide Stored, Slot;
    if events != [] { PriorityAsLastSet(s, events[..|events| - 1], slot, width); }
  }

  /** The event at position `i` stops interrupt `irq` from pending: software clears it, or the core takes it, which it
      does only while the interrupt is enabled. */
  predicate Unpends(s: State, events: seq<Event>, i: nat, irq: int)
    requires i < |events|
  {
    events[i] == ClearPending(irq) || (events[i] == Take(irq) && LastSwitch(events[..i], irq, irq in s.enabled))
  }

  predicate StaysPending(s: State, events: seq<Event>, from: nat, irq: int) {
    forall k :: from <= k < |events| ==> !Unpends(s, events, k, irq)
  }

  /** Set pending at position `i` and neither cleared nor taken since. */
  predicate PendingSince(s: State, events: seq<Event>, i: nat, irq: int) {
    i < |events| && events[i] == SetPending(irq) && StaysPending(s, events, i + 1, irq)
  }

  /** Over any run an interrupt is pending exactly if it was set pending, or was so at first, and has neither been
      cleared nor, while it was enabled, taken since. */
  lemma {:induction false} PendingAsLastSet(s: State, events: seq<Event>, irq: int, width: bv32)
    requires 1 <= width <= 8
    ensures irq in Run(s, events, width).pending <==>
            (irq in s.pending && StaysPending(s, events, 0, irq)) || exists i: nat :: PendingSince(s, events, i, irq)
  {
    hide Stored, LastSwitch, Slot;
    if events != [] {
      var before, n := events[..|events| - 1], |events| - 1;
      PendingAsLastSet(s, before, irq, width);
      EnabledAsLastSwitched(s, before, irq, width);
      forall k | 0 <= k < n ensures Unpends(s, events, k, irq) == Unpends(s, before, k, irq) {
        assert before[..k] == events[..k];
      }
      if events[n] == SetPending(irq) {
        assert PendingSince(s, events, n, irq);
      } else {
        PendingBefore(s, events, irq);
      }
    }
  }

  /** An event that does not set the interrupt pending can only end that. */
  lemma PendingBefore(s: State, events: seq<Event>, irq: int)
    requires events != [] && events[|events| - 1] != SetPending(irq)
    ensures var before, n := events[..|events| - 1], |events| - 1;
            (StaysPending(s, events, 0, irq) <==> StaysPending(s, before, 0, irq) && !Unpends(s, events, n, irq)) &&
            ((exists i: nat :: PendingSince(s, events, i, irq)) <==>
             (exists i: nat :: PendingSince(s, before, i, irq)) && !Unpends(s, events, n, irq))
  {
    hide Unpends;
    var before, n := events[..|events| - 1], |events| - 1;
    forall k | 0 <= k < n ensures Unpends(s, events, k, irq) == Unpends(s, before, k, irq) {
      UnpendsBefore(s, events, k, irq);
    }
    forall i: nat ensures PendingSince(s, events, i, irq) <==>
                          PendingSince(s, before, i, irq) && !Unpends(s, events, n, irq) {
    }
  }

  lemma UnpendsBefore(s: State, events: seq<Event>, k: nat, irq: int)
    requires k < |events| - 1
    ensures Unpends(s, events, k, irq) == Unpends(s, events[..|events| - 1], k, irq)
  {
    assert events[..|events| - 1][..k] == events[..k];
  }

  /** Taken at position `i`: pending and enabled then. */
  predicate Taken(s: State, events: seq<Event>, i: nat, irq: int, width: bv32)
    requires i < |events| && 1 <= width <= 8
  {
    events[i] == Take(irq) && irq in Run(s, events[..i], width).pending &&
    LastSwitch(events[..i], irq, irq in s.enabled)
  }

  predicate NoReturn(events: seq<Event>, from: nat, irq: int) {
    forall k :: from <= k < |events| ==> events[k] != Return(irq)
  }

  predicate ActiveSince(s: State, events: seq<Event>, i: nat, irq: int, width: bv32)
    requires 1 <= width <= 8
  {
    i < |events| && Taken(s, events, i, irq, width) && NoReturn(events, i + 1, irq)
  }

  /** Over any run an interrupt is active exactly if it was taken, or was so at first, and has not returned since. */
  lemma {:induction false} ActiveAsTaken(s: State, events: seq<Event>, irq: int, width: bv32)
    requires 1 <= width <= 8
    ensures irq in Run(s, events, width).active <==>
            (irq in s.active && NoReturn(events, 0, irq)) || exists i: nat :: ActiveSince(s, events, i, irq, width)
  {
    hide Stored, LastSwitch, Slot;
    if events != [] {
      var before, n := events[..|events| - 1], |events| - 1;
      ActiveAsTaken(s, before, irq, width);
      EnabledAsLastSwitched(s, before, irq, width);
      hide Taken;
      forall k | 0 <= k < n ensures Taken(s, events, k, irq, width) == Taken(s, before, k, irq, width) {
        TakenBefore(s, events, k, irq, width);
      }
      TakenNow(s, events, irq, width);
      hide Run;
      if Taken(s, events, n, irq, width) {
        assert ActiveSince(s, events, n, irq, width);
      } else {
        forall i: nat ensures ActiveSince(s, events, i, irq, width) <==>
                              ActiveSince(s, before, i, irq, width) && events[n] != Return(irq) {
        }
      }
    }
  }

  lemma TakenBefore(s: State, events: seq<Event>, k: nat, irq: int, width: bv32)
    requires k < |events| - 1 && 1 <= width <= 8
    ensures Taken(s, events, k, irq, width) == Taken(s, events[..|events| - 1], k, irq, width)
  {
    assert events[..|events| - 1][..k] == events[..k];
    hide Run, LastSwitch;
  }

  lemma TakenNow(s: State, events: seq<Event>, irq: int, width: bv32)
    requires events != [] && 1 <= width <= 8
    ensures var before, n := events[..|events| - 1], |events| - 1;
            (irq in Run(s, events, width).active <==>
             Taken(s, events, n, irq, width) ||
             (irq in Run(s, before, width).active && events[n] != Return(irq)))
  {
    hide Stored, LastSwitch, Slot;
    EnabledAsLastSwitched(s, events[..|events| - 1], irq, width);
  }

  lemma {:induction false} NeverSet(events: seq<Event>, slot: int)
    ensures LastLevel(events, slot) == None <==>
            forall i :: 0 <= i < |events| && events[i].SetPriority? ==> Slot(events[i].irq) != slot
  {
    hide Slot;
    if events != [] {
      var before := events[..|events| - 1];
      NeverSet(before, slot);
      assert forall i :: 0 <= i < |before| ==> before[i] == events[i];
    }
  }

  /** A run leaves a byte alone, whatever it holds at first, exactly when no priority it sets goes to that slot; with a
      slot of the configuration control register, this is when the run leaves that register alone. */
  lemma ControlKept(events: seq<Event>, slot: int, width: bv32)
    requires 1 <= width <= 8
    ensures (forall s: State :: slot in s.priority ==> Keeps(s, events, slot, width)) <==>
            forall i :: 0 <= i < |events| && events[i].SetPriority? ==> Slot(events[i].irq) != slot
  {
    NeverSet(events, slot);
    hide Slot, Run, LastLevel, Stored;
    if LastLevel(events, slot) == None {
      forall s: State | slot in s.priority ensures Keeps(s, events, slot, width) {
        PriorityAsLastSet(s, events, slot, width);
      }
    } else {
      var other := Stored(LastLevel(events, slot).value, width) + 1;
      var s := State({}, {}, {}, map[slot := other]);
      PriorityAsLastSet(s, events, slot, width);
      assert !Keeps(s, events, slot, width) by { assert other != Stored(LastLevel(events, slot).value, width); }
    }
  }

  predicate Keeps(s: State, events: seq<Event>, slot: int, width: bv32)
    requires 1 <= width <= 8 && slot in s.priority
  {
    slot in Run(s, events, width).priority && Run(s, events, width).priority[slot] == s.priority[slot]
  }

  /** Setting programmable priorities only leaves the configuration control register alone. */
  lemma ProgrammableKept(s: State, events: seq<Event>, slot: int, width: bv32)
    requires 1 <= width <= 8 && ControlSlot(slot) && slot in s.priority
    requires forall i :: 0 <= i < |events| && events[i].SetPriority? ==> Programmable(events[i].irq)
    ensures Keeps(s, events, slot, width)
  {
    ControlKept(events, slot, width);
    hide Run;
  }

  /** Setting a priority for the non-maskable interrupt, number -14, overwrites a byte of that register. */
  lemma ControlExample(s: State, level: bv32, width: bv32)
    requires 1 <= width <= 8
    ensures ControlSlot(Slot(-14))
    ensures Apply(s, SetPriority(-14, level), width).priority == s.priority[-14 := Stored(level, width)]
  {
    hide Stored;
  }

  /** Two interrupts whose priorities were last set from encoded pairs, whatever else happened in the run: reading
      them back decodes to those pairs, and one preempts the other exactly by its preemption priority. */
  lemma PreemptionSurvivesRuns(s: State, events: seq<Event>, x: int, y: int, group: bv32,
                               p: bv32, a: bv32, q: bv32, b: bv32, width: bv32)
    requires 1 <= width <= 8
    requires Programmable(x) && Programmable(y)
    requires LastLevel(events, x) == Some(Encode(group, p, a, width))
    requires LastLevel(events, y) == Some(Encode(group, q, b, width))
    ensures var m := Run(s, events, width).priority;
            x in m && y in m && PreemptBits(group, width) <= 8 && SubBits(group, width) <= 8 &&
            Preempt(Loaded(m[x], width), group, width) == Low(p, PreemptBits(group, width)) &&
            Sub(Loaded(m[x], width), group, width) == Low(a, SubBits(group, width)) &&
            (Preempts(m[x], m[y], group) <==>
             Less(Low(p, PreemptBits(group, width)), Low(q, PreemptBits(group, width))))
  {
    hide Mask, Stored, Loaded, Preempts, PreemptBits, SubBits, Low, Less, Encode, Preempt, Sub, Run, LastLevel;
    PriorityAsLastSet(s, events, x, width);
    PriorityAsLastSet(s, events, y, width);
    DecodeEncode(group, p, a, width);
    StoredLoaded(Encode(group, p, a, width), width);
    PreemptionDecides(group, p, a, q, b, width);
  }
}

module InterruptController {
  import opened Words
  import opened Priorities
  import opened InterruptModel

  /** `1 << k` */
  function One(k: nat): bv32
    requires k < 32
  {
    1 << k
  }

  predicate Hit(x: bv32, mask: bv32) {
    Field(x, mask) != 0
  }

  predicate Bit(x: bv32, k: nat)
    requires k < 32
  {
    Hit(x, One(k))
  }

  lemma OneHot(k: nat, j: nat)
    requires k < 32 && j < 32
    ensures One(j) != 0 && (Field(One(k), One(j)) != 0 <==> k == j)
    ensures And(Not(One(k)), One(j)) == if k == j then 0 else One(j)
  {
    OneMeets(k, j);
    OneMeets(j, j);
    OneMissed(One(k), One(j));
    Zeros(One(j), 0);
    hide One, Not;
  }

  lemma OneMeets(k: nat, j: nat)
    requires k < 32 && j < 32
    ensures Field(One(k), One(j)) != 0 <==> k == j
  {
  }

  /** Words without a common bit, and a word with itself. */
  lemma OneMissed(a: bv32, b: bv32)
    ensures Field(a, b) == 0 ==> And(Not(a), b) == b
    ensures And(Not(a), a) == 0
  {
  }

  /** Writing the word of one interrupt to a set register adds that interrupt, to a clear register removes it. */
  lemma BitWritten(x: bv32, k: nat, j: nat)
    requires k < 32 && j < 32
    ensures Bit(Or(x, One(k)), j) <==> Bit(x, j) || j == k
    ensures Bit(And(x, Not(One(k))), j) <==> Bit(x, j) && j != k
  {
    hide One, Field, Or, And, Not;
    OneHot(k, j);
    FlagOr(x, One(k), One(j));
    FieldAnd(x, Not(One(k)), One(j));
  }

  /** The interrupts whose bit is set in a bank of registers. */
  ghost function Members(bank: seq<bv32>): set<int>
    requires |bank| == 8
  {
    set q: int | 0 <= q < 256 && Bit(bank[q / 32], q % 32)
  }

  lemma MembersSet(bank: seq<bv32>, q: int)
    requires |bank| == 8 && 0 <= q < 256
    ensures Members(bank[q / 32 := Or(bank[q / 32], One(q % 32))]) == Members(bank) + {q}
    ensures Members(bank[q / 32 := And(bank[q / 32], Not(One(q % 32)))]) == Members(bank) - {q}
  {
    forall j | 0 <= j < 32 {
      BitWritten(bank[q / 32], q % 32, j);
    }
    hide Bit, One, Or, And, Not;
    var set' := bank[q / 32 := Or(bank[q / 32], One(q % 32))];
    var clear := bank[q / 32 := And(bank[q / 32], Not(One(q % 32)))];
    forall r: int ensures r in Members(set') <==> r in Members(bank) + {q} { SameBit(q, r); }
    forall r: int ensures r in Members(clear) <==> r in Members(bank) - {q} { SameBit(q, r); }
  }

  lemma SameBit(q: int, r: int)
    ensures q == r <==> q / 32 == r / 32 && q % 32 == r % 32
  {
  }

  class Nvic {
    /** One array for each pair of set and clear registers: both read as the state, ones written set or clear it. */
    const enable: array<bv32>
    const pend: array<bv32>
    const active: array<bv32>
    const ip: array<bv32>
    /** The four bytes of the configuration control register and the twelve handler priorities behind them. */
    const shp: array<bv32>
    const width: bv32
    var aircr: bv32

    /** Out of reset nothing is enabled, pending or active, and every priority is the highest. */
    constructor (width: bv32)
      requires 1 <= width <= 8
      ensures Valid() && this.width == width && fresh(enable) && fresh(pend) && fresh(active) && fresh(ip) && fresh(shp)
      ensures forall i :: 0 <= i < 8 ==> enable[i] == pend[i] == active[i] == 0
      ensures forall q :: -16 <= q < 240 ==> Level(q) == 0
    {
      this.width := width;
      enable := new bv32[8](_ => 0);
      pend := new bv32[8](_ => 0);
      active := new bv32[8](_ => 0);
      ip := new bv32[240](_ => 0);
      shp := new bv32[16](_ => 0);
      aircr := 0;
    }

    ghost predicate Valid()
      reads this
    {
      enable.Length == 8 && pend.Length == 8 && active.Length == 8 && ip.Length == 240 && shp.Length == 16 &&
      enable != pend && enable != active && enable != ip && enable != shp && pend != active && pend != ip &&
      pend != shp && active != ip && active != shp && ip != shp && 1 <= width <= 8
    }

    function Level(slot: int): bv32
      requires Valid() && -16 <= slot < 240
      reads this, ip, shp
    {
      if slot < 0 then shp[slot + 16] else ip[slot]
    }

    ghost function Contents(): State
      requires Valid()
      reads this, enable, pend, active, ip, shp
    {
      State(Members(enable[..]), Members(pend[..]), Members(active[..]),
            map slot: int | -16 <= slot < 240 :: Level(slot))
    }

    method EnableIRQ(irq: int)
      requires Valid() && Device(irq)
      modifies enable
      ensures Contents() == Apply(old(Contents()), Enable(irq), width)
      ensures enable[..] == old(enable[..])[irq / 32 := Or(old(enable[irq / 32]), One(irq % 32))]
    {
      hide One, Members, Stored, Or, And, Not;
      MembersSet(enable[..], irq);
      WriteSet(enable, irq / 32, One(irq % 32));
    }

    method DisableIRQ(irq: int)
      requires Valid() && Device(irq)
      modifies enable
      ensures Contents() == Apply(old(Contents()), Disable(irq), width)
      ensures enable[..] == old(enable[..])[irq / 32 := And(old(enable[irq / 32]), Not(One(irq % 32)))]
    {
      hide One, Members, Stored, Or, And, Not;
      MembersSet(enable[..], irq);
      WriteClear(enable, irq / 32, One(irq % 32));
    }

    method SetPendingIRQ(irq: int)
      requires Valid() && Device(irq)
      modifies pend
      ensures Contents() == Apply(old(Contents()), SetPending(irq), width)
      ensures pend[..] == old(pend[..])[irq / 32 := Or(old(pend[irq / 32]), One(irq % 32))]
    {
      hide One, Members, Stored, Or, And, Not;
      MembersSet(pend[..], irq);
      WriteSet(pend, irq / 32, One(irq % 32));
    }

    method ClearPendingIRQ(irq: int)
      requires Valid() && Device(irq)
      modifies pend
      ensures Contents() == Apply(old(Contents()), ClearPending(irq), width)
      ensures pend[..] == old(pend[..])[irq / 32 := And(old(pend[irq / 32]), Not(One(irq % 32)))]
    {
      hide One, Members, Stored, Or, And, Not;
      MembersSet(pend[..], irq);
      WriteClear(pend, irq / 32, One(irq % 32));
    }

    method GetPendingIRQ(irq: int) returns (r: nat)
      requires Valid() && Device(irq)
      ensures r == if irq in Contents().pending then 1 else 0
    {
      r := if Hit(pend[irq / 32], One(irq % 32)) then 1 else 0;
    }

    method GetActive(irq: int) returns (r: nat)
      requires Valid() && Device(irq)
      ensures r == if irq in Contents().active then 1 else 0
    {
      r := if Hit(active[irq / 32], One(irq % 32)) then 1 else 0;
    }

    /** A negative number stands for a system handler by its low four bits; four less is the index into the array
        of handler priorities, so in `shp` the four bits are the index themselves. */
    method SetPriority(irq: int, priority: bv32)
      requires Valid() && irq < 240
      modifies ip, shp
      ensures Contents() == Apply(old(Contents()), InterruptModel.SetPriority(irq, priority), width)
    {
      hide Members, Stored;
      if irq < 0 {
        shp[irq % 16] := Stored(priority, width);
      } else {
        ip[irq] := Stored(priority, width);
      }
      assert enable[..] == old(enable[..]) && pend[..] == old(pend[..]) && active[..] == old(active[..]);
    }

    method GetPriority(irq: int) returns (priority: bv32)
      requires Valid() && irq < 240
      ensures priority == Loaded(Contents().priority[Slot(irq)], width)
    {
      priority := if irq < 0 then Loaded(shp[irq % 16], width) else Loaded(ip[irq], width);
    }

    /** The write carries the unlock key; only the grouping field changes besides it. */
    method SetPriorityGrouping(group: bv32)
      modifies this`aircr
      ensures aircr >> 16 == 0x05FA && (aircr & 0x0700) >> 8 == group & 7
      ensures aircr & 0xF8FF == old(aircr) & 0xF8FF
    {
      var tmp := group & 7;
      var value := aircr & !(0xFFFF_0000 | 0x0700);
      aircr := value | 0x05FA_0000 | (tmp << 8);
    }

    /** Hardware: ones written to a set register set their bits, zeros do nothing. */
    method WriteSet(bank: array<bv32>, i: nat, v: bv32)
      requires i < bank.Length
      modifies bank
      ensures bank[..] == old(bank[..])[i := Or(old(bank[i]), v)]
    {
      bank[i] := bank[i] | v;
    }

    /** Hardware: ones written to a clear register clear their bits, zeros do nothing. */
    method WriteClear(bank: array<bv32>, i: nat, v: bv32)
      requires i < bank.Length
      modifies bank
      ensures bank[..] == old(bank[..])[i := And(old(bank[i]), Not(v))]
    {
      bank[i] := bank[i] & !v;
    }
  }

  lemma OneExample()
    ensures One(5) == 0x20 && One(8) == 0x100
    ensures Or(0, 0x20) == 0x20 && Or(0x20, 0x100) == 0x120
    ensures And(0x120, Not(0x20)) == 0x100 && And(0x120, Not(0x100)) == 0x20
  {
  }

  /** Interrupts 37 and 40 are bits 5 and 8 of the second word of a bank. */
  method EnableExample() returns (nvic: Nvic)
    ensures nvic.Valid() && nvic.enable[..] == [0, 0x100, 0, 0, 0, 0, 0, 0]
  {
    OneExample();
    hide One, Or, And, Not, Members, Bit, Stored, Apply, Nvic.Contents, Nvic.Level;
    nvic := new Nvic(4);
    assert nvic.enable[..] == [0, 0, 0, 0, 0, 0, 0, 0];
    nvic.EnableIRQ(37);
    nvic.EnableIRQ(40);
    nvic.DisableIRQ(37);
  }

  method PendingExample() returns (nvic: Nvic, raised: nat, cleared: nat)
    ensures nvic.Valid() && nvic.pend[..] == [0, 0x20, 0, 0, 0, 0, 0, 0] && raised == 1 && cleared == 0
  {
    OneExample();
    hide One, Or, And, Not, Members, Bit, Stored, Nvic.Level;
    nvic := new Nvic(4);
    assert nvic.pend[..] == [0, 0, 0, 0, 0, 0, 0, 0];
    nvic.SetPendingIRQ(37);
    nvic.SetPendingIRQ(40);
    raised := nvic.GetPendingIRQ(40);
    nvic.ClearPendingIRQ(40);
    cleared := nvic.GetPendingIRQ(40);
  }

  lemma StoredExample()
    ensures Stored(5, 4) == 0x50 && Stored(15, 4) == 0xF0 && Loaded(0xF0, 4) == 15
  {
  }

  /** Priority 5 of four bits is stored as 0x50; the system tick timer, number -1, has the last of the twelve handler
      priorities. */
  method PriorityExample() returns (nvic: Nvic, tick: bv32)
    ensures nvic.Valid() && nvic.ip[37] == 0x50 && nvic.shp[15] == 0xF0 && tick == 15
  {
    StoredExample();
    hide Members, Stored, Loaded;
    nvic := new Nvic(4);
    nvic.SetPriority(37, 5);
    assert nvic.Level(37) == nvic.Contents().priority[37];
    nvic.SetPriority(-1, 15);
    assert nvic.Level(37) == nvic.Contents().priority[37] && nvic.Level(-1) == nvic.Contents().priority[-1];
    tick := nvic.GetPriority(-1);
  }
}
