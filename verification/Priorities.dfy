/** Packing of preemption and sub priority into the implemented bits of a priority byte. */
module Priorities {
  /** `width` is the number of priority bits the controller implements (4 on this device). */
  function Mask(bits: bv32): bv32
    requires bits <= 8
  {
    (1 << bits) - 1
  }

  function PreemptBits(group: bv32, width: bv32): bv32 {
    var g := group & 7;
    if 7 - g > width then width else 7 - g
  }

  function SubBits(group: bv32, width: bv32): bv32 {
    var g := group & 7;
    if g + width < 7 then 0 else g - 7 + width
  }

  /** Whatever the group, the two fields share the implemented bits out between them; the group that would leave
      more preemption bits than there are is treated as the one that uses them all. */
  lemma BitsSum(group: bv32, width: bv32)
    requires width <= 8
    ensures PreemptBits(group, width) + SubBits(group, width) == width
    ensures PreemptBits(group, width) <= 7 && SubBits(group, width) <= 8
    ensures Byte(PreemptBits(group, width), SubBits(group, width))
  {
  }

  /** The low bits of a word. */
  function Low(x: bv32, bits: bv32): bv32
    requires bits <= 8
  {
    x & Mask(bits)
  }

  function Shr(x: bv32, n: bv32): bv32
    requires n <= 8
  {
    x >> n
  }

  function Shl(x: bv32, n: bv32): bv32
    requires n <= 8
  {
    x << n
  }

  predicate Less(x: bv32, y: bv32) {
    x < y
  }

  predicate Small(x: bv32) {
    x <= 0xFF
  }

  /** At most eight bits in all. */
  predicate Byte(a: bv32, b: bv32) {
    a <= 8 && b <= 8 && a + b <= 8
  }

  function Pack(p: bv32, s: bv32, a: bv32, b: bv32): bv32
    requires Byte(a, b)
  {
    (Low(p, a) << b) | Low(s, b)
  }

  function Encode(group: bv32, preempt: bv32, sub: bv32, width: bv32): bv32
    requires width <= 8
  {
    BitsSum(group, width);
    Pack(preempt, sub, PreemptBits(group, width), SubBits(group, width))
  }

  function Preempt(priority: bv32, group: bv32, width: bv32): bv32
    requires width <= 8
  {
    BitsSum(group, width);
    Low(Shr(priority, SubBits(group, width)), PreemptBits(group, width))
  }

  function Sub(priority: bv32, group: bv32, width: bv32): bv32
    requires width <= 8
  {
    BitsSum(group, width);
    Low(priority, SubBits(group, width))
  }

  // ---------------------------------------------------------------- round trips

  lemma PackFields(p: bv32, s: bv32, a: bv32, b: bv32)
    requires Byte(a, b)
    ensures Shr(Pack(p, s, a, b), b) == Low(p, a) && Low(Pack(p, s, a, b), b) == Low(s, b)
  {
  }

  lemma LowTwice(p: bv32, a: bv32)
    requires a <= 8
    ensures Low(Low(p, a), a) == Low(p, a) && Small(Low(p, a))
  {
  }

  lemma PackFits(p: bv32, s: bv32, a: bv32, b: bv32)
    requires Byte(a, b)
    ensures Pack(p, s, a, b) <= Mask(a + b) && Small(Pack(p, s, a, b))
  {
  }

  lemma PackSplit(x: bv32, a: bv32, b: bv32)
    requires Byte(a, b) && x <= Mask(a + b)
    ensures Pack(Low(Shr(x, b), a), Low(x, b), a, b) == x
  {
  }

  /** Decoding an encoded priority gives the two values back, cut to their fields. */
  lemma DecodeEncode(group: bv32, preempt: bv32, sub: bv32, width: bv32)
    requires width <= 8
    ensures Byte(PreemptBits(group, width), SubBits(group, width))
    ensures var e := Encode(group, preempt, sub, width);
            Preempt(e, group, width) == Low(preempt, PreemptBits(group, width)) &&
            Sub(e, group, width) == Low(sub, SubBits(group, width)) && e <= Mask(width)
  {
    BitsSum(group, width);
    hide Mask, Pack, PreemptBits, SubBits, Low, Shr;
    PackFields(preempt, sub, PreemptBits(group, width), SubBits(group, width));
    PackFits(preempt, sub, PreemptBits(group, width), SubBits(group, width));
    LowTwice(preempt, PreemptBits(group, width));
  }

  /** Every implemented priority is the encoding of what it decodes to, so encoding is onto. */
  lemma EncodeDecode(group: bv32, priority: bv32, width: bv32)
    requires width <= 8 && priority <= Mask(width)
    ensures Encode(group, Preempt(priority, group, width), Sub(priority, group, width), width) == priority
  {
    BitsSum(group, width);
    hide Mask, Pack, PreemptBits, SubBits, Low, Shr;
    PackSplit(priority, PreemptBits(group, width), SubBits(group, width));
  }

  /** The two fields found in a priority are in range, and encoding them again gives the implemented priority. */
  method DecodePriority(priority: bv32, group: bv32, width: bv32) returns (preempt: bv32, sub: bv32)
    requires width <= 8
    ensures PreemptBits(group, width) <= 8 && SubBits(group, width) <= 8
    ensures preempt <= Mask(PreemptBits(group, width)) && sub <= Mask(SubBits(group, width))
    ensures priority <= Mask(width) ==> Encode(group, preempt, sub, width) == priority
    ensures preempt == Preempt(priority, group, width) && sub == Sub(priority, group, width)
  {
    BitsSum(group, width);
    var g := group & 7;
    var preemptBits := if 7 - g > width then width else 7 - g;
    var subBits := if g + width < 7 then 0 else g - 7 + width;
    assert preemptBits == PreemptBits(group, width) && subBits == SubBits(group, width);
    preempt := Low(Shr(priority, subBits), preemptBits);
    sub := Low(priority, subBits);
    hide PreemptBits, SubBits, Low, Shr, Mask, Encode;
    LowFits(Shr(priority, subBits), preemptBits);
    LowFits(priority, subBits);
    if priority <= Mask(width) { EncodeDecode(group, priority, width); }
  }

  lemma LowFits(x: bv32, bits: bv32)
    requires bits <= 8
    ensures Low(x, bits) <= Mask(bits)
  {
  }

  // ---------------------------------------------------------------- order

  lemma ShiftOne(x: bv32, y: bv32)
    ensures Less(Shr(x, 1), Shr(y, 1)) ==> Less(x, y)
  {
  }

  lemma ShiftStep(x: bv32, b: bv32)
    requires 0 < b <= 8
    ensures Shr(Shr(x, b - 1), 1) == Shr(x, b)
  {
  }

  lemma ShiftNone(x: bv32)
    ensures Shr(x, 0) == x
  {
  }

  lemma {:induction false} ShiftOrder(x: bv32, y: bv32, b: bv32)
    requires b <= 8
    ensures Less(Shr(x, b), Shr(y, b)) ==> Less(x, y)
    decreases b
  {
    hide Shr, Less;
    if b > 0 {
      ShiftStep(x, b);
      ShiftStep(y, b);
      ShiftOne(Shr(x, b - 1), Shr(y, b - 1));
      ShiftOrder(x, y, b - 1);
    } else {
      ShiftNone(x);
      ShiftNone(y);
    }
  }

  lemma LowOrder(x: bv32, y: bv32, b: bv32)
    requires b <= 8 && Shr(x, b) == Shr(y, b) && Small(x) && Small(y)
    ensures Less(x, y) <==> Less(Low(x, b), Low(y, b))
  {
  }

  lemma Trichotomy(x: bv32, y: bv32)
    requires Small(x) && Small(y)
    ensures x == y || Less(x, y) || Less(y, x)
    ensures !(Less(x, y) && Less(y, x)) && !Less(x, x)
  {
  }

  /** A smaller encoded priority is a smaller preemption priority, or the same one and a smaller sub priority. */
  lemma EncodeOrder(group: bv32, p: bv32, s: bv32, q: bv32, t: bv32, width: bv32)
    requires width <= 8
    ensures Byte(PreemptBits(group, width), SubBits(group, width))
    ensures var a, b := PreemptBits(group, width), SubBits(group, width);
            Less(Encode(group, p, s, width), Encode(group, q, t, width)) <==>
            Less(Low(p, a), Low(q, a)) || (Low(p, a) == Low(q, a) && Less(Low(s, b), Low(t, b)))
  {
    BitsSum(group, width);
    hide Mask, Pack, PreemptBits, SubBits, Low, Shr, Less, Small;
    var a, b := PreemptBits(group, width), SubBits(group, width);
    var x, y := Pack(p, s, a, b), Pack(q, t, a, b);
    PackFields(p, s, a, b);
    PackFields(q, t, a, b);
    PackFits(p, s, a, b);
    PackFits(q, t, a, b);
    LowTwice(p, a);
    LowTwice(q, a);
    ShiftOrder(x, y, b);
    ShiftOrder(y, x, b);
    Trichotomy(x, y);
    Trichotomy(Low(p, a), Low(q, a));
    if Low(p, a) == Low(q, a) { LowOrder(x, y, b); }
  }

  // ---------------------------------------------------------------- the stored byte

  /** The byte kept for an interrupt: the priority moved to the implemented high bits. */
  function Stored(priority: bv32, width: bv32): (b: bv32)
    requires 1 <= width <= 8
    ensures b <= 0xFF
  {
    (priority << (8 - width)) & 0xFF
  }

  function Loaded(stored: bv32, width: bv32): bv32
    requires 1 <= width <= 8
  {
    stored >> (8 - width)
  }

  /** Only the implemented bits survive being stored. */
  lemma StoredLoaded(priority: bv32, width: bv32)
    requires 1 <= width <= 8
    ensures Loaded(Stored(priority, width), width) == Low(priority, width)
    ensures priority <= Mask(width) ==> Low(priority, width) == priority
  {
  }

  /** On this device, with four bits: how many of them each of the eight groups gives to preemption. */
  lemma FieldWidths(group: bv32)
    ensures group & 7 <= 3 ==> PreemptBits(group, 4) == 4 && SubBits(group, 4) == 0
    ensures group & 7 == 4 ==> PreemptBits(group, 4) == 3 && SubBits(group, 4) == 1
    ensures group & 7 == 5 ==> PreemptBits(group, 4) == 2 && SubBits(group, 4) == 2
    ensures group & 7 == 6 ==> PreemptBits(group, 4) == 1 && SubBits(group, 4) == 3
    ensures group & 7 == 7 ==> PreemptBits(group, 4) == 0 && SubBits(group, 4) == 4
  {
  }

  /** Preemption priority 2 and sub priority 1 of two bits each, and the byte they are stored as. */
  lemma EncodeExample()
    ensures Encode(5, 2, 1, 4) == 9 && Stored(9, 4) == 0x90 && GroupPriority(0x90, 5) == 2
    ensures Preempt(9, 5, 4) == 2 && Sub(9, 5, 4) == 1
  {
  }

  /** The part of a stored byte that decides preemption under a binary point. */
  function GroupPriority(stored: bv32, group: bv32): bv32 {
    stored >> ((group & 7) + 1)
  }

  predicate Preempts(x: bv32, y: bv32, group: bv32) {
    Less(GroupPriority(x, group), GroupPriority(y, group))
  }

  /** The controller lets one interrupt preempt another exactly when its encoded preemption priority is smaller. */
  lemma PreemptionDecides(group: bv32, p: bv32, s: bv32, q: bv32, t: bv32, width: bv32)
    requires 1 <= width <= 8
    ensures PreemptBits(group, width) <= 8
    ensures var a := PreemptBits(group, width);
            Preempts(Stored(Encode(group, p, s, width), width), Stored(Encode(group, q, t, width), width), group) <==>
            Less(Low(p, a), Low(q, a))
  {
    BitsSum(group, width);
    SpareFits(group, width);
    GroupOf(group, p, s, width);
    GroupOf(group, q, t, width);
    hide Mask, Encode, Stored, GroupPriority, PreemptBits, Spare, Low, Shr, Less;
    LeftOrder(p, q, PreemptBits(group, width), Spare(group, width));
  }

  /** Bits of the group field below the implemented ones. */
  function Spare(group: bv32, width: bv32): bv32 {
    7 - (group & 7) - PreemptBits(group, width)
  }

  lemma SpareFits(group: bv32, width: bv32)
    requires 1 <= width <= 8
    ensures PreemptBits(group, width) <= 8 && Byte(PreemptBits(group, width), Spare(group, width))
  {
  }

  lemma GroupOf(group: bv32, p: bv32, s: bv32, width: bv32)
    requires 1 <= width <= 8
    ensures PreemptBits(group, width) <= 8 && Spare(group, width) <= 8
    ensures GroupPriority(Stored(Encode(group, p, s, width), width), group) ==
            Shl(Low(p, PreemptBits(group, width)), Spare(group, width))
  {
  }

  lemma LeftOrder(p: bv32, q: bv32, a: bv32, c: bv32)
    requires Byte(a, c)
    ensures Less(Shl(Low(p, a), c), Shl(Low(q, a), c)) <==> Less(Low(p, a), Low(q, a))
  {
    hide Mask, Low, Shr, Shl, Less, Small;
    LowTwice(p, a);
    LowTwice(q, a);
    var x, y := Shl(Low(p, a), c), Shl(Low(q, a), c);
    ShiftBack(p, a, c);
    ShiftBack(q, a, c);
    ShiftOrder(x, y, c);
    ShiftOrder(y, x, c);
    Trichotomy(x, y);
    Trichotomy(Low(p, a), Low(q, a));
  }

  lemma ShiftBack(p: bv32, a: bv32, c: bv32)
    requires Byte(a, c)
    ensures Shr(Shl(Low(p, a), c), c) == Low(p, a) && Small(Shl(Low(p, a), c))
  {
  }
}
