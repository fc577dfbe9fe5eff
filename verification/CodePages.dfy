/** Conversion between Unicode and a double-byte code page by sorted pair tables. */
module DoubleByteCodePage {
  import opened Powers

  type wchar = n: nat | n < 0x1_0000

  /** Number of pairs in front of the closing pair of zeros. */
  function Pairs(t: seq<wchar>): int {
    |t| / 2 - 1
  }

  /** A flat table `key, value, key, value, ..., 0, 0` with strictly ascending keys and no other zeros. */
  predicate Table(t: seq<wchar>) {
    |t| % 2 == 0 && Pairs(t) >= 0 &&
    t[2 * Pairs(t)] == 0 && t[2 * Pairs(t) + 1] == 0 &&
    (forall i :: 0 <= i < Pairs(t) ==> t[2 * i] > 0 && t[2 * i + 1] > 0) &&
    (forall i, j :: 0 <= i < j < Pairs(t) ==> t[2 * i] < t[2 * j])
  }

  /** Index of the first pair whose member `side` (0 the key, 1 the value) is `c`; `Pairs(t)` if none. */
  function IndexOf(t: seq<wchar>, side: nat, c: wchar, from: nat): (i: nat)
    requires |t| % 2 == 0 && side < 2 && from <= Pairs(t)
    ensures from <= i <= Pairs(t)
    ensures forall j :: from <= j < i ==> t[2 * j + side] != c
    ensures i < Pairs(t) ==> t[2 * i + side] == c
    decreases Pairs(t) - from
  {
    if from == Pairs(t) || t[2 * from + side] == c then from else IndexOf(t, side, c, from + 1)
  }

  /** The value stored for a key, 0 when the key is absent. */
  function Mapped(t: seq<wchar>, key: wchar): wchar
    requires Table(t)
  {
    t[2 * IndexOf(t, 0, key, 0) + 1]
  }

  /** The first key with a given value, 0 when there is none. */
  function FirstKey(t: seq<wchar>, value: wchar): wchar
    requires Table(t)
  {
    t[2 * IndexOf(t, 1, value, 0)]
  }

  /** A 16-bit key cannot be smaller than its position, so no table has more than 65535 pairs. */
  lemma {:induction false} KeyAtLeast(t: seq<wchar>, i: nat)
    requires Table(t) && i < Pairs(t)
    ensures t[2 * i] >= i + 1
    decreases i
  {
    if i > 0 {
      KeyAtLeast(t, i - 1);
      assert t[2 * (i - 1)] < t[2 * i];
    }
  }

  /** The search with its fixed budget of 16 probes finds every key of every table; `probed` are the pairs
      it looked at, never the closing one unless the table is empty. */
  method Search(t: seq<wchar>, chr: wchar) returns (c: wchar, ghost probed: seq<nat>)
    requires Table(t) && chr > 0
    ensures c == Mapped(t, chr)
    ensures |probed| <= 16 && forall i :: 0 <= i < |probed| ==> probed[i] < Pairs(t) || Pairs(t) == 0
  {
    hide Mapped, IndexOf, Pow2, Table, Bracket, Width;
    Capacity(t, chr);
    var li: nat, hi: nat := 0, |t| / 2 - 1;
    var n: nat, i: nat := 16, 0;
    ghost var tested := false;
    probed := [];
    while n > 0
      invariant 0 <= n <= 16 && li <= hi && Pairs(t) == |t| / 2 - 1 && Bracket(t, chr, li, hi)
      invariant Width(hi - li, n, tested) && Tested(t, chr, li, tested)
      invariant |probed| == 16 - n && forall j :: 0 <= j < |probed| ==> probed[j] < Pairs(t) || Pairs(t) == 0
    {
      Halving(hi - li, n, tested);
      Narrow(t, chr, li, hi);
      i := li + (hi - li) / 2;
      probed := probed + [i];
      if chr == t[i * 2] {
        KeyUnique(t, chr, i);
        return t[i * 2 + 1], probed;
      }
      if chr > t[i * 2] {
        li := i;
        tested := true;
      } else {
        hi := i;
      }
      n := n - 1;
    }
    NotFound(t, chr, li, hi, tested);
    c := 0;
  }

  /** All keys in front of `li` are smaller than `chr`, all from `hi` on are larger. */
  predicate Bracket(t: seq<wchar>, chr: wchar, li: nat, hi: nat)
    requires Table(t)
  {
    li <= hi <= Pairs(t) && (Pairs(t) > 0 ==> li < Pairs(t)) &&
    (forall k :: 0 <= k < li ==> t[2 * k] < chr) && (forall k :: hi <= k < Pairs(t) ==> t[2 * k] > chr)
  }

  /** The interval still fits the remaining probes; once its lower end was probed it may be one wider. */
  predicate Width(w: nat, n: nat, tested: bool) {
    if tested then w <= Pow2(n) else w <= Pow2(n) - 1
  }

  /** A lower end that has moved was probed and is smaller than `chr`. */
  predicate Tested(t: seq<wchar>, chr: wchar, li: nat, tested: bool)
    requires Table(t)
  {
    if tested then Pairs(t) > 0 ==> li < Pairs(t) && t[2 * li] < chr else li == 0
  }

  lemma Halving(w: nat, n: nat, tested: bool)
    requires n > 0 && Width(w, n, tested)
    ensures Width(w / 2, n - 1, tested) && Width(w - w / 2, n - 1, true)
  {
  }

  lemma Narrow(t: seq<wchar>, chr: wchar, li: nat, hi: nat)
    requires Table(t) && chr > 0 && Bracket(t, chr, li, hi)
    ensures li <= hi
    ensures var i := li + (hi - li) / 2;
            2 * i + 1 < |t| && (i < Pairs(t) || Pairs(t) == 0) &&
            (t[2 * i] < chr ==> Bracket(t, chr, i, hi) && Tested(t, chr, i, true)) &&
            (t[2 * i] > chr ==> Bracket(t, chr, li, i))
  {
    var i := li + (hi - li) / 2;
    assert forall k :: 0 <= k < i < Pairs(t) ==> t[2 * k] < t[2 * i];
    assert forall k :: i < k < Pairs(t) ==> t[2 * i] < t[2 * k];
  }

  lemma Capacity(t: seq<wchar>, chr: wchar)
    requires Table(t)
    ensures Pairs(t) >= 0 && Width(Pairs(t), 16, false) && Bracket(t, chr, 0, Pairs(t)) && Tested(t, chr, 0, false)
  {
    if Pairs(t) > 0 { KeyAtLeast(t, Pairs(t) - 1); }
    SixteenProbes();
  }

  lemma NotFound(t: seq<wchar>, chr: wchar, li: nat, hi: nat, tested: bool)
    requires Table(t) && chr > 0 && Bracket(t, chr, li, hi) && Width(hi - li, 0, tested)
    requires Tested(t, chr, li, tested)
    ensures Mapped(t, chr) == 0
  {
    assert Pow2(0) == 1;
    assert forall k :: 0 <= k < Pairs(t) ==> t[2 * k] != chr;
  }

  lemma SixteenProbes()
    ensures Pow2(16) == 0x1_0000
  {
    assert Pow2(4) == 16;
    assert Pow2(8) == 16 * Pow2(4);
    assert Pow2(12) == 16 * Pow2(8);
    assert Pow2(16) == 16 * Pow2(12);
  }

  lemma KeyUnique(t: seq<wchar>, chr: wchar, i: nat)
    requires Table(t) && chr > 0 && i <= Pairs(t) && t[2 * i] == chr
    ensures IndexOf(t, 0, chr, 0) == i && Mapped(t, chr) == t[2 * i + 1]
  {
    var k := IndexOf(t, 0, chr, 0);
    assert i < Pairs(t);
    assert k <= i;
  }

  /** The space-saving reverse search: a pointer walks over the values and steps back to the key. */
  method ReverseScan(t: seq<wchar>, chr: wchar) returns (c: wchar)
    requires Table(t) && chr > 0
    ensures c == FirstKey(t, chr)
  {
    var p := 1;
    ghost var k := 0;
    while true
      invariant p == 2 * k + 1 && k <= Pairs(t)
      invariant IndexOf(t, 1, chr, 0) == IndexOf(t, 1, chr, k)
      decreases Pairs(t) - k
    {
      c := t[p];
      p := p + 2;
      if c == 0 || c == chr { break; }
      k := k + 1;
    }
    p := p - 3;
    c := t[p];
  }

  predicate HasPair(t: seq<wchar>, key: wchar, value: wchar)
    requires Table(t)
  {
    exists i :: 0 <= i < Pairs(t) && t[2 * i] == key && t[2 * i + 1] == value
  }

  /** `c` is the value in the pair with this key, 0 exactly if there is no such pair. */
  ghost predicate Listed(t: seq<wchar>, key: wchar, c: wchar)
    requires Table(t)
  {
    (c != 0 ==> HasPair(t, key, c)) && (c == 0 <==> forall value: wchar :: !HasPair(t, key, value))
  }

  /** `c` is the smallest key in a pair with this value, 0 exactly if there is no such pair. */
  ghost predicate ListedFor(t: seq<wchar>, value: wchar, c: wchar)
    requires Table(t)
  {
    (c != 0 ==> HasPair(t, c, value)) && (c == 0 <==> forall key: wchar :: !HasPair(t, key, value)) &&
    (forall key: wchar :: HasPair(t, key, value) ==> c <= key)
  }

  lemma ConvertListed(t: seq<wchar>, chr: wchar)
    requires Table(t)
    ensures chr > 0 ==> Listed(t, chr, Mapped(t, chr)) && ListedFor(t, chr, FirstKey(t, chr))
  {
    if chr > 0 {
      forall key: wchar | HasPair(t, key, chr) ensures FirstKey(t, chr) <= key && FirstKey(t, chr) != 0 {
        FirstKeyLeast(t, key, chr);
      }
      forall value: wchar | HasPair(t, chr, value) ensures Mapped(t, chr) != 0 {
        MappedFound(t, chr, value);
      }
      ValuesListed(t, chr);
    }
    hide HasPair, Table, Mapped, FirstKey;
  }

  lemma FirstKeyLeast(t: seq<wchar>, key: wchar, value: wchar)
    requires Table(t) && HasPair(t, key, value)
    ensures 0 < FirstKey(t, value) <= key
  {
    var k :| 0 <= k < Pairs(t) && t[2 * k] == key && t[2 * k + 1] == value;
    assert IndexOf(t, 1, value, 0) <= k;
  }

  lemma MappedFound(t: seq<wchar>, key: wchar, value: wchar)
    requires Table(t) && HasPair(t, key, value)
    ensures Mapped(t, key) != 0
  {
    var k :| 0 <= k < Pairs(t) && t[2 * k] == key && t[2 * k + 1] == value;
    assert IndexOf(t, 0, key, 0) <= k;
  }

  lemma ValuesListed(t: seq<wchar>, chr: wchar)
    requires Table(t) && chr > 0
    ensures Mapped(t, chr) != 0 ==> HasPair(t, chr, Mapped(t, chr))
    ensures FirstKey(t, chr) != 0 ==> HasPair(t, FirstKey(t, chr), chr)
  {
  }

  /** `ff_convert` as a function of the tables. */
  function Convert(tiny: bool, uni2oem: seq<wchar>, oem2uni: seq<wchar>, chr: wchar, dir: bool): wchar
    requires Table(uni2oem) && Table(oem2uni)
  {
    if chr <= 0x80 then chr
    else if !dir then Mapped(uni2oem, chr)
    else if tiny then FirstKey(uni2oem, chr)
    else Mapped(oem2uni, chr)
  }

  /** `dir` false: Unicode to OEM code; `tiny` selects the variant without the second table.  Codes up to 0x80 stay as
      they are; of the others the result is what a pair of the table for this direction lists, the first one if there
      are several, and 0 exactly if no pair does. */
  method FfConvert(tiny: bool, uni2oem: seq<wchar>, oem2uni: seq<wchar>, chr: wchar, dir: bool) returns (c: wchar)
    requires Table(uni2oem) && Table(oem2uni)
    ensures c == Convert(tiny, uni2oem, oem2uni, chr, dir)
    ensures chr <= 0x80 ==> c == chr
    ensures chr > 0x80 && !dir ==> Listed(uni2oem, chr, c)
    ensures chr > 0x80 && dir && !tiny ==> Listed(oem2uni, chr, c)
    ensures chr > 0x80 && dir && tiny ==> ListedFor(uni2oem, chr, c)
  {
    ConvertListed(uni2oem, chr);
    ConvertListed(oem2uni, chr);
    hide Listed, ListedFor, Mapped, FirstKey, Table;
    ghost var probed;
    if chr <= 0x80 {
      c := chr;
    } else if !tiny {
      c, probed := Search(if dir then oem2uni else uni2oem, chr);
    } else if dir {
      c := ReverseScan(uni2oem, chr);
    } else {
      c, probed := Search(uni2oem, chr);
    }
  }

  // ---------------------------------------------------------------- the two variants agree

  /** Each table lists the pairs of the other the other way round. */
  ghost predicate Inverse(t: seq<wchar>, u: seq<wchar>)
    requires Table(t) && Table(u)
  {
    forall key: wchar, value: wchar :: HasPair(t, key, value) <==> HasPair(u, value, key)
  }

  predicate DistinctValues(t: seq<wchar>)
    requires Table(t)
  {
    forall i, j :: 0 <= i < j < Pairs(t) ==> t[2 * i + 1] != t[2 * j + 1]
  }

  lemma MappedPair(t: seq<wchar>, key: wchar, value: wchar)
    requires Table(t) && key > 0 && value > 0
    ensures HasPair(t, key, value) <==> Mapped(t, key) == value
  {
    var k := IndexOf(t, 0, key, 0);
    if HasPair(t, key, value) {
      var i :| 0 <= i < Pairs(t) && t[2 * i] == key && t[2 * i + 1] == value;
      KeyUnique(t, key, i);
    }
  }

  lemma FirstKeyPair(t: seq<wchar>, key: wchar, value: wchar)
    requires Table(t) && key > 0 && value > 0
    ensures FirstKey(t, value) == key ==> HasPair(t, key, value)
    ensures DistinctValues(t) && HasPair(t, key, value) ==> FirstKey(t, value) == key
  {
    var k := IndexOf(t, 1, value, 0);
    assert FirstKey(t, value) == key ==> k < Pairs(t) && t[2 * k] == key && t[2 * k + 1] == value;
  }

  lemma InverseIsDistinct(t: seq<wchar>, u: seq<wchar>)
    requires Table(t) && Table(u) && Inverse(t, u)
    ensures DistinctValues(t)
  {
    forall i, j | 0 <= i < j < Pairs(t) ensures t[2 * i + 1] != t[2 * j + 1] {
      assert HasPair(t, t[2 * i], t[2 * i + 1]) && HasPair(t, t[2 * j], t[2 * j + 1]);
      MappedPair(u, t[2 * i + 1], t[2 * i]);
      MappedPair(u, t[2 * j + 1], t[2 * j]);
      assert t[2 * i] < t[2 * j];
    }
  }

  lemma NoZeroPair(t: seq<wchar>, key: wchar, value: wchar)
    requires Table(t) && HasPair(t, key, value)
    ensures key > 0 && value > 0
  {
  }

  /** For a table with distinct values: the linear search in it equals the binary search in a second table,
      on every code, exactly when the second table is its inverse. */
  lemma TinyVariantAgrees(t: seq<wchar>, u: seq<wchar>)
    requires Table(t) && Table(u) && DistinctValues(t)
    ensures Inverse(t, u) <==> forall c: wchar :: c > 0 ==> FirstKey(t, c) == Mapped(u, c)
  {
    if Inverse(t, u) {
      forall c: wchar | c > 0 ensures FirstKey(t, c) == Mapped(u, c) {
        var x, y := FirstKey(t, c), Mapped(u, c);
        if x > 0 { FirstKeyPair(t, x, c); MappedPair(u, c, x); }
        if y > 0 { MappedPair(u, c, y); FirstKeyPair(t, y, c); }
      }
    }
    if forall c: wchar :: c > 0 ==> FirstKey(t, c) == Mapped(u, c) {
      forall key: wchar, value: wchar ensures HasPair(t, key, value) <==> HasPair(u, value, key) {
        if HasPair(t, key, value) {
          NoZeroPair(t, key, value);
          FirstKeyPair(t, key, value);
          MappedPair(u, value, key);
        }
        if HasPair(u, value, key) {
          NoZeroPair(u, value, key);
          MappedPair(u, value, key);
          FirstKeyPair(t, key, value);
        }
      }
    }
  }

  /** Converting a mapped code and converting back is the identity, in both directions and variants. */
  lemma RoundTrip(tiny: bool, t: seq<wchar>, u: seq<wchar>, chr: wchar, dir: bool)
    requires Table(t) && Table(u) && if tiny then DistinctValues(t) else Inverse(t, u)
    requires forall i :: 0 <= i < Pairs(t) ==> t[2 * i] > 0x80 && t[2 * i + 1] > 0x80
    requires Convert(tiny, t, u, chr, dir) != 0
    ensures Convert(tiny, t, u, Convert(tiny, t, u, chr, dir), !dir) == chr
  {
    if !tiny { InverseIsDistinct(t, u); }
    if chr > 0x80 {
      var c := Convert(tiny, t, u, chr, dir);
      if dir {
        if tiny { FirstKeyPair(t, c, chr); } else { MappedPair(u, chr, c); }
        assert HasPair(t, c, chr);
        MappedPair(t, c, chr);
      } else {
        MappedPair(t, chr, c);
        assert HasPair(t, chr, c);
        FirstKeyPair(t, chr, c);
        MappedPair(u, c, chr);
      }
    }
  }

  /** With one table only, every code that has an OEM code comes back exactly when no OEM code is listed twice. */
  lemma TinyRoundTrip(t: seq<wchar>)
    requires Table(t)
    ensures DistinctValues(t) <==>
            forall key: wchar :: key > 0 && Mapped(t, key) != 0 ==> FirstKey(t, Mapped(t, key)) == key
  {
    forall key: wchar | DistinctValues(t) && key > 0 && Mapped(t, key) != 0
      ensures FirstKey(t, Mapped(t, key)) == key
    {
      MappedPair(t, key, Mapped(t, key));
      FirstKeyPair(t, key, Mapped(t, key));
    }
    if forall key: wchar :: key > 0 && Mapped(t, key) != 0 ==> FirstKey(t, Mapped(t, key)) == key {
      forall i, j | 0 <= i < j < Pairs(t) ensures t[2 * i + 1] != t[2 * j + 1] {
        KeyUnique(t, t[2 * i], i);
        KeyUnique(t, t[2 * j], j);
        assert t[2 * i] < t[2 * j];
      }
    }
  }

  // ---------------------------------------------------------------- upper case conversion

  /** Position of `chr` in a zero-terminated table, or of the terminator. */
  function Position(lower: seq<wchar>, chr: wchar, from: nat): (i: nat)
    requires from < |lower| && lower[|lower| - 1] == 0
    ensures from <= i < |lower| && (lower[i] == 0 || lower[i] == chr)
    ensures forall j :: from <= j < i ==> lower[j] != 0 && lower[j] != chr
    decreases |lower| - from
  {
    if lower[from] == 0 || lower[from] == chr then from else Position(lower, chr, from + 1)
  }

  /** A table closed by a zero (the scan goes no further than the first one), and an entry for each of its codes. */
  predicate CaseTables(lower: seq<wchar>, upper: seq<wchar>) {
    |lower| > 0 && lower[|lower| - 1] == 0 && |upper| >= |lower| - 1
  }

  function Upper(lower: seq<wchar>, upper: seq<wchar>, chr: wchar): wchar
    requires CaseTables(lower, upper)
  {
    var i := Position(lower, chr, 0);
    if lower[i] != 0 then upper[i] else chr
  }

  /** The upper entry beside the first lower entry that is the character, before the table ends; else the character. */
  method FfWtoupper(lower: seq<wchar>, upper: seq<wchar>, chr: wchar) returns (c: wchar)
    requires CaseTables(lower, upper)
    ensures c == Upper(lower, upper, chr)
    ensures forall i :: 0 <= i < |lower| && lower[i] == chr && Effective(lower, i) ==> c == upper[i]
    ensures (forall i :: 0 <= i < |lower| && lower[i] == chr ==> !Effective(lower, i)) ==> c == chr
  {
    var i := 0;
    while lower[i] != 0 && chr != lower[i]
      invariant i < |lower| && Position(lower, chr, 0) == Position(lower, chr, i)
      decreases |lower| - i
    {
      i := i + 1;
    }
    c := if lower[i] != 0 then upper[i] else chr;
  }

  /** The scan for the code at `i` stops there: nothing before `i` ends the table or repeats the code. */
  predicate Effective(lower: seq<wchar>, i: nat)
    requires i < |lower|
  {
    lower[i] != 0 && forall k :: 0 <= k < i ==> lower[k] != 0 && lower[k] != lower[i]
  }

  /** Every upper entry that is also a lower code is listed as its own upper case. */
  predicate FixesUppers(lower: seq<wchar>, upper: seq<wchar>)
    requires CaseTables(lower, upper)
  {
    forall i, j :: 0 <= i < |lower| - 1 && 0 <= j < |lower| - 1 && Relisted(lower, upper, i, j) ==> upper[j] == lower[j]
  }

  /** The upper case of the code at `i` is the code at `j`. */
  predicate Relisted(lower: seq<wchar>, upper: seq<wchar>, i: nat, j: nat)
    requires CaseTables(lower, upper) && i < |lower| - 1 && j < |lower| - 1
  {
    Effective(lower, i) && Effective(lower, j) && upper[i] == lower[j]
  }

  lemma UpperOf(lower: seq<wchar>, upper: seq<wchar>, c: wchar)
    requires CaseTables(lower, upper)
    ensures var i := Position(lower, c, 0);
            if lower[i] == 0 then Upper(lower, upper, c) == c
            else Effective(lower, i) && lower[i] == c && Upper(lower, upper, c) == upper[i]
  {
  }

  lemma EffectiveFound(lower: seq<wchar>, upper: seq<wchar>, i: nat)
    requires CaseTables(lower, upper) && i < |lower| && Effective(lower, i)
    ensures Position(lower, lower[i], 0) == i && Upper(lower, upper, lower[i]) == upper[i]
  {
  }

  /** For every zero-terminated table, upper-casing twice is upper-casing once on every character exactly when an
      upper entry that is also a lower code is its own upper case. */
  lemma UpperIdempotent(lower: seq<wchar>, upper: seq<wchar>)
    requires CaseTables(lower, upper)
    ensures (forall c: wchar :: Upper(lower, upper, Upper(lower, upper, c)) == Upper(lower, upper, c)) <==>
            FixesUppers(lower, upper)
  {
    hide Upper, Position, Effective;
    if forall c: wchar :: Upper(lower, upper, Upper(lower, upper, c)) == Upper(lower, upper, c) {
      forall i, j | 0 <= i < |lower| - 1 && 0 <= j < |lower| - 1 && Relisted(lower, upper, i, j)
        ensures upper[j] == lower[j]
      {
        EffectiveFound(lower, upper, i);
        EffectiveFound(lower, upper, j);
        assert Upper(lower, upper, Upper(lower, upper, lower[i])) == Upper(lower, upper, lower[i]);
      }
    }
    if FixesUppers(lower, upper) {
      forall c: wchar ensures Upper(lower, upper, Upper(lower, upper, c)) == Upper(lower, upper, c) {
        UpperOf(lower, upper, c);
        UpperOf(lower, upper, Upper(lower, upper, c));
        var i, j := Position(lower, c, 0), Position(lower, Upper(lower, upper, c), 0);
        assert lower[i] != 0 && lower[j] != 0 ==> Relisted(lower, upper, i, j);
      }
    }
  }
}

/** Conversion between Unicode and a single-byte code page by a table of 128 entries. */
module SingleByteCodePage {
  type wchar = n: nat | n < 0x1_0000

  /** First position of `chr`; 128 when it is absent. */
  function Position(tbl: seq<wchar>, chr: wchar, from: nat): (i: nat)
    requires |tbl| == 0x80 && from <= 0x80
    ensures from <= i <= 0x80 && (i < 0x80 ==> tbl[i] == chr)
    ensures forall j :: from <= j < i ==> tbl[j] != chr
    decreases 0x80 - from
  {
    if from == 0x80 || tbl[from] == chr then from else Position(tbl, chr, from + 1)
  }

  function Convert(tbl: seq<wchar>, chr: wchar, dir: bool): wchar
    requires |tbl| == 0x80
  {
    if chr < 0x80 then chr
    else if dir then (if chr >= 0x100 then 0 else tbl[chr - 0x80])
    else var i := Position(tbl, chr, 0); if i < 0x80 then i + 0x80 else 0
  }

  /** ASCII stays as it is; a byte becomes its entry; a code becomes the byte of its first entry, and 0 exactly if it
      has none. */
  predicate Stands(tbl: seq<wchar>, chr: wchar, dir: bool, c: wchar)
    requires |tbl| == 0x80
  {
    if chr < 0x80 then c == chr
    else if dir then c == if chr < 0x100 then tbl[chr - 0x80] else 0
    else
      (c == 0 <==> chr !in tbl) &&
      (c != 0 ==> 0x80 <= c < 0x100 && tbl[c - 0x80] == chr && chr !in tbl[..c - 0x80])
  }

  lemma ConvertStands(tbl: seq<wchar>, chr: wchar, dir: bool)
    requires |tbl| == 0x80
    ensures Stands(tbl, chr, dir, Convert(tbl, chr, dir))
  {
  }

  /** `dir` false: Unicode to OEM code.  An exhausted search leaves 0x80, which the mask turns into 0. */
  method FfConvert(tbl: seq<wchar>, chr: wchar, dir: bool) returns (c: wchar)
    requires |tbl| == 0x80
    ensures c == Convert(tbl, chr, dir) && Stands(tbl, chr, dir, c)
  {
    hide Stands;
    ConvertStands(tbl, chr, dir);
    if chr < 0x80 {
      c := chr;
    } else if dir {
      c := if chr >= 0x100 then 0 else tbl[chr - 0x80];
    } else {
      c := 0;
      while c < 0x80
        invariant c <= 0x80 && Position(tbl, chr, 0) == Position(tbl, chr, c)
        decreases 0x80 - c
      {
        if chr == tbl[c] { break; }
        c := c + 1;
      }
      c := (c + 0x80) % 0x100;
    }
  }

  /** A Unicode code that has an OEM code converts back to itself. */
  lemma UnicodeRoundTrip(tbl: seq<wchar>, chr: wchar)
    requires |tbl| == 0x80 && Convert(tbl, chr, false) != 0
    ensures Convert(tbl, Convert(tbl, chr, false), true) == chr
  {
    if chr >= 0x80 {
      assert Position(tbl, chr, 0) < 0x80;
    }
  }

  /** An extended byte survives the trip to Unicode and back exactly when its entry is not an ASCII code
      (nor the "undefined" zero) and no earlier entry is the same. */
  lemma ByteRoundTrip(tbl: seq<wchar>, b: wchar)
    requires |tbl| == 0x80 && 0x80 <= b < 0x100
    ensures Convert(tbl, Convert(tbl, b, true), false) == b <==>
            tbl[b - 0x80] >= 0x80 && forall j :: 0 <= j < b - 0x80 ==> tbl[j] != tbl[b - 0x80]
  {
    var e := tbl[b - 0x80];
    var i := Position(tbl, e, 0);
    assert i <= b - 0x80;
  }
}
