/**
 The compressed map from method indexes to .bss slots.

 An entry holds one index with its slot and a 16-bit mask of earlier indexes whose slots directly
 precede it. The writer counts entries in one pass and produces them in another; the runtime looks
 an index up by binary search on the entries.
 */
module BssMapping {
  import opened Wrappers
  import opened Align

  datatype Pair = Pair(index: nat, slot: nat)
  datatype Entry = Entry(index: nat, mask: nat, slot: nat)

  function PopCount(v: nat): nat {
    if v == 0 then 0 else v % 2 + PopCount(v / 2)
  }

  predicate LowBitsClear(v: nat, k: nat) {
    k == 0 || (v % 2 == 0 && LowBitsClear(v / 2, k - 1))
  }

  // ---------- encoder and reader, as in the source ----------

  function Fresh(p: Pair): Entry { Entry(p.index, 0, p.slot) }

  // Merging must not shift a set bit out of the mask.
  predicate Mergeable(e: Entry, p: Pair, pointerSize: nat)
    requires e.index < p.index
  {
    var diff := p.index - e.index;
    e.slot + pointerSize == p.slot && diff <= 16 && LowBitsClear(e.mask, diff)
  }

  function Merge(e: Entry, p: Pair): Entry
    requires e.index < p.index
  {
    Entry(p.index, ShiftRight(e.mask + Pow2(16), p.index - e.index), p.slot)
  }

  predicate Covers(e: Entry, i: nat) {
    i <= e.index && (e.index == i || (e.index - i <= 16 && ShiftRight(e.mask, 16 - (e.index - i)) % 2 == 1))
  }

  function SlotOf(e: Entry, i: nat, pointerSize: nat): int
    requires Covers(e, i)
  {
    if e.index == i then e.slot else e.slot - PopCount(ShiftRight(e.mask, 16 - (e.index - i))) * pointerSize
  }

  // The first entry that is not below the index decides.
  function Find(es: seq<Entry>, i: nat, pointerSize: nat): Option<int> {
    if es == [] then None
    else if es[0].index < i then Find(es[1..], i, pointerSize)
    else FindIn(es[0], i, pointerSize)
  }

  function FindIn(e: Entry, i: nat, pointerSize: nat): Option<int> {
    if Covers(e, i) then Some(SlotOf(e, i, pointerSize)) else None
  }

  ghost predicate Sorted(es: seq<Entry>) {
    forall a, b :: 0 <= a < b < |es| ==> es[a].index < es[b].index
  }

  lemma {:induction false} FindAt(es: seq<Entry>, i: nat, pointerSize: nat, k: nat)
    requires k <= |es| && (forall a :: 0 <= a < k ==> es[a].index < i) && (k < |es| ==> es[k].index >= i)
    ensures Find(es, i, pointerSize) == if k == |es| then None else FindIn(es[k], i, pointerSize)
  {
    if k > 0 { FindAt(es[1..], i, pointerSize, k - 1); }
  }

  /** The runtime's lookup: a binary search for the partition point, which needs sorted entries. */
  method LookUp(es: seq<Entry>, i: nat, pointerSize: nat) returns (slot: Option<int>)
    requires Sorted(es)
    ensures slot == Find(es, i, pointerSize)
  {
    var low, high := 0, |es|;
    while low < high
      invariant low <= high <= |es|
      invariant forall a :: 0 <= a < low ==> es[a].index < i
      invariant forall a :: high <= a < |es| ==> es[a].index >= i
    {
      var mid := (low + high) / 2;
      if es[mid].index < i {
        low := mid + 1;
      } else {
        high := mid;
      }
    }
    FindAt(es, i, pointerSize, low);
    slot := None;
    if low != |es| && Covers(es[low], i) {
      slot := Some(SlotOf(es[low], i, pointerSize));
    }
  }

  // ---------- one entry ----------

  lemma {:induction false} ShiftShift(v: nat, a: nat, b: nat)
    ensures ShiftRight(ShiftRight(v, a), b) == ShiftRight(v, a + b)
    decreases a
  {
    if a > 0 { ShiftShift(v / 2, a - 1, b); }
  }

  lemma {:induction false} ShiftAdd(v: nat, a: nat, b: nat)
    requires b <= a
    ensures ShiftRight(v + Pow2(a), b) == ShiftRight(v, b) + Pow2(a - b)
    decreases b
  {
    if b > 0 {
      assert (v + Pow2(a)) / 2 == v / 2 + Pow2(a - 1);
      ShiftAdd(v / 2, a - 1, b - 1);
    }
  }

  lemma {:induction false} ShiftBound(v: nat, a: nat, b: nat)
    requires b <= a && v < Pow2(a)
    ensures ShiftRight(v, b) < Pow2(a - b)
    decreases b
  {
    if b > 0 { ShiftBound(v / 2, a - 1, b - 1); }
  }

  lemma {:induction false} ShiftOut(v: nat, a: nat, b: nat)
    requires a <= b && v < Pow2(a)
    ensures ShiftRight(v, b) == 0
    decreases b
  {
    if b > 0 { ShiftOut(v / 2, if a == 0 then 0 else a - 1, b - 1); }
  }

  lemma {:induction false} PopAdd(v: nat, a: nat)
    requires v < Pow2(a)
    ensures PopCount(v + Pow2(a)) == PopCount(v) + 1
    decreases a
  {
    if a > 0 {
      assert (v + Pow2(a)) / 2 == v / 2 + Pow2(a - 1) && (v + Pow2(a)) % 2 == v % 2;
      PopAdd(v / 2, a - 1);
    }
  }

  lemma {:induction false} ClearBit(v: nat, k: nat, b: nat)
    requires LowBitsClear(v, k) && b < k
    ensures ShiftRight(v, b) % 2 == 0
    decreases k
  {
    if b > 0 { ClearBit(v / 2, k - 1, b - 1); }
  }

  // The mask bits from index `i` upwards, before and after a merge.
  lemma MergedBetween(e: Entry, p: Pair, i: nat)
    requires e.mask < Pow2(16) && e.index < i < p.index && p.index - i <= 16
    ensures ShiftRight(Merge(e, p).mask, 16 - (p.index - i)) == 0
  {
    var b, diff := 16 - (p.index - i), p.index - e.index;
    assert Pow2(17) == 2 * Pow2(16);
    hide Pow2, ShiftRight;
    ShiftShift(e.mask + Pow2(16), diff, b);
    ShiftOut(e.mask + Pow2(16), 17, diff + b);
  }

  lemma MergedOlder(e: Entry, p: Pair, i: nat)
    requires e.mask < Pow2(16) && i <= e.index < p.index && p.index - i <= 16
    ensures var was, now := ShiftRight(e.mask, 16 - (e.index - i)), ShiftRight(Merge(e, p).mask, 16 - (p.index - i));
      && PopCount(now) == PopCount(was) + 1
      && (i < e.index ==> now % 2 == was % 2)
      && (i == e.index ==> was == 0 && now == 1)
  {
    hide PopCount, Pow2, ShiftRight;
    var b, diff, d := 16 - (p.index - i), p.index - e.index, e.index - i;
    PowParity(d);
    ShiftShift(e.mask + Pow2(16), diff, b);
    assert diff + b == 16 - d;
    ShiftAdd(e.mask, 16, 16 - d);
    ShiftBound(e.mask, 16, 16 - d);
    PopAdd(ShiftRight(e.mask, 16 - d), d);
  }

  // An index already covered, and still within reach of the mask.
  lemma OlderKeepsSlot(e: Entry, p: Pair, pointerSize: nat, i: nat)
    requires e.mask < Pow2(16) && i <= e.index < p.index && p.index - i <= 16 && Mergeable(e, p, pointerSize)
    ensures Covers(Merge(e, p), i) <==> Covers(e, i)
    ensures Covers(e, i) ==> SlotOf(Merge(e, p), i, pointerSize) == SlotOf(e, i, pointerSize)
  {
    assert PopCount(0) == 0;
    hide Pow2, ShiftRight, PopCount, LowBitsClear, Merge;
    MergedOlder(e, p, i);
    var was, now := ShiftRight(e.mask, 16 - (e.index - i)), ShiftRight(Merge(e, p).mask, 16 - (p.index - i));
    assert Merge(e, p).index == p.index && Merge(e, p).slot == p.slot by { MergedFields(e, p); }
    OneSlotBack(e.slot, PopCount(was), pointerSize);
    assert PopCount(now) * pointerSize == (PopCount(was) + 1) * pointerSize;
  }

  /** Merging adds exactly one index, and no earlier index loses or changes its slot. */
  lemma MergeKeepsSlots(e: Entry, p: Pair, pointerSize: nat, i: nat)
    requires e.mask < Pow2(16) && e.index < p.index && Mergeable(e, p, pointerSize)
    ensures Covers(Merge(e, p), i) <==> i == p.index || Covers(e, i)
    ensures Covers(e, i) ==> SlotOf(Merge(e, p), i, pointerSize) == SlotOf(e, i, pointerSize)
  {
    hide Pow2, ShiftRight, PopCount, LowBitsClear, SlotOf;
    if e.index < i < p.index && p.index - i <= 16 {
      MergedBetween(e, p, i);
    } else if i <= e.index && p.index - i <= 16 {
      OlderKeepsSlot(e, p, pointerSize, i);
    } else if i < e.index && e.index - i <= 16 {
      ClearBit(e.mask, p.index - e.index, 16 - (e.index - i));
    }
  }

  lemma MergedFields(e: Entry, p: Pair)
    requires e.index < p.index
    ensures Merge(e, p).index == p.index && Merge(e, p).slot == p.slot
  {
  }

  lemma OneSlotBack(slot: int, n: nat, size: nat)
    ensures slot + size - (n + 1) * size == slot - n * size
    ensures n == 0 ==> slot - n * size == slot
  {
  }

  lemma MergeStaysNarrow(e: Entry, p: Pair)
    requires e.mask < Pow2(16) && e.index < p.index && p.index - e.index <= 16
    ensures Merge(e, p).mask < Pow2(16)
  {
    var diff := p.index - e.index;
    assert Pow2(17) == 2 * Pow2(16);
    hide Pow2, ShiftRight;
    ShiftBound(e.mask + Pow2(16), 17, diff);
    PowGrows(17 - diff, 16);
  }

  lemma {:induction false} PowParity(d: nat)
    ensures if d == 0 then Pow2(d) == 1 else Pow2(d) % 2 == 0
  {
    if d > 0 {
      var whole: int, half: int := Pow2(d), Pow2(d - 1);
      assert whole == 2 * half;
      hide Pow2;
      TwiceIsEven(half);
    }
  }

  lemma TwiceIsEven(x: int)
    ensures 2 * x % 2 == 0
  {
  }

  lemma {:induction false} PowGrows(a: nat, b: nat)
    requires a <= b
    ensures Pow2(a) <= Pow2(b)
    decreases b - a
  {
    if a < b { PowGrows(a, b - 1); }
  }

  // ---------- the whole mapping ----------

  ghost predicate Ascending(ps: seq<Pair>) {
    forall i, j :: 0 <= i < j < |ps| ==> ps[i].index < ps[j].index
  }

  datatype Encoding = Encoding(done: seq<Entry>, open: Entry)

  /** The encoder after the first `i` pairs. */
  function EncodeAt(ps: seq<Pair>, pointerSize: nat, i: nat): (s: Encoding)
    requires Ascending(ps) && 1 <= i <= |ps|
    ensures s.open.index == ps[i - 1].index && s.open.slot == ps[i - 1].slot
  {
    if i == 1 then Encoding([], Fresh(ps[0])) else
      var s := EncodeAt(ps, pointerSize, i - 1);
      if Mergeable(s.open, ps[i - 1], pointerSize) then s.(open := Merge(s.open, ps[i - 1]))
      else Encoding(s.done + [s.open], Fresh(ps[i - 1]))
  }

  function Encode(ps: seq<Pair>, pointerSize: nat): seq<Entry>
    requires Ascending(ps) && ps != []
  {
    var s := EncodeAt(ps, pointerSize, |ps|);
    s.done + [s.open]
  }

  /** The planning pass: counts entries without keeping them. */
  method CountEntries(ps: seq<Pair>, pointerSize: nat) returns (n: nat)
    requires Ascending(ps)
    ensures n == if ps == [] then 0 else |Encode(ps, pointerSize)|
  {
    n := 0;
    var first := true;
    var entry := Entry(0xffff, 0, 0xffff_ffff);
    for i := 0 to |ps|
      invariant first <==> i == 0
      invariant i == 0 ==> n == 0
      invariant i > 0 ==> n == |EncodeAt(ps, pointerSize, i).done| + 1 && entry == EncodeAt(ps, pointerSize, i).open
    {
      if !first && Mergeable(entry, ps[i], pointerSize) {
        entry := Merge(entry, ps[i]);
      } else {
        entry := Fresh(ps[i]);
        n := n + 1;
        first := false;
      }
    }
  }

  /** The writing pass: stores an entry when the next pair does not merge into it. */
  method WriteEntries(ps: seq<Pair>, pointerSize: nat) returns (es: seq<Entry>)
    requires Ascending(ps) && ps != []
    ensures es == Encode(ps, pointerSize)
  {
    es := [];
    var first := true;
    var entry := Entry(0xffff, 0, 0xffff_ffff);
    for i := 0 to |ps|
      invariant first <==> i == 0
      invariant i == 0 ==> es == []
      invariant i > 0 ==> Encoding(es, entry) == EncodeAt(ps, pointerSize, i)
    {
      if first {
        first := false;
        entry := Fresh(ps[i]);
      } else if Mergeable(entry, ps[i], pointerSize) {
        entry := Merge(entry, ps[i]);
      } else {
        es := es + [entry];
        entry := Fresh(ps[i]);
      }
    }
    es := es + [entry];
  }

  // ---------- what the runtime finds ----------

  // The slot of an index among the first `n` pairs.
  function SlotIn(ps: seq<Pair>, n: nat, i: nat): Option<int>
    requires n <= |ps|
  {
    if n == 0 then None else if ps[n - 1].index == i then Some(ps[n - 1].slot) else SlotIn(ps, n - 1, i)
  }

  ghost predicate AllBelow(es: seq<Entry>, i: nat) {
    forall e :: e in es ==> e.index < i
  }

  lemma {:induction false} FindLast(es: seq<Entry>, e: Entry, i: nat, pointerSize: nat)
    ensures Find(es + [e], i, pointerSize) ==
      if AllBelow(es, i) then FindIn(e, i, pointerSize) else Find(es, i, pointerSize)
    decreases |es|
  {
    if es == [] {
      assert es + [e] == [e];
      assert Find([], i, pointerSize) == None;
    } else {
      assert (es + [e])[1..] == es[1..] + [e];
      assert es == [es[0]] + es[1..];
      FindLast(es[1..], e, i, pointerSize);
    }
  }

  lemma {:induction false} NothingAbove(es: seq<Entry>, i: nat, pointerSize: nat)
    requires AllBelow(es, i)
    ensures Find(es, i, pointerSize) == None
  {
    if es != [] { NothingAbove(es[1..], i, pointerSize); }
  }

  lemma {:induction false} ShiftZero(k: nat)
    ensures ShiftRight(0, k) == 0
  {
    if k > 0 { ShiftZero(k - 1); }
  }

  lemma FreshCovers(p: Pair, i: nat, pointerSize: nat)
    ensures FindIn(Fresh(p), i, pointerSize) == if i == p.index then Some(p.slot) else None
  {
    if i < p.index && p.index - i <= 16 { ShiftZero(16 - (p.index - i)); }
  }

  lemma MergeFinds(e: Entry, p: Pair, i: nat, pointerSize: nat)
    requires e.mask < Pow2(16) && e.index < p.index && Mergeable(e, p, pointerSize)
    ensures FindIn(Merge(e, p), i, pointerSize) == if i == p.index then Some(p.slot) else FindIn(e, i, pointerSize)
  {
    MergeKeepsSlots(e, p, pointerSize, i);
    hide Pow2, ShiftRight, PopCount, LowBitsClear;
  }

  ghost predicate Encodes(s: Encoding, ps: seq<Pair>, n: nat, pointerSize: nat)
    requires n <= |ps|
  {
    && s.open.mask < Pow2(16)
    && AllBelow(s.done, s.open.index)
    && forall i :: Find(s.done + [s.open], i, pointerSize) == SlotIn(ps, n, i)
  }

  lemma EncodeStep(ps: seq<Pair>, pointerSize: nat, n: nat, s: Encoding, i: nat)
    requires Ascending(ps) && 1 <= n < |ps| && s == EncodeAt(ps, pointerSize, n) && Encodes(s, ps, n, pointerSize)
    ensures var t := EncodeAt(ps, pointerSize, n + 1); Find(t.done + [t.open], i, pointerSize) == SlotIn(ps, n + 1, i)
  {
    hide Covers, Mergeable, Pow2, Merge;
    var p, t := ps[n], EncodeAt(ps, pointerSize, n + 1);
    FindLast(s.done, s.open, i, pointerSize);
    if Mergeable(s.open, p, pointerSize) {
      FindLast(s.done, t.open, i, pointerSize);
      MergeFinds(s.open, p, i, pointerSize);
    } else {
      FindLast(s.done + [s.open], t.open, i, pointerSize);
      FreshCovers(p, i, pointerSize);
      if AllBelow(s.done + [s.open], i) { NothingAbove(s.done + [s.open], i, pointerSize); }
    }
  }

  lemma {:induction false} EncodingIsRight(ps: seq<Pair>, pointerSize: nat, n: nat)
    requires Ascending(ps) && 1 <= n <= |ps|
    ensures Encodes(EncodeAt(ps, pointerSize, n), ps, n, pointerSize)
  {
    hide Pow2, Covers, ShiftRight, LowBitsClear;
    if n == 1 {
      var s := EncodeAt(ps, pointerSize, 1);
      forall i
        ensures Find(s.done + [s.open], i, pointerSize) == SlotIn(ps, 1, i)
      {
        FindLast([], s.open, i, pointerSize);
        FreshCovers(ps[0], i, pointerSize);
        assert SlotIn(ps, 0, i) == None;
      }
    } else {
      EncodingIsRight(ps, pointerSize, n - 1);
      var s, t := EncodeAt(ps, pointerSize, n - 1), EncodeAt(ps, pointerSize, n);
      if Mergeable(s.open, ps[n - 1], pointerSize) { MergeStaysNarrow(s.open, ps[n - 1]); }
      forall i
        ensures Find(t.done + [t.open], i, pointerSize) == SlotIn(ps, n, i)
      {
        EncodeStep(ps, pointerSize, n - 1, s, i);
      }
    }
  }

  /** Entries are written in ascending order, as the binary search needs them. */
  lemma {:induction false} EntriesAscend(ps: seq<Pair>, pointerSize: nat, n: nat)
    requires Ascending(ps) && 1 <= n <= |ps|
    ensures var s := EncodeAt(ps, pointerSize, n); Sorted(s.done + [s.open])
  {
    hide Pow2, ShiftRight, LowBitsClear;
    if n > 1 {
      EntriesAscend(ps, pointerSize, n - 1);
      var s, t := EncodeAt(ps, pointerSize, n - 1), EncodeAt(ps, pointerSize, n);
      var was, now := s.done + [s.open], t.done + [t.open];
      forall a, b | 0 <= a < b < |now|
        ensures now[a].index < now[b].index
      {
        assert was[|s.done|] == s.open;
        if b < |was| - 1 { assert now[a] == was[a] && now[b] == was[b]; }
        else if a < |s.done| { assert now[a] == was[a]; }
      }
    }
  }

  lemma EncodeIsSorted(ps: seq<Pair>, pointerSize: nat)
    requires Ascending(ps) && ps != []
    ensures Sorted(Encode(ps, pointerSize))
  {
    hide EncodeAt;
    EntriesAscend(ps, pointerSize, |ps|);
  }

  // What fits into the 16-bit and 32-bit fields of an entry.
  predicate NarrowPair(p: Pair) { p.index < 0x1_0000 && p.slot < 0x1_0000_0000 }
  predicate NarrowEntry(e: Entry) { e.index < 0x1_0000 && e.mask < 0x1_0000 && e.slot < 0x1_0000_0000 }

  lemma Pow16()
    ensures Pow2(16) == 0x1_0000
  {
    assert Pow2(4) == 16 && Pow2(8) == 256 && Pow2(12) == 4096;
  }

  /** The fields of an entry hold all that encoding puts into them. */
  lemma {:induction false} EntriesAreNarrow(ps: seq<Pair>, pointerSize: nat, n: nat)
    requires Ascending(ps) && 1 <= n <= |ps| && forall p :: p in ps ==> NarrowPair(p)
    ensures var s := EncodeAt(ps, pointerSize, n); NarrowEntry(s.open) && forall e :: e in s.done ==> NarrowEntry(e)
  {
    assert NarrowPair(ps[n - 1]);
    if n > 1 {
      EntriesAreNarrow(ps, pointerSize, n - 1);
      hide Pow2, ShiftRight, LowBitsClear;
      Pow16();
      var s := EncodeAt(ps, pointerSize, n - 1);
      if Mergeable(s.open, ps[n - 1], pointerSize) { MergeStaysNarrow(s.open, ps[n - 1]); }
    }
  }

  /** Looking an index up in the written mapping gives its own slot, and nothing for an index that has none. */
  lemma MappingReadsBack(ps: seq<Pair>, pointerSize: nat, i: nat)
    requires Ascending(ps) && ps != []
    ensures forall j :: 0 <= j < |ps| && ps[j].index == i ==>
      Find(Encode(ps, pointerSize), i, pointerSize) == Some(ps[j].slot)
    ensures (forall j :: 0 <= j < |ps| ==> ps[j].index != i) ==> Find(Encode(ps, pointerSize), i, pointerSize) == None
  {
    EncodingIsRight(ps, pointerSize, |ps|);
    hide EncodeAt, Find;
    SlotInIsRight(ps, |ps|, i);
  }

  lemma {:induction false} SlotInIsRight(ps: seq<Pair>, n: nat, i: nat)
    requires Ascending(ps) && n <= |ps|
    ensures forall j :: 0 <= j < n && ps[j].index == i ==> SlotIn(ps, n, i) == Some(ps[j].slot)
    ensures (forall j :: 0 <= j < n ==> ps[j].index != i) ==> SlotIn(ps, n, i) == None
  {
    if n > 0 { SlotInIsRight(ps, n - 1, i); }
  }
}
