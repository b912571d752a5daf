/**
 How the runtime finds the .bss slot of a method: from the record of a dex file to its bss mapping,
 which must be aligned and complete to be accepted, and from there to the slot.
 */
module OatSlots {
  import opened Wrappers
  import opened Align
  import opened Flatten
  import opened OatLayout
  import opened OatFile
  import opened OatLookup
  import T = OatTables
  import C = OatClasses
  import B = BssMapping

  // ---------- reading a mapping ----------

  function ReadEntry(s: seq<byte>, at: nat): B.Entry
    requires at + 8 <= |s|
  {
    B.Entry(ReadHalf(s, at), ReadHalf(s, at + 2), ReadWord(s, at + 4))
  }

  function ReadEntries(s: seq<byte>, at: nat, n: nat): seq<B.Entry>
    requires at + 8 * n <= |s|
    decreases n
  {
    if n == 0 then [] else [ReadEntry(s, at)] + ReadEntries(s, at + 8, n - 1)
  }

  datatype Loaded = Rejected | NoMapping | Mapping(entries: seq<B.Entry>)

  // A zero offset means no mapping; an unaligned, truncated or empty one is an error.
  function LoadMapping(s: seq<byte>, start: nat, d: nat): Loaded {
    var r := LoadRecord(s, start, d);
    if r.None? then Rejected else MappingAt(s, r.value.bssMapping)
  }

  function MappingAt(s: seq<byte>, at: nat): Loaded {
    if at == 0 then NoMapping
    else if at > |s| || at % 4 != 0 || |s| - at < 4 then Rejected
    else
      var n := ReadWord(s, at);
      if n == 0 || |s| - at < 4 + 8 * n then Rejected else Mapping(ReadEntries(s, at + 4, n))
  }

  function FindSlot(s: seq<byte>, start: nat, d: nat, i: nat, pointerSize: nat): Option<int> {
    var m := LoadMapping(s, start, d);
    if m.Mapping? then B.Find(m.entries, i, pointerSize) else None
  }

  // ---------- entries read back ----------

  lemma HeldEntry(s: seq<byte>, at: nat, e: B.Entry)
    requires Holds(s, at, Half(e.index) + Half(e.mask) + Word(e.slot)) && B.NarrowEntry(e)
    ensures at + 8 <= |s| && ReadEntry(s, at) == e
  {
    hide Holds, Half, Word, ReadWord, ReadHalf;
    HoldsPart(s, at, Half(e.index), Half(e.mask), Word(e.slot));
    HeldHalf(s, at, e.index);
    HeldHalf(s, at + 2, e.mask);
    HeldWord(s, at + 4, e.slot);
  }

  lemma {:induction false} EntriesReadBack(s: seq<byte>, at: nat, es: seq<B.Entry>)
    requires Holds(s, at, EntryBytes(es)) && forall e :: e in es ==> B.NarrowEntry(e)
    ensures at + 8 * |es| <= |s| && ReadEntries(s, at, |es|) == es
    decreases |es|
  {
    if es != [] {
      hide Holds, Half, Word, ReadEntry, B.NarrowEntry;
      assert B.NarrowEntry(es[0]);
      HoldsTwo(s, at, Half(es[0].index) + Half(es[0].mask) + Word(es[0].slot), EntryBytes(es[1..]));
      HeldEntry(s, at, es[0]);
      EntriesReadBack(s, at + 8, es[1..]);
    }
  }

  // ---------- alignment ----------

  // Sizes are whole words; items are aligned to words or not at all.
  ghost predicate WholeWords(cs: seq<Chunk>) {
    forall j :: 0 <= j < |cs| ==> cs[j].size % 4 == 0 && (cs[j].align == 1 || cs[j].align == 4)
  }

  predicate AnyAligned(cs: seq<Chunk>, n: nat)
    requires n <= |cs|
  {
    exists j :: 0 <= j < n && cs[j].align == 4
  }

  /** A run of whole words keeps the alignment it starts with, unless an item in it is aligned. */
  lemma {:induction false} RunOfWords(cs: seq<Chunk>, start: nat, n: nat)
    requires n <= |cs| && WholeWords(cs)
    ensures Cursor(cs, start, n) % 4 == if AnyAligned(cs, n) then 0 else start % 4
  {
    hide RoundUp, Cursor;
    NoCursor(cs, start);
    if n > 0 {
      RunOfWords(cs, start, n - 1);
      NextCursor(cs, start, n - 1);
      WholeWord(Place(cs, start, n - 1), cs[n - 1].size);
      assert AnyAligned(cs, n) <==> AnyAligned(cs, n - 1) || cs[n - 1].align == 4;
    }
  }

  lemma WholeWord(at: nat, size: nat)
    requires size % 4 == 0
    ensures (at + size) % 4 == at % 4
  {
  }

  lemma ClassWords(p: Program)
    ensures WholeWords(ClassChunks(p)) && !AnyAligned(ClassChunks(p), |ClassChunks(p)|)
  {
    hide C.Rank, Concat, RoundUp;
  }

  lemma {:induction false} SomeClass(p: Program, n: nat)
    requires n <= |p.dexFiles|
    ensures AnyAligned(ClassArrayChunks(p), n) <==> Concat(p.ClassLists(), n) != []
  {
    if n > 0 {
      SomeClass(p, n - 1);
      assert AnyAligned(ClassArrayChunks(p), n) <==>
        AnyAligned(ClassArrayChunks(p), n - 1) || ClassArrayChunks(p)[n - 1].align == 4;
    }
  }

  // Any class at all aligns what follows the class records.
  lemma ClassesAlign(p: Program, start: nat)
    requires p.Classes() != []
    ensures End(ClassChunks(p), End(ClassArrayChunks(p), start)) % 4 == 0
  {
    hide RoundUp, Concat, C.SizeOf, Cursor, ClassChunks, ClassArrayChunks;
    WordArrays(p);
    RunOfWords(ClassArrayChunks(p), start, |p.dexFiles|);
    SomeClass(p, |p.dexFiles|);
    ClassWords(p);
    RunOfWords(ClassChunks(p), End(ClassArrayChunks(p), start), |ClassChunks(p)|);
  }

  lemma WordArrays(p: Program)
    ensures WholeWords(ClassArrayChunks(p))
  {
  }

  lemma WordMappings(p: Program, d: nat)
    requires p.Valid() && d < |p.dexFiles|
    ensures WholeWords(BssChunks(p)) && !AnyAligned(BssChunks(p), d) && BssChunks(p)[d].align == 1
  {
    hide B.Encode, Concat;
  }

  lemma MappingsAfterClasses(p: Program, start: nat)
    requires p.Valid()
    ensures PlanFile(p, start).bssAt == End(ClassChunks(p), End(ClassArrayChunks(p), start))
  {
    hide T.PlanAt, End, ClassChunks, ClassArrayChunks, BssChunks;
  }

  /** Wherever the layout starts, the class offsets in front of a mapping align it. */
  lemma MappingsAligned(p: Program, start: nat, d: nat)
    requires p.Valid() && d < |p.dexFiles| && p.dexFiles[d].bss != []
    ensures Place(BssChunks(p), PlanFile(p, start).bssAt, d) % 4 == 0
  {
    assert p.AnyBss() && p.Classes() != [];
    hide p.Valid, RoundUp, Concat, Cursor, PlanFile, BssChunks, End, WholeWords, AnyAligned;
    MappingsAfterClasses(p, start);
    ClassesAlign(p, start);
    WordMappings(p, d);
    RunOfWords(BssChunks(p), PlanFile(p, start).bssAt, d);
    NextCursor(BssChunks(p), PlanFile(p, start).bssAt, d);
  }

  // ---------- results ----------

  lemma CompleteMapping(s: seq<byte>, at: nat, n: nat)
    requires 0 < at && 0 < n && at + 4 + 8 * n <= |s| && ReadWord(s, at) == n
    ensures MappingAt(s, at) == if at % 4 == 0 then Mapping(ReadEntries(s, at + 4, n)) else Rejected
  {
    hide ReadWord, ReadEntries;
  }

  lemma HeldMapping(s: seq<byte>, at: nat, es: seq<B.Entry>)
    requires Holds(s, at, Word(|es|) + EntryBytes(es)) && |es| < U32 && forall e :: e in es ==> B.NarrowEntry(e)
    ensures at + 4 + 8 * |es| <= |s| && ReadWord(s, at) == |es| && ReadEntries(s, at + 4, |es|) == es
  {
    hide Holds, Word, ReadWord, ReadEntries, B.NarrowEntry, EntryBytes;
    HoldsTwo(s, at, Word(|es|), EntryBytes(es));
    EntriesReadBack(s, at + 4, es);
    HeldWord(s, at, |es|);
  }

  lemma EncodedEntries(ps: seq<B.Pair>, pointerSize: nat)
    requires B.Ascending(ps) && ps != [] && forall q :: q in ps ==> B.NarrowPair(q)
    ensures B.Encode(ps, pointerSize) != [] && forall e :: e in B.Encode(ps, pointerSize) ==> B.NarrowEntry(e)
  {
    hide B.NarrowEntry;
    B.EntriesAreNarrow(ps, pointerSize, |ps|);
  }

  /** The runtime accepts the mapping of every dex file and loads it as it was encoded. */
  lemma MappingIsLoaded(p: Program, before: seq<byte>, l: Layout, d: nat)
    requires p.Valid() && before != [] && l == PlanFile(p, |before|) && Complete(p, l) && Fits(p, l)
    requires d < |p.dexFiles| && forall q :: q in p.dexFiles[d].bss ==> B.NarrowPair(q)
    ensures var bss := p.dexFiles[d].bss;
      LoadMapping(WriteFile(p, l, before), l.infos.offset, d) ==
      if bss == [] then NoMapping else Mapping(B.Encode(bss, p.pointerSize))
  {
    hide PlanFile, WriteFile, FrontHeld, TextHeld, CodeHeld, T.AllTablesAt, Place, MappingAt, ReadWord, B.Encode,
         Holds, Concat, LoadRecord;
    var out, bss := WriteFile(p, l, before), p.dexFiles[d].bss;
    AllIsHeld(p, before, l);
    DexFileFits(p, l, out, d);
    MappingHeld(p, l, out, d);
    HoldsFits(out, Place(BssChunks(p), l.bssAt, d), BssMappings(p)[d]);
    AfterStart(p, |before|, d);
    LoadedRecord(p, l, out, d);
    if bss == [] {
      assert MappingAt(out, 0) == NoMapping by { NothingMapped(out); }
    } else {
      EncodedEntries(bss, p.pointerSize);
      HoldsFits(out, BssOffset(p, l, d),
        Word(|B.Encode(bss, p.pointerSize)|) + EntryBytes(B.Encode(bss, p.pointerSize)));
      HeldMapping(out, BssOffset(p, l, d), B.Encode(bss, p.pointerSize));
      CompleteMapping(out, BssOffset(p, l, d), |B.Encode(bss, p.pointerSize)|);
      MappingsAligned(p, |before|, d);
    }
  }

  lemma NothingMapped(s: seq<byte>)
    ensures MappingAt(s, 0) == NoMapping
  {
  }

  /**
   Every method index with a .bss slot is found with that slot, and no other index is; the entries are
   sorted, so the runtime's binary search is this lookup.
   */
  lemma EverySlotIsFound(p: Program, before: seq<byte>, l: Layout, d: nat, i: nat)
    requires p.Valid() && before != [] && l == PlanFile(p, |before|) && Complete(p, l) && Fits(p, l)
    requires d < |p.dexFiles| && forall q :: q in p.dexFiles[d].bss ==> B.NarrowPair(q)
    ensures var m := LoadMapping(WriteFile(p, l, before), l.infos.offset, d);
      m.Mapping? ==> B.Sorted(m.entries)
    ensures var bss, found := p.dexFiles[d].bss,
        FindSlot(WriteFile(p, l, before), l.infos.offset, d, i, p.pointerSize);
      && (forall j :: 0 <= j < |bss| && bss[j].index == i ==> found == Some(bss[j].slot))
      && ((forall j :: 0 <= j < |bss| ==> bss[j].index != i) ==> found == None)
  {
    hide PlanFile, WriteFile, Place, LoadMapping, B.Encode, B.Find, Concat;
    var bss := p.dexFiles[d].bss;
    MappingIsLoaded(p, before, l, d);
    if bss != [] {
      B.MappingReadsBack(bss, p.pointerSize, i);
      B.EncodeIsSorted(bss, p.pointerSize);
    }
  }
}
