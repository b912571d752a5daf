/**
 How the runtime finds things in a finished oat file: dex file records one after the other, from a
 record to a class, from a class to the code of a method, and from the code to what its header tells.
 */
module OatLookup {
  import opened Wrappers
  import opened Align
  import opened Flatten
  import opened OatLayout
  import opened OatCode
  import opened OatFile
  import T = OatTables
  import C = OatClasses

  // ---------- reading ----------

  datatype Record = Record(
    location: seq<byte>, checksum: nat, dexOffset: nat, classArray: nat, lookupTable: nat, sectionsLayout: nat,
    bssMapping: nat)

  function ReadRecord(s: seq<byte>, at: nat): Option<Record> {
    if at + 4 > |s| then None else
      var n := ReadWord(s, at);
      if at + 28 + n > |s| then None else
        var rest := at + 4 + n;
        Some(Record(s[at + 4..rest], ReadWord(s, rest), ReadWord(s, rest + 4), ReadWord(s, rest + 8),
                    ReadWord(s, rest + 12), ReadWord(s, rest + 16), ReadWord(s, rest + 20)))
  }

  // Records follow each other; how long one is depends on its location.
  function RecordAt(s: seq<byte>, start: nat, d: nat): Option<nat> {
    if d == 0 then Some(start) else
      var at := RecordAt(s, start, d - 1);
      if at.None? then None else
        var r := ReadRecord(s, at.value);
        if r.None? then None else Some(at.value + 28 + |r.value.location|)
  }

  function LoadRecord(s: seq<byte>, start: nat, d: nat): Option<Record> {
    var at := RecordAt(s, start, d);
    if at.None? then None else ReadRecord(s, at.value)
  }

  // From a record to its class array, and to class `j`.
  function FindClass(s: seq<byte>, start: nat, d: nat, j: nat): Option<nat> {
    var r := LoadRecord(s, start, d);
    if r.None? || r.value.classArray + 4 * j + 4 > |s| then None else Some(ReadWord(s, r.value.classArray + 4 * j))
  }

  function FindCode(s: seq<byte>, start: nat, d: nat, j: nat, i: nat): Option<nat> {
    var at := FindClass(s, start, d, j);
    if at.None? then None else C.Lookup(s, at.value, i)
  }

  /**
   What the runtime sees around the code offset of method `m`: its code in front of which six words
   tell where its own tables are, the frame of the method `f` that the code was emitted for, and the
   length of the code.
   */
  ghost predicate RuntimeView(p: Program, s: seq<byte>, m: CompiledMethod, f: CompiledMethod, codeOffset: nat) {
    var at, size := codeOffset - (if p.isa == Thumb2 then 1 else 0), |p.storage(m.code)|;
    && 24 <= at && at + size <= |s|
    && s[at..at + size] == p.patched(m.code, m.patches, at)
    && TableBehind(p.storage, s, m.vmap, ReadWord(s, at - 24), at)
    && TableBehind(p.storage, s, m.info, ReadWord(s, at - 20), at)
    && ReadWord(s, at - 16) == f.frameSize && ReadWord(s, at - 12) == f.coreMask && ReadWord(s, at - 8) == f.fpMask
    && ReadWord(s, at - 4) == size
  }

  // A header field leads from the code back to the table, or is zero where there is none.
  ghost predicate TableBehind(m: T.Storage, s: seq<byte>, t: Ptr, field: nat, at: int) {
    if m(t) == [] then field == 0 else field < at && T.TableAt(m, s, t, at - field)
  }

  // ---------- records ----------

  function RecordOf(p: Program, l: Layout, d: nat): Record
    requires p.Valid() && d < |p.dexFiles|
  {
    var f := p.dexFiles[d];
    Record(f.location, f.checksum, f.dexOffset, ClassArrayOffset(p, l, d), f.lookupTable, f.sectionsLayout,
           BssOffset(p, l, d))
  }

  lemma HeldSlice(s: seq<byte>, at: nat, item: seq<byte>)
    requires Holds(s, at, item)
    ensures at + |item| <= |s| && s[at..at + |item|] == item
  {
  }

  lemma SliceHeld(s: seq<byte>, at: nat, item: seq<byte>)
    requires at + |item| <= |s| && s[at..at + |item|] == item
    ensures Holds(s, at, item)
  {
    forall k | 0 <= k < |item|
      ensures s[at + k] == item[k]
    {
      assert s[at..at + |item|][k] == item[k];
    }
  }

  // The words of a record behind its location.
  lemma RecordWords(s: seq<byte>, at: nat, a: nat, b: nat, c: nat, d: nat, e: nat, f: nat)
    requires a < U32 && b < U32 && c < U32 && d < U32 && e < U32 && f < U32
    requires Holds(s, at, Word(a) + Word(b)) && Holds(s, at + 8, Word(c) + (Word(d) + Word(e) + Word(f)))
    ensures at + 24 <= |s|
    ensures ReadWord(s, at) == a && ReadWord(s, at + 4) == b && ReadWord(s, at + 8) == c
    ensures ReadWord(s, at + 12) == d && ReadWord(s, at + 16) == e && ReadWord(s, at + 20) == f
  {
    hide Word, ReadWord, Holds;
    HoldsTwo(s, at, Word(a), Word(b));
    HoldsTwo(s, at + 8, Word(c), Word(d) + Word(e) + Word(f));
    HoldsPart(s, at + 12, Word(d), Word(e), Word(f));
    HeldWord(s, at, a);
    HeldWord(s, at + 4, b);
    HeldWord(s, at + 8, c);
    HeldWord(s, at + 12, d);
    HeldWord(s, at + 16, e);
    HeldWord(s, at + 20, f);
  }

  lemma RecordReadsBack(p: Program, l: Layout, d: nat, s: seq<byte>, at: nat)
    requires p.Valid() && d < |p.dexFiles| && Holds(s, at, DexRecord(p, l, d))
    requires |p.dexFiles[d].location| < U32 && ClassArrayOffset(p, l, d) < U32 && BssOffset(p, l, d) < U32
    ensures ReadRecord(s, at) == Some(RecordOf(p, l, d))
  {
    hide Word, ReadWord, Holds, p.Valid, BssOffset, ClassArrayOffset;
    var f := p.dexFiles[d];
    var n := |f.location|;
    var tail := Word(f.lookupTable) + Word(f.sectionsLayout) + Word(BssOffset(p, l, d));
    HoldsPart(s, at, Word(n) + f.location, Word(f.checksum) + Word(f.dexOffset),
      Word(ClassArrayOffset(p, l, d)) + tail);
    HoldsTwo(s, at, Word(n), f.location);
    HeldWord(s, at, n);
    HeldSlice(s, at + 4, f.location);
    RecordWords(s, at + 4 + n, f.checksum, f.dexOffset, ClassArrayOffset(p, l, d), f.lookupTable, f.sectionsLayout,
                BssOffset(p, l, d));
  }

  lemma DexFileFits(p: Program, l: Layout, out: seq<byte>, d: nat)
    requires p.Valid() && Complete(p, l) && FrontHeld(p, l, out) && TextHeld(p, l, out) && |out| < U32
    requires d < |p.dexFiles|
    ensures |p.dexFiles[d].location| < U32 && ClassArrayOffset(p, l, d) < U32 && BssOffset(p, l, d) < U32
    ensures Holds(out, Place(RecordChunks(p), l.infos.offset, d), DexRecord(p, l, d))
    ensures p.dexFiles[d].classes != [] ==> Holds(out, ClassArrayOffset(p, l, d), C.Words(ClassOffsets(p, l, d)))
  {
    hide DexRecord, Place, Holds, ClassOffsets, C.Words;
    assert Holds(out, Place(RecordChunks(p), l.infos.offset, d), DexRecords(p, l)[d]);
    HoldsFits(out, Place(RecordChunks(p), l.infos.offset, d), DexRecord(p, l, d));
    assert Holds(out, Place(ClassArrayChunks(p), l.start, d), ClassArrays(p, l)[d]);
    HoldsFits(out, Place(ClassArrayChunks(p), l.start, d), C.Words(ClassOffsets(p, l, d)));
    MappingHeld(p, l, out, d);
    HoldsFits(out, Place(BssChunks(p), l.bssAt, d), BssMappings(p)[d]);
  }

  lemma MappingHeld(p: Program, l: Layout, out: seq<byte>, d: nat)
    requires p.Valid() && Complete(p, l) && FrontHeld(p, l, out) && d < |p.dexFiles|
    ensures Holds(out, Place(BssChunks(p), l.bssAt, d), BssMappings(p)[d])
  {
  }

  lemma HeldRecord(p: Program, l: Layout, out: seq<byte>, d: nat)
    requires p.Valid() && Complete(p, l) && FrontHeld(p, l, out) && TextHeld(p, l, out) && |out| < U32
    requires d < |p.dexFiles|
    ensures ReadRecord(out, Place(RecordChunks(p), l.infos.offset, d)) == Some(RecordOf(p, l, d))
  {
    hide FrontHeld, TextHeld, Place, Holds, DexRecord, ClassArrayOffset, BssOffset, Complete, p.Valid, RecordChunks,
         ReadRecord, RecordOf, C.Words, ClassOffsets;
    DexFileFits(p, l, out, d);
    RecordReadsBack(p, l, d, out, Place(RecordChunks(p), l.infos.offset, d));
  }

  lemma NextRecord(p: Program, start: nat, d: nat)
    requires d < |p.dexFiles|
    ensures d == 0 ==> Place(RecordChunks(p), start, d) == start
    ensures d > 0 ==>
      Place(RecordChunks(p), start, d) == Place(RecordChunks(p), start, d - 1) + 28 + |p.dexFiles[d - 1].location|
  {
    hide Cursor, Place, RoundUp;
    var cs := RecordChunks(p);
    NextCursor(cs, start, d);
    if d > 0 { NextCursor(cs, start, d - 1); }
  }

  lemma {:induction false} RecordIsReached(p: Program, l: Layout, out: seq<byte>, d: nat)
    requires p.Valid() && Complete(p, l) && FrontHeld(p, l, out) && TextHeld(p, l, out) && |out| < U32
    requires d < |p.dexFiles|
    ensures RecordAt(out, l.infos.offset, d) == Some(Place(RecordChunks(p), l.infos.offset, d))
    decreases d
  {
    hide FrontHeld, TextHeld, Place, Complete, p.Valid, RecordChunks, ReadRecord;
    NextRecord(p, l.infos.offset, d);
    if d > 0 {
      RecordIsReached(p, l, out, d - 1);
      HeldRecord(p, l, out, d - 1);
    }
  }

  // Walking the records leads to record `d`, and all its fields are those of dex file `d`.
  lemma LoadedRecord(p: Program, l: Layout, out: seq<byte>, d: nat)
    requires p.Valid() && Complete(p, l) && FrontHeld(p, l, out) && TextHeld(p, l, out) && |out| < U32
    requires d < |p.dexFiles|
    ensures LoadRecord(out, l.infos.offset, d) == Some(RecordOf(p, l, d))
  {
    hide FrontHeld, TextHeld, Place, Complete, p.Valid, RecordChunks, ReadRecord, RecordAt, RecordOf;
    RecordIsReached(p, l, out, d);
    HeldRecord(p, l, out, d);
  }

  // ---------- classes ----------

  lemma ClassLooksUp(p: Program, l: Layout, s: seq<byte>, c: nat, i: nat)
    requires p.Valid() && Complete(p, l) && c < |p.Classes()| && i < |p.Methods(p.Classes()[c])|
    requires |s| < U32 && Holds(s, ClassOffset(p, l, c), ClassRecords(p, l)[c])
    requires forall o :: o in l.code.offsets ==> o < U32
    ensures var r := p.Methods(p.Classes()[c])[i];
      C.Lookup(s, ClassOffset(p, l, c), i) == if p.HasCode(r) then Some(l.code.offsets[Index(p, c, i)]) else None
  {
    hide C.Lookup, C.Describes, Holds, Place, C.ClassBytes, C.LooksUp, C.ClassOf;
    var k := p.Classes()[c];
    var flags := p.Flags(k);
    ClassFits(p, l, s, c);
    C.LookupReadsBack(s, ClassOffset(p, l, c), k.status, C.ClassOf(flags), flags, CodeOffsets(p, l, c), i);
    LookedUp(p, l, s, c, i);
  }

  lemma LookedUp(p: Program, l: Layout, s: seq<byte>, c: nat, i: nat)
    requires Complete(p, l) && c < |p.Classes()| && i < |p.Methods(p.Classes()[c])|
    requires C.LooksUp(s, ClassOffset(p, l, c), p.Flags(p.Classes()[c]), CodeOffsets(p, l, c), i)
    ensures var r := p.Methods(p.Classes()[c])[i];
      C.Lookup(s, ClassOffset(p, l, c), i) == if p.HasCode(r) then Some(l.code.offsets[Index(p, c, i)]) else None
  {
    hide C.Lookup, Place, CodeOffsets;
    if p.HasCode(p.Methods(p.Classes()[c])[i]) {
      CodeOffsetOf(p, l, c, i);
    }
  }

  lemma CodeOffsetOf(p: Program, l: Layout, c: nat, i: nat)
    requires Complete(p, l) && c < |p.Classes()| && i < |p.Methods(p.Classes()[c])|
    requires p.HasCode(p.Methods(p.Classes()[c])[i])
    ensures C.Rank(p.Flags(p.Classes()[c]), i) < |CodeOffsets(p, l, c)|
    ensures CodeOffsets(p, l, c)[C.Rank(p.Flags(p.Classes()[c]), i)] == l.code.offsets[Index(p, c, i)]
  {
    hide C.Rank, Concat, Cut, Base;
    C.RankBelow(p.Flags(p.Classes()[c]), i);
  }

  lemma ClassFits(p: Program, l: Layout, s: seq<byte>, c: nat)
    requires Complete(p, l) && c < |p.Classes()|
    requires |s| < U32 && Holds(s, ClassOffset(p, l, c), ClassRecords(p, l)[c])
    requires forall o :: o in l.code.offsets ==> o < U32
    ensures C.ClassOf(p.Flags(p.Classes()[c])).bitmapSize < U32
    ensures |CodeOffsets(p, l, c)| == C.ClassOf(p.Flags(p.Classes()[c])).numOffsets
    ensures forall o :: o in CodeOffsets(p, l, c) ==> o < U32
  {
    BitmapFits(p, l, s, c);
    CutSize(p, c, p.Flags(p.Classes()[c]));
    CutMembers(p.ClassRefs(), l.code.offsets, c);
    hide Holds, Cut, ClassOffset, ClassRecords, C.ClassOf, C.Rank, Concat;
  }

  lemma BitmapFits(p: Program, l: Layout, s: seq<byte>, c: nat)
    requires Complete(p, l) && c < |p.Classes()|
    requires |s| < U32 && Holds(s, ClassOffset(p, l, c), ClassRecords(p, l)[c])
    ensures C.ClassOf(p.Flags(p.Classes()[c])).bitmapSize < U32
  {
    hide Holds, ClassOffset, C.ClassBytes, C.ClassOf, C.SizeOf;
    RecordSizes(p, l, c);
    CutSize(p, c, p.Flags(p.Classes()[c]));
    HoldsFits(s, ClassOffset(p, l, c), ClassRecords(p, l)[c]);
  }

  lemma CutSize(p: Program, c: nat, flags: seq<bool>)
    requires c < |p.Classes()| && flags == p.Flags(p.Classes()[c])
    ensures |p.Compiled(p.Classes()[c])| == C.ClassOf(flags).numOffsets
    ensures C.ClassOf(flags).bitmapSize <= C.SizeOf(C.ClassOf(flags))
  {
  }

  lemma CodeOffsetsFit(p: Program, start: nat, l: Layout)
    requires p.Valid() && 0 < start && l == PlanFile(p, start) && Complete(p, l) && Fits(p, l)
    ensures forall o :: o in l.code.offsets ==> o < U32
  {
    hide PlanFile, TableOffset;
    forall i | 0 <= i < |p.Refs()|
      ensures l.code.offsets[i] < U32
    {
      TablesBelowCode(p, start, l, i);
    }
  }

  lemma SameKeySameTables(p: Program, a: Ref, b: Ref)
    requires p.KeyOf(a) == p.KeyOf(b)
    ensures p.Method(a).vmap == p.Method(b).vmap && p.Method(a).info == p.Method(b).info
    ensures p.Method(a).code == p.Method(b).code
    ensures p.CodeOf(p.KeyOf(a)) == p.Method(a).code && p.PatchesOf(p.KeyOf(a)) == p.Method(a).patches
  {
  }

  lemma CodeIsHeld(p: Program, l: Layout, out: seq<byte>, n: nat)
    requires p.Valid() && Complete(p, l) && CodeHeld(p, l, out) && n < |p.Refs()|
    ensures CodeAt(p.CodeLinker(), out, p.Keys()[n], l.code.offsets[n], Headers(p, l)[First(p.Keys(), n)])
  {
    hide p.Refs, p.Keys, Headers, CodeAt, p.CodeLinker, First, p.Valid;
  }

  lemma SharedOffset(p: Program, start: nat, l: Layout, f: nat, n: nat)
    requires p.Valid() && l == PlanFile(p, start) && Complete(p, l)
    requires f < |p.Refs()| && n < |p.Refs()| && p.Keys()[f] == p.Keys()[n]
    ensures l.code.offsets[f] == l.code.offsets[n]
  {
    SameKeySameOffset(p.CodeLinker(), p.Keys(), l.codeAt, p.AnyOatClass(), f, n);
  }

  lemma TableSeen(m: T.Storage, ts: seq<Ptr>, offsets: seq<nat>, out: seq<byte>, f: nat, field: nat, at: int)
    requires f < |ts| == |offsets| && T.AllTablesAt(m, ts, offsets, out)
    requires if m(ts[f]) == [] then field == 0 else field != 0 && at - field == offsets[f]
    ensures TableBehind(m, out, ts[f], field, at)
  {
    hide T.TableAt;
  }

  lemma ClassInList(p: Program, d: nat, j: nat)
    requires d < |p.dexFiles| && j < |p.dexFiles[d].classes|
    ensures Base(p.ClassLists(), d) + j < |p.Classes()|
    ensures p.Classes()[Base(p.ClassLists(), d) + j] == p.dexFiles[d].classes[j]
  {
    hide Concat;
    ConcatAt(p.ClassLists(), d, j, |p.ClassLists()|);
  }

  lemma ClassOffsetAt(p: Program, l: Layout, d: nat, j: nat)
    requires d < |p.dexFiles| && j < |p.dexFiles[d].classes|
    ensures Base(p.ClassLists(), d) + j < |p.Classes()|
    ensures ClassOffsets(p, l, d)[j] == ClassOffset(p, l, Base(p.ClassLists(), d) + j)
  {
    hide ClassOffset, Base;
    ClassInList(p, d, j);
  }

  lemma ClassOffsetFits(p: Program, l: Layout, out: seq<byte>, c: nat)
    requires p.Valid() && Complete(p, l) && FrontHeld(p, l, out) && |out| < U32 && c < |p.Classes()|
    ensures ClassOffset(p, l, c) < U32
  {
    hide ClassRecords, Holds, ClassOffset, p.Valid, Complete;
    HoldsFits(out, ClassOffset(p, l, c), ClassRecords(p, l)[c]);
  }

  // Entry `j` of the class array leads to class `j`.
  lemma EntryFound(p: Program, l: Layout, out: seq<byte>, d: nat, j: nat)
    requires p.Valid() && Complete(p, l) && FrontHeld(p, l, out) && TextHeld(p, l, out)
    requires |out| < U32 && d < |p.dexFiles| && j < |p.dexFiles[d].classes|
    ensures Base(p.ClassLists(), d) + j < |p.Classes()|
    ensures var entry := ClassArrayOffset(p, l, d) + 4 * j;
      entry + 4 <= |out| && ReadWord(out, entry) == ClassOffset(p, l, Base(p.ClassLists(), d) + j)
  {
    hide FrontHeld, TextHeld, Place, Holds, ReadWord, C.Words, DexRecord, ClassArrayOffset, BssOffset, Complete,
         p.Valid,
         ClassOffset, ClassOffsets;
    DexFileFits(p, l, out, d);
    ClassOffsetAt(p, l, d, j);
    ClassOffsetFits(p, l, out, Base(p.ClassLists(), d) + j);
    C.WordsReadBack(out, ClassArrayOffset(p, l, d), ClassOffsets(p, l, d), j);
  }

  lemma ClassFound(p: Program, l: Layout, out: seq<byte>, d: nat, j: nat)
    requires p.Valid() && Complete(p, l) && FrontHeld(p, l, out) && TextHeld(p, l, out)
    requires |out| < U32 && d < |p.dexFiles| && j < |p.dexFiles[d].classes|
    ensures Base(p.ClassLists(), d) + j < |p.Classes()|
    ensures FindClass(out, l.infos.offset, d, j) == Some(ClassOffset(p, l, Base(p.ClassLists(), d) + j))
  {
    hide FrontHeld, TextHeld, ReadWord, ClassArrayOffset, BssOffset, Complete, p.Valid, ClassOffset, LoadRecord;
    LoadedRecord(p, l, out, d);
    EntryFound(p, l, out, d, j);
  }

  // ---------- sharing ----------

  lemma {:induction false} AllHaveCode(p: Program, c: DexClass, n: nat)
    requires n <= |p.Methods(c)|
    ensures forall r :: r in p.CompiledUpTo(c, n) ==> p.HasCode(r)
  {
    if n > 0 { AllHaveCode(p, c, n - 1); }
  }

  lemma RefHasCode(p: Program, n: nat)
    requires n < |p.Refs()|
    ensures p.HasCode(p.Refs()[n])
  {
    hide p.HasCode, Concat, p.CompiledUpTo;
    var c, k := ConcatPart(p.ClassRefs(), |p.ClassRefs()|, n);
    var class_ := p.Classes()[c];
    AllHaveCode(p, class_, |p.Methods(class_)|);
    assert p.Refs()[n] in p.Compiled(class_);
  }

  /**
   Two methods share code exactly when the compiler driver gave them the same four arrays, or, in
   debuggable code, when they are the same method.
   */
  lemma SharedExactly(p: Program, start: nat, l: Layout, i: nat, j: nat)
    requires p.Valid() && l == PlanFile(p, start) && Complete(p, l) && i < |p.Refs()| && j < |p.Refs()|
    ensures p.compiled(p.Refs()[i]).Some? && p.compiled(p.Refs()[j]).Some?
    ensures l.code.offsets[i] == l.code.offsets[j] <==>
      if p.debuggable then p.Refs()[i] == p.Refs()[j]
      else
        var a, b := p.compiled(p.Refs()[i]).value, p.compiled(p.Refs()[j]).value;
        a.code == b.code && a.vmap == b.vmap && a.info == b.info && a.patches == b.patches
  {
    RefHasCode(p, i);
    RefHasCode(p, j);
    KeyEquality(p, start, l, i, j);
    hide PlanFile, p.Refs;
  }

  lemma KeyEquality(p: Program, start: nat, l: Layout, i: nat, j: nat)
    requires p.Valid() && l == PlanFile(p, start) && Complete(p, l) && i < |p.Refs()| && j < |p.Refs()|
    ensures l.code.offsets[i] == l.code.offsets[j] <==> p.KeyOf(p.Refs()[i]) == p.KeyOf(p.Refs()[j])
  {
    PlannedCode(p, start);
    hide PlanFile, p.Refs, p.KeyOf, PlanAll, p.CodeLinker, p.AnyOatClass;
    if p.Keys()[i] == p.Keys()[j] {
      SameKeySameOffset(p.CodeLinker(), p.Keys(), l.codeAt, p.AnyOatClass(), i, j);
    } else {
      DifferentKeysDisjoint(p.CodeLinker(), p.Keys(), l.codeAt, p.AnyOatClass(), i, j);
    }
  }

  lemma PlannedCode(p: Program, start: nat)
    requires p.Valid()
    ensures var l := PlanFile(p, start); l.code == PlanAll(p.CodeLinker(), p.Keys(), l.codeAt, p.AnyOatClass())
  {
    hide T.PlanAt, PlanAll, End, RecordChunks, TextChunks, ClassChunks, BssChunks, ClassArrayChunks;
  }

  // The method that the code at an offset was emitted for: the first that has the offset.
  ghost predicate EmittedFor(p: Program, l: Layout, codeOffset: nat, r: Ref)
    requires Complete(p, l)
  {
    exists f :: 0 <= f < |p.Refs()| && FirstAt(p, l, codeOffset, f) && p.Refs()[f] == r
  }

  ghost predicate FirstAt(p: Program, l: Layout, codeOffset: nat, f: nat)
    requires Complete(p, l) && f < |p.Refs()|
  {
    l.code.offsets[f] == codeOffset && forall g :: 0 <= g < f ==> l.code.offsets[g] != codeOffset
  }

  lemma FirstOfKey(p: Program, start: nat, l: Layout, n: nat)
    requires p.Valid() && l == PlanFile(p, start) && Complete(p, l) && n < |p.Refs()|
    ensures FirstAt(p, l, l.code.offsets[n], First(p.Keys(), n))
  {
    hide PlanFile, p.Refs, p.KeyOf, First;
    var f := First(p.Keys(), n);
    KeyEquality(p, start, l, f, n);
    forall g | 0 <= g < f
      ensures l.code.offsets[g] != l.code.offsets[n]
    {
      KeyEquality(p, start, l, g, n);
      assert p.Keys()[g] != p.Keys()[n];
    }
  }

  // ---------- headers ----------

  lemma HeaderWords(s: seq<byte>, at: nat, h: MethodHeader)
    requires Holds(s, at, HeaderBytes(h)) && h.vmapOffset < U32 && h.infoOffset < U32
    requires h.frameSize < U32 && h.coreMask < U32 && h.fpMask < U32 && h.codeSize < U32
    ensures at + 24 <= |s|
    ensures ReadWord(s, at) == h.vmapOffset && ReadWord(s, at + 4) == h.infoOffset
    ensures ReadWord(s, at + 8) == h.frameSize && ReadWord(s, at + 12) == h.coreMask
    ensures ReadWord(s, at + 16) == h.fpMask && ReadWord(s, at + 20) == h.codeSize
  {
    hide Word, ReadWord, Holds;
    var a, b := Word(h.vmapOffset) + Word(h.infoOffset), Word(h.frameSize);
    HoldsTwo(s, at, a + b + Word(h.coreMask) + Word(h.fpMask), Word(h.codeSize));
    HoldsTwo(s, at, a + b + Word(h.coreMask), Word(h.fpMask));
    HoldsPart(s, at, a, b, Word(h.coreMask));
    HoldsTwo(s, at, Word(h.vmapOffset), Word(h.infoOffset));
    HeldWord(s, at, h.vmapOffset);
    HeldWord(s, at + 4, h.infoOffset);
    HeldWord(s, at + 8, h.frameSize);
    HeldWord(s, at + 12, h.coreMask);
    HeldWord(s, at + 16, h.fpMask);
    HeldWord(s, at + 20, h.codeSize);
  }

  // What the flat lists say about method `i` of the traversal.
  lemma ListedMethod(p: Program, l: Layout, i: nat)
    requires Complete(p, l) && i < |p.Refs()|
    ensures p.compiled(p.Refs()[i]).Some?
    ensures var r, m, h := p.Refs()[i], p.compiled(p.Refs()[i]).value, Headers(p, l)[i];
      && p.Vmaps()[i] == m.vmap && p.Infos()[i] == m.info && p.Keys()[i] == p.KeyOf(r)
      && h.frameSize == m.frameSize && h.coreMask == m.coreMask && h.fpMask == m.fpMask
      && h.codeSize == |p.storage(m.code)|
  {
    RefHasCode(p, i);
    hide p.Refs, p.KeyOf;
  }

  /** Method `n` of the traversal is seen by the runtime with its own code and tables, even when its code is shared. */
  lemma SharedCodeIsSeen(p: Program, start: nat, l: Layout, out: seq<byte>, n: nat)
    requires p.Valid() && 0 < start && l == PlanFile(p, start) && Complete(p, l) && Fits(p, l)
    requires n < |p.Refs()| && CodeHeld(p, l, out) && |out| < U32
    requires T.AllTablesAt(p.storage, p.Vmaps(), l.vmaps.offsets, out)
    requires T.AllTablesAt(p.storage, p.Infos(), l.infos.offsets, out)
    ensures p.compiled(p.Refs()[n]).Some? && p.compiled(p.Refs()[First(p.Keys(), n)]).Some?
    ensures RuntimeView(p, out, p.compiled(p.Refs()[n]).value, p.compiled(p.Refs()[First(p.Keys(), n)]).value,
                        l.code.offsets[n])
  {
    hide PlanFile, Fits, First, p.Refs, p.Vmaps, p.Infos, p.Keys, Headers, CodeHeld, CodeAt, p.HasCode, p.KeyOf,
         p.Method, p.CodeLinker, RuntimeView, T.AllTablesAt, TableBehind, p.Valid, CodeDelta;
    var f := First(p.Keys(), n);
    CodeIsHeld(p, l, out, n);
    ListedMethod(p, l, f);
    ListedMethod(p, l, n);
    RefHasCode(p, n);
    SameKeySameTables(p, p.Refs()[f], p.Refs()[n]);
    MethodIs(p, f);
    MethodIs(p, n);
    FieldsOf(p, start, l, f);
    SharedOffset(p, start, l, f, n);
    var h, at := Headers(p, l)[f], l.code.offsets[n] - CodeDelta(p.isa);
    TableSeen(p.storage, p.Vmaps(), l.vmaps.offsets, out, f, h.vmapOffset, at);
    TableSeen(p.storage, p.Infos(), l.infos.offsets, out, f, h.infoOffset, at);
    ViewOf(p, out, p.Refs()[n], p.compiled(p.Refs()[f]).value, l.code.offsets[n], h);
  }

  lemma MethodIs(p: Program, n: nat)
    requires n < |p.Refs()|
    ensures p.compiled(p.Refs()[n]).Some? && p.Method(p.Refs()[n]) == p.compiled(p.Refs()[n]).value
  {
    hide p.Refs;
    RefHasCode(p, n);
  }

  // What is emitted for a key is the patched code of every method with that key.
  lemma EmittedCode(p: Program, out: seq<byte>, r: Ref, codeOffset: nat, h: MethodHeader)
    requires p.HasCode(r) && CodeAt(p.CodeLinker(), out, p.KeyOf(r), codeOffset, h)
    ensures var m, at := p.compiled(r).value, codeOffset - CodeDelta(p.isa);
      && HEADER_SIZE <= at && at + |p.storage(m.code)| <= |out|
      && out[at - HEADER_SIZE..at] == HeaderBytes(h)
      && out[at..at + |p.storage(m.code)|] == p.patched(m.code, m.patches, at)
  {
    hide HeaderBytes, p.KeyOf;
    SameKeySameTables(p, r, r);
  }

  lemma HeaderInFront(s: seq<byte>, at: nat, h: MethodHeader)
    requires 24 <= at <= |s| && s[at - 24..at] == HeaderBytes(h)
    requires h.vmapOffset < U32 && h.infoOffset < U32
    requires h.frameSize < U32 && h.coreMask < U32 && h.fpMask < U32 && h.codeSize < U32
    ensures ReadWord(s, at - 24) == h.vmapOffset && ReadWord(s, at - 20) == h.infoOffset
    ensures ReadWord(s, at - 16) == h.frameSize && ReadWord(s, at - 12) == h.coreMask
    ensures ReadWord(s, at - 8) == h.fpMask && ReadWord(s, at - 4) == h.codeSize
  {
    hide HeaderBytes, ReadWord;
    SliceHeld(s, at - 24, HeaderBytes(h));
    HeaderWords(s, at - 24, h);
  }

  lemma ViewOf(p: Program, out: seq<byte>, r: Ref, f: CompiledMethod, codeOffset: nat, h: MethodHeader)
    requires p.HasCode(r) && CodeAt(p.CodeLinker(), out, p.KeyOf(r), codeOffset, h) && |out| < U32
    requires h.vmapOffset < U32 && h.infoOffset < U32
    requires h.frameSize == f.frameSize && h.coreMask == f.coreMask && h.fpMask == f.fpMask
    requires h.codeSize == |p.storage(p.compiled(r).value.code)|
    requires TableBehind(p.storage, out, p.compiled(r).value.vmap, h.vmapOffset, codeOffset - CodeDelta(p.isa))
    requires TableBehind(p.storage, out, p.compiled(r).value.info, h.infoOffset, codeOffset - CodeDelta(p.isa))
    ensures RuntimeView(p, out, p.compiled(r).value, f, codeOffset)
  {
    hide HeaderBytes, TableBehind, ReadWord, CodeAt, p.CodeLinker, p.KeyOf;
    EmittedCode(p, out, r, codeOffset, h);
    HeaderInFront(out, codeOffset - CodeDelta(p.isa), h);
  }

  // Everything the layout recorded is in place.
  ghost predicate AllHeld(p: Program, l: Layout, out: seq<byte>)
    requires p.Valid() && Complete(p, l)
  {
    && |out| < U32
    && FrontHeld(p, l, out)
    && T.AllTablesAt(p.storage, p.Vmaps(), l.vmaps.offsets, out)
    && T.AllTablesAt(p.storage, p.Infos(), l.infos.offsets, out)
    && TextHeld(p, l, out)
    && CodeHeld(p, l, out)
  }

  lemma AllIsHeld(p: Program, before: seq<byte>, l: Layout)
    requires p.Valid() && before != [] && l == PlanFile(p, |before|) && Complete(p, l) && Fits(p, l)
    ensures AllHeld(p, l, WriteFile(p, l, before))
  {
    hide PlanFile, WriteFile, FrontHeld, TextHeld, CodeHeld, T.AllTablesAt;
    FileRefinesPlan(p, before, l);
  }

  lemma ClassIsHeld(p: Program, l: Layout, out: seq<byte>, c: nat)
    requires p.Valid() && Complete(p, l) && FrontHeld(p, l, out) && c < |p.Classes()|
    ensures Holds(out, ClassOffset(p, l, c), ClassRecords(p, l)[c])
  {
  }

  // ---------- results ----------

  /**
   The record of every dex file is found by walking the records, with its location, checksum and the
   offsets of its dex file, class array, lookup table, layout sections and bss mapping.
   */
  lemma EveryRecordIsFound(p: Program, before: seq<byte>, l: Layout, d: nat)
    requires p.Valid() && before != [] && l == PlanFile(p, |before|) && Complete(p, l) && Fits(p, l)
    requires d < |p.dexFiles|
    ensures var f, r := p.dexFiles[d], LoadRecord(WriteFile(p, l, before), l.infos.offset, d);
      && r.Some? && r.value.location == f.location && r.value.checksum == f.checksum
      && r.value.dexOffset == f.dexOffset && r.value.lookupTable == f.lookupTable
      && r.value.sectionsLayout == f.sectionsLayout
      && (r.value.classArray == 0 <==> f.classes == []) && (r.value.bssMapping == 0 <==> f.bss == [])
      && r.value.classArray % 4 == 0
  {
    hide PlanFile, WriteFile, FrontHeld, TextHeld, CodeHeld, T.AllTablesAt, LoadRecord, Place;
    AllIsHeld(p, before, l);
    LoadedRecord(p, l, WriteFile(p, l, before), d);
    AfterStart(p, |before|, d);
    if p.dexFiles[d].classes != [] { ArrayAligned(p, l.start, d); }
  }

  lemma ArrayAligned(p: Program, start: nat, d: nat)
    requires d < |p.dexFiles| && p.dexFiles[d].classes != []
    ensures Place(ClassArrayChunks(p), start, d) % 4 == 0
  {
    hide Cursor, RoundUp;
    NextCursor(ClassArrayChunks(p), start, d);
  }

  // Class arrays and mappings lie behind what was written before the layout, so never at zero.
  lemma AfterStart(p: Program, start: nat, d: nat)
    requires p.Valid() && d < |p.dexFiles|
    ensures var l := PlanFile(p, start);
      start <= Place(ClassArrayChunks(p), l.start, d) && start <= Place(BssChunks(p), l.bssAt, d)
  {
    hide T.PlanAt, PlanAll;
  }

  /** Every class is found through its dex file's record, with its status. */
  lemma EveryClassIsFound(p: Program, before: seq<byte>, l: Layout, d: nat, j: nat)
    requires p.Valid() && before != [] && l == PlanFile(p, |before|) && Complete(p, l) && Fits(p, l)
    requires d < |p.dexFiles| && j < |p.dexFiles[d].classes|
    ensures var out := WriteFile(p, l, before); var at := FindClass(out, l.infos.offset, d, j);
      at.Some? && at.value + 2 <= |out| && ReadHalf(out, at.value) == p.dexFiles[d].classes[j].status
  {
    hide PlanFile, WriteFile, FrontHeld, TextHeld, CodeHeld, T.AllTablesAt, FindClass, ClassOffset, ReadHalf,
         C.ClassBytes,
         C.ClassOf, Holds, CodeOffsets;
    AllIsHeld(p, before, l);
    var out := WriteFile(p, l, before);
    var c := Base(p.ClassLists(), d) + j;
    ClassFound(p, l, out, d, j);
    ClassInList(p, d, j);
    ClassIsHeld(p, l, out, c);
    C.StatusReadsBack(out, ClassOffset(p, l, c), p.Classes()[c].status, C.ClassOf(p.Flags(p.Classes()[c])),
                      CodeOffsets(p, l, c));
  }

  // A method is found exactly when it was compiled to something.
  ghost predicate Found(p: Program, l: Layout, out: seq<byte>, r: Ref, found: Option<nat>)
    requires Complete(p, l)
  {
    if p.anyCompilation && p.compiled(r).Some? && p.storage(p.compiled(r).value.code) != [] then
      found.Some? && exists f ::
        EmittedFor(p, l, found.value, f) && p.compiled(f).Some?
        && RuntimeView(p, out, p.compiled(r).value, p.compiled(f).value, found.value)
    else
      found == None
  }

  lemma FoundInClass(p: Program, start: nat, l: Layout, out: seq<byte>, c: nat, i: nat)
    requires p.Valid() && 0 < start && l == PlanFile(p, start) && Complete(p, l) && Fits(p, l) && AllHeld(p, l, out)
    requires c < |p.Classes()| && i < |p.Classes()[c].methods|
    ensures Found(p, l, out, p.Classes()[c].methods[i], C.Lookup(out, ClassOffset(p, l, c), i))
  {
    hide PlanFile, FrontHeld, TextHeld, CodeHeld, T.AllTablesAt, RuntimeView, C.Lookup, ClassOffset, Index, First,
         p.Refs,
         p.Keys, FirstAt;
    ClassIsHeld(p, l, out, c);
    if p.anyCompilation {
      CodeOffsetsFit(p, start, l);
      ClassLooksUp(p, l, out, c, i);
      var r := p.Classes()[c].methods[i];
      if p.HasCode(r) {
        var n := Index(p, c, i);
        SharedCodeIsSeen(p, start, l, out, n);
        FirstOfKey(p, start, l, n);
        assert EmittedFor(p, l, l.code.offsets[n], p.Refs()[First(p.Keys(), n)]);
      }
    } else {
      NoneInClass(p, l, out, c, i);
    }
  }

  lemma NoneInClass(p: Program, l: Layout, out: seq<byte>, c: nat, i: nat)
    requires Complete(p, l) && c < |p.Classes()| && !p.anyCompilation
    requires Holds(out, ClassOffset(p, l, c), ClassRecords(p, l)[c])
    ensures C.Lookup(out, ClassOffset(p, l, c), i) == None
  {
    hide C.Lookup, ClassOffset, C.ClassBytes, Holds, CodeOffsets;
    var k := p.Classes()[c];
    C.NothingCompiled(out, ClassOffset(p, l, c), k.status, C.ClassOf(p.Flags(k)), CodeOffsets(p, l, c), i);
  }

  /**
   For every method of every class of every dex file: the runtime, starting from the first record,
   finds a code offset exactly when the method was compiled; there it finds the method's patched code,
   and in the words in front of it the way to the method's own vmap table and method info.
   */
  lemma EveryMethodIsFound(p: Program, before: seq<byte>, l: Layout, d: nat, j: nat, i: nat)
    requires p.Valid() && before != [] && l == PlanFile(p, |before|) && Complete(p, l) && Fits(p, l)
    requires d < |p.dexFiles| && j < |p.dexFiles[d].classes| && i < |p.dexFiles[d].classes[j].methods|
    ensures var out := WriteFile(p, l, before);
      Found(p, l, out, p.dexFiles[d].classes[j].methods[i], FindCode(out, l.infos.offset, d, j, i))
  {
    hide PlanFile, WriteFile, FrontHeld, TextHeld, CodeHeld, T.AllTablesAt, Found, FindClass, C.Lookup, ClassOffset;
    AllIsHeld(p, before, l);
    var out := WriteFile(p, l, before);
    var c := Base(p.ClassLists(), d) + j;
    ClassFound(p, l, out, d, j);
    ClassInList(p, d, j);
    FoundInClass(p, |before|, l, out, c, i);
  }

  /**
   A boot image's trampolines are found at their recorded entry points, aligned for the instruction
   set, in front of all code; other files have none and their code starts with the page.
   */
  lemma TrampolinesAreThere(p: Program, before: seq<byte>, l: Layout, i: nat)
    requires p.Valid() && before != [] && l == PlanFile(p, |before|) && Complete(p, l) && Fits(p, l)
    ensures !p.bootImage ==> l.codeAt == RoundUp(l.textAt, 4096)
    ensures p.bootImage && i < |p.trampolines| ==>
      && i + 1 < |TextChunks(p)|
      && var at := Place(TextChunks(p), l.textAt, i + 1);
        && RoundUp(l.textAt, 4096) <= at && at % CodeAlignment(p.isa) == 0 && at + |p.trampolines[i]| <= l.codeAt
        && Holds(WriteFile(p, l, before), at, p.trampolines[i])
  {
    TextEnds(p, |before|);
    hide PlanFile, WriteFile, FrontHeld, TextHeld, CodeHeld, T.AllTablesAt, Holds, RoundUp, Place, TextChunks, End;
    AllIsHeld(p, before, l);
    TrampolinePlaces(p, l.textAt, i);
    if p.bootImage && i < |p.trampolines| {
      TrampolineHeld(p, l, WriteFile(p, l, before), i);
    }
  }

  lemma TrampolinePlaces(p: Program, textAt: nat, i: nat)
    ensures !p.bootImage ==> End(TextChunks(p), textAt) == RoundUp(textAt, 4096)
    ensures p.bootImage && i < |p.trampolines| ==>
      && i + 1 < |TextChunks(p)|
      && var at := Place(TextChunks(p), textAt, i + 1);
        && RoundUp(textAt, 4096) <= at && at % CodeAlignment(p.isa) == 0
        && at + |p.trampolines[i]| <= End(TextChunks(p), textAt)
  {
    hide Cursor, RoundUp;
    var cs := TextChunks(p);
    NextCursor(cs, textAt, 0);
    if p.bootImage && i < |p.trampolines| {
      NextCursor(cs, textAt, i + 1);
      OatLayout.CursorGrows(cs, textAt, 1, i + 1);
      OatLayout.CursorGrows(cs, textAt, i + 2, |cs|);
    }
  }

  lemma TrampolineHeld(p: Program, l: Layout, out: seq<byte>, i: nat)
    requires p.Valid() && Complete(p, l) && TextHeld(p, l, out) && p.bootImage && i < |p.trampolines|
    ensures i + 1 < |TextChunks(p)| && Holds(out, Place(TextChunks(p), l.textAt, i + 1), p.trampolines[i])
  {
    hide Holds, Place;
    assert TextItems(p)[i + 1] == p.trampolines[i];
  }
}
