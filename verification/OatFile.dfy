/**
 A whole oat file: every stage of the layout pass, every stage of the writing passes, and the way
 the runtime finds a compiled method in the bytes.
 */
module OatFile {
  import opened Wrappers
  import opened Align
  import opened Flatten
  import opened OatLayout
  import opened OatCode
  import T = OatTables
  import C = OatClasses
  import B = BssMapping

  // Arrays are deduplicated by the compiler driver, so a data pointer stands for its contents.
  datatype CompiledMethod =
    CompiledMethod(code: Ptr, vmap: Ptr, info: Ptr, patches: Ptr, frameSize: word, coreMask: word, fpMask: word)

  datatype DexClass = DexClass(status: half, methods: seq<Ref>)

  // `bss` lists the method indexes with a .bss slot, in index order.
  datatype DexFile = DexFile(
    location: seq<byte>, checksum: word, dexOffset: word, lookupTable: word, sectionsLayout: word,
    classes: seq<DexClass>, bss: seq<B.Pair>)

  datatype Program = Program(
    isa: Isa,
    debuggable: bool,
    anyCompilation: bool,
    bootImage: bool,
    pointerSize: nat,
    storage: Ptr -> seq<byte>,
    compiled: Ref -> Option<CompiledMethod>,
    thunks: nat -> seq<seq<byte>>,
    patched: (Ptr, Ptr, nat) -> seq<byte>,
    trampolines: seq<seq<byte>>,
    dexFiles: seq<DexFile>)
  {
    ghost predicate Valid() {
      && (forall code, patches, at :: |patched(code, patches, at)| == |storage(code)|)
      && (forall f :: f in dexFiles ==> B.Ascending(f.bss))
      && (AnyBss() ==> Classes() != [])
    }

    // Only compiled methods ask for .bss slots, so without a class there are none.
    ghost predicate AnyBss() { exists d :: 0 <= d < |dexFiles| && dexFiles[d].bss != [] }

    predicate HasCode(r: Ref) {
      compiled(r).Some? && storage(compiled(r).value.code) != []
    }

    function Method(r: Ref): CompiledMethod {
      if compiled(r).Some? then compiled(r).value else CompiledMethod(0, 0, 0, 0, 0, 0, 0)
    }

    function KeyOf(r: Ref): Key {
      var m := Method(r);
      if debuggable then ByRef(r) else ByData(m.code, m.vmap, m.info, m.patches)
    }

    // Code and patches behind a key.
    function CodeOf(k: Key): Ptr { if k.ByRef? then Method(k.ref).code else k.code }
    function PatchesOf(k: Key): Ptr { if k.ByRef? then Method(k.ref).patches else k.patches }

    function CodeBytes(k: Key, at: nat): seq<byte> {
      if storage(CodeOf(k)) == [] then [0] else patched(CodeOf(k), PatchesOf(k), at)
    }

    function CodeLinker(): Linker {
      Linker(isa,
             (k: Key) => if storage(CodeOf(k)) == [] then 1 else |storage(CodeOf(k))|,
             (k: Key, at: nat) => CodeBytes(k, at),
             thunks)
    }

    // Methods are visited only when there may be compiled code.
    function Methods(c: DexClass): seq<Ref> { if anyCompilation then c.methods else [] }

    function Flags(c: DexClass): (b: seq<bool>)
      ensures |b| == |Methods(c)|
    {
      var ms := Methods(c);
      seq(|ms|, i requires 0 <= i < |ms| => HasCode(ms[i]))
    }

    // The compiled methods among the first `i`.
    function CompiledUpTo(c: DexClass, i: nat): (rs: seq<Ref>)
      requires i <= |Methods(c)|
      ensures |rs| == C.Rank(Flags(c), i)
    {
      if i == 0 then [] else CompiledUpTo(c, i - 1) + (if HasCode(Methods(c)[i - 1]) then [Methods(c)[i - 1]] else [])
    }

    function Compiled(c: DexClass): (rs: seq<Ref>)
      ensures |rs| == C.Rank(Flags(c), |Flags(c)|)
    {
      CompiledUpTo(c, |Methods(c)|)
    }

    function Classes(): seq<DexClass> { Concat(ClassLists(), |dexFiles|) }
    function ClassLists(): (l: seq<seq<DexClass>>)
      ensures |l| == |dexFiles|
    {
      seq(|dexFiles|, d requires 0 <= d < |dexFiles| => dexFiles[d].classes)
    }

    function ClassRefs(): (l: seq<seq<Ref>>)
      ensures |l| == |Classes()|
    {
      var cs := Classes();
      seq(|cs|, c requires 0 <= c < |cs| => Compiled(cs[c]))
    }

    // All compiled methods in traversal order.
    function Refs(): seq<Ref> { Concat(ClassRefs(), |ClassRefs()|) }

    function Keys(): (ks: seq<Key>)
      ensures |ks| == |Refs()|
    {
      var rs := Refs();
      seq(|rs|, i requires 0 <= i < |rs| => KeyOf(rs[i]))
    }

    function Vmaps(): (ts: seq<Ptr>)
      ensures |ts| == |Refs()|
    {
      var rs := Refs();
      seq(|rs|, i requires 0 <= i < |rs| => Method(rs[i]).vmap)
    }

    function Infos(): (ts: seq<Ptr>)
      ensures |ts| == |Refs()|
    {
      var rs := Refs();
      seq(|rs|, i requires 0 <= i < |rs| => Method(rs[i]).info)
    }

    predicate AnyOatClass() { anyCompilation && Classes() != [] }
  }

  lemma LinkerIsValid(p: Program)
    requires p.Valid()
    ensures p.CodeLinker().Valid()
  {
  }

  lemma {:induction false} CompiledAt(p: Program, c: DexClass, i: nat, n: nat)
    requires i < n <= |p.Methods(c)| && p.HasCode(p.Methods(c)[i])
    ensures C.Rank(p.Flags(c), i) < |p.CompiledUpTo(c, n)|
    ensures p.CompiledUpTo(c, n)[C.Rank(p.Flags(c), i)] == p.Methods(c)[i]
    decreases n
  {
    if i < n - 1 {
      CompiledAt(p, c, i, n - 1);
    }
  }

  // ---------- planning ----------

  function ClassArrayChunks(p: Program): (cs: seq<Chunk>)
    ensures |cs| == |p.dexFiles|
  {
    seq(|p.dexFiles|, d requires 0 <= d < |p.dexFiles| =>
      var n := |p.dexFiles[d].classes|; if n == 0 then Chunk(1, 0) else Chunk(4, 4 * n))
  }

  function ClassChunks(p: Program): (cs: seq<Chunk>)
    ensures |cs| == |p.Classes()|
  {
    var k := p.Classes();
    seq(|k|, c requires 0 <= c < |k| => Chunk(1, C.CLASS_HEADER_SIZE + C.SizeOf(C.ClassOf(p.Flags(k[c])))))
  }

  function BssChunks(p: Program): (cs: seq<Chunk>)
    requires p.Valid()
    ensures |cs| == |p.dexFiles|
  {
    seq(|p.dexFiles|, d requires 0 <= d < |p.dexFiles| =>
      var b := p.dexFiles[d].bss; if b == [] then Chunk(1, 0) else Chunk(1, 4 + 8 * |B.Encode(b, p.pointerSize)|))
  }

  function RecordChunks(p: Program): (cs: seq<Chunk>)
    ensures |cs| == |p.dexFiles|
  {
    seq(|p.dexFiles|, d requires 0 <= d < |p.dexFiles| => Chunk(1, 28 + |p.dexFiles[d].location|))
  }

  // Code starts on a page; a boot image has its trampolines first.
  function TextChunks(p: Program): (cs: seq<Chunk>) {
    [Chunk(PAGE_SIZE, 0)] +
    (if p.bootImage then seq(|p.trampolines|, i requires 0 <= i < |p.trampolines| =>
      Chunk(CodeAlignment(p.isa), |p.trampolines[i]|)) else [])
  }

  datatype Layout = Layout(
    start: nat, classesAt: nat, bssAt: nat, vmapsAt: nat, vmaps: T.Plan, infos: T.Plan, textAt: nat, codeAt: nat,
      code: Plan)
  {
    function Size(): nat { code.offset }
  }

  function PlanFile(p: Program, start: nat): (l: Layout)
    requires p.Valid()
  {
    var classesAt := End(ClassArrayChunks(p), start);
    var bssAt := End(ClassChunks(p), classesAt);
    var vmapsAt := End(BssChunks(p), bssAt);
    var vmaps := T.PlanAt(p.storage, p.Vmaps(), vmapsAt, |p.Vmaps()|);
    var infos := T.PlanAt(p.storage, p.Infos(), vmaps.offset, |p.Infos()|);
    var textAt := End(RecordChunks(p), infos.offset);
    var codeAt := End(TextChunks(p), textAt);
    Layout(start, classesAt, bssAt, vmapsAt, vmaps, infos, textAt, codeAt,
      PlanAll(p.CodeLinker(), p.Keys(), codeAt, p.AnyOatClass()))
  }

  // Every compiled method has an entry in each of the three plans.
  predicate Complete(p: Program, l: Layout) {
    |l.vmaps.offsets| == |l.infos.offsets| == |l.code.offsets| == |p.Refs()|
  }

  lemma PlanIsComplete(p: Program, start: nat)
    requires p.Valid()
    ensures Complete(p, PlanFile(p, start))
  {
    var l := PlanFile(p, start);
    T.CoversAll(p.storage, p.Vmaps(), l.vmapsAt);
    T.CoversAll(p.storage, p.Infos(), l.vmaps.offset);
    PlanCovers(p.CodeLinker(), p.Keys(), l.codeAt, p.AnyOatClass());
  }

  function HeaderOf(p: Program, r: Ref, vmap: nat, info: nat, codeOffset: nat): MethodHeader {
    var at := T.Wrap32(codeOffset - CodeDelta(p.isa));
    var m := p.Method(r);
    MethodHeader(T.Rebased(T.Stored(vmap), at), T.Rebased(T.Stored(info), at), m.frameSize, m.coreMask, m.fpMask,
      |p.storage(m.code)|)
  }

  function Headers(p: Program, l: Layout): (hs: seq<MethodHeader>)
    requires Complete(p, l)
    ensures |hs| == |p.Refs()|
  {
    var rs := p.Refs();
    seq(|rs|, i requires 0 <= i < |rs| => HeaderOf(p, rs[i], l.vmaps.offsets[i], l.infos.offsets[i], l.code.offsets[i]))
  }

  // ---------- writing ----------

  function ClassOffset(p: Program, l: Layout, c: nat): (o: nat)
    requires c < |p.Classes()|
  {
    Place(ClassChunks(p), l.classesAt, c)
  }

  function ClassOffsets(p: Program, l: Layout, d: nat): (os: seq<nat>)
    requires d < |p.dexFiles|
    ensures |os| == |p.dexFiles[d].classes|
  {
    var n, base := |p.dexFiles[d].classes|, Base(p.ClassLists(), d);
    ConcatGrows(p.ClassLists(), d + 1, |p.dexFiles|);
    seq<nat>(n, j requires 0 <= j < n => ClassOffset(p, l, base + j))
  }

  function ClassArrays(p: Program, l: Layout): (items: seq<seq<byte>>)
    ensures |items| == |p.dexFiles|
  {
    seq(|p.dexFiles|, d requires 0 <= d < |p.dexFiles| => C.Words(ClassOffsets(p, l, d)))
  }

  function CodeOffsets(p: Program, l: Layout, c: nat): (os: seq<nat>)
    requires Complete(p, l) && c < |p.Classes()|
    ensures |os| == |p.Compiled(p.Classes()[c])|
  {
    Cut(p.ClassRefs(), l.code.offsets, c)
  }

  function ClassRecords(p: Program, l: Layout): (items: seq<seq<byte>>)
    requires Complete(p, l)
    ensures |items| == |p.Classes()|
  {
    var k := p.Classes();
    seq(|k|, c requires 0 <= c < |k| => C.ClassBytes(k[c].status, C.ClassOf(p.Flags(k[c])), CodeOffsets(p, l, c)))
  }

  function EntryBytes(es: seq<B.Entry>): (b: seq<byte>)
    ensures |b| == 8 * |es|
  {
    if es == [] then [] else Half(es[0].index) + Half(es[0].mask) + Word(es[0].slot) + EntryBytes(es[1..])
  }

  function BssMappings(p: Program): (items: seq<seq<byte>>)
    requires p.Valid()
    ensures |items| == |p.dexFiles|
  {
    seq(|p.dexFiles|, d requires 0 <= d < |p.dexFiles| =>
      var b := p.dexFiles[d].bss;
      if b == [] then [] else var es := B.Encode(b, p.pointerSize); Word(|es|) + EntryBytes(es))
  }

  // A dex file without classes, or without .bss methods, has a zero offset in its record.
  function ClassArrayOffset(p: Program, l: Layout, d: nat): nat
    requires d < |p.dexFiles|
  {
    if p.dexFiles[d].classes == [] then 0 else Place(ClassArrayChunks(p), l.start, d)
  }

  function BssOffset(p: Program, l: Layout, d: nat): nat
    requires p.Valid() && d < |p.dexFiles|
  {
    if p.dexFiles[d].bss == [] then 0 else Place(BssChunks(p), l.bssAt, d)
  }

  function DexRecord(p: Program, l: Layout, d: nat): (b: seq<byte>)
    requires p.Valid() && d < |p.dexFiles|
    ensures |b| == 28 + |p.dexFiles[d].location|
  {
    var f := p.dexFiles[d];
    (Word(|f.location|) + f.location)
    + (Word(f.checksum) + Word(f.dexOffset))
    + (Word(ClassArrayOffset(p, l, d)) + (Word(f.lookupTable) + Word(f.sectionsLayout) + Word(BssOffset(p, l, d))))
  }

  function DexRecords(p: Program, l: Layout): (items: seq<seq<byte>>)
    requires p.Valid()
    ensures |items| == |p.dexFiles|
  {
    seq(|p.dexFiles|, d requires 0 <= d < |p.dexFiles| => DexRecord(p, l, d))
  }

  function TextItems(p: Program): (items: seq<seq<byte>>)
    ensures |items| == |TextChunks(p)|
  {
    [[]] + (if p.bootImage then p.trampolines else [])
  }

  // The write visitors only see headers and code offsets.
  function RecoveredOffset(p: Program, field: nat, codeOffset: nat): nat {
    T.Recovered(field, T.Wrap32(codeOffset - CodeDelta(p.isa)))
  }

  function RecoveredVmaps(p: Program, l: Layout): (os: seq<nat>)
    requires Complete(p, l)
    ensures |os| == |p.Refs()|
  {
    var h := Headers(p, l);
    seq(|h|, i requires 0 <= i < |h| => RecoveredOffset(p, h[i].vmapOffset, l.code.offsets[i]))
  }

  function RecoveredInfos(p: Program, l: Layout): (os: seq<nat>)
    requires Complete(p, l)
    ensures |os| == |p.Refs()|
  {
    var h := Headers(p, l);
    seq(|h|, i requires 0 <= i < |h| => RecoveredOffset(p, h[i].infoOffset, l.code.offsets[i]))
  }

  // Everything before the vmap tables.
  function WriteFront(p: Program, l: Layout, before: seq<byte>): seq<byte>
    requires p.Valid() && Complete(p, l)
  {
    var w1 := WriteItems(ClassArrayChunks(p), ClassArrays(p, l), before, |p.dexFiles|);
    var w2 := WriteItems(ClassChunks(p), ClassRecords(p, l), w1, |p.Classes()|);
    WriteItems(BssChunks(p), BssMappings(p), w2, |p.dexFiles|)
  }

  function WriteTables(p: Program, l: Layout, w: seq<byte>): seq<byte>
    requires Complete(p, l)
  {
    var w1 := T.WriteAt(p.storage, p.Vmaps(), RecoveredVmaps(p, l), w, |p.Refs()|);
    T.WriteAt(p.storage, p.Infos(), RecoveredInfos(p, l), w1, |p.Refs()|)
  }

  function WriteBack(p: Program, l: Layout, w: seq<byte>): Output
    requires p.Valid() && Complete(p, l)
  {
    WriteAll(p.CodeLinker(), p.Keys(), l.code, Headers(p, l), WriteText(p, l, w), p.AnyOatClass())
  }

  /** The bytes of the oat file, given those written before the layout pass. */
  function WriteFile(p: Program, l: Layout, before: seq<byte>): seq<byte>
    requires p.Valid() && Complete(p, l)
  {
    WriteBack(p, l, WriteTables(p, l, WriteFront(p, l, before))).out
  }

  // ---------- every stage ends where it was planned to end ----------

  ghost predicate FrontHeld(p: Program, l: Layout, w: seq<byte>)
    requires p.Valid() && Complete(p, l)
  {
    && (forall d :: 0 <= d < |p.dexFiles| ==> Holds(w, Place(ClassArrayChunks(p), l.start, d), ClassArrays(p, l)[d]))
    && (forall c :: 0 <= c < |p.Classes()| ==> Holds(w, ClassOffset(p, l, c), ClassRecords(p, l)[c]))
    && (forall d :: 0 <= d < |p.dexFiles| ==> Holds(w, Place(BssChunks(p), l.bssAt, d), BssMappings(p)[d]))
  }

  lemma RecordSizes(p: Program, l: Layout, c: nat)
    requires Complete(p, l) && c < |p.Classes()|
    ensures |ClassRecords(p, l)[c]| == ClassChunks(p)[c].size
  {
    var k := p.Classes()[c];
    hide C.ClassBytes;
    C.ClassBytesSize(k.status, C.ClassOf(p.Flags(k)), CodeOffsets(p, l, c));
  }

  lemma AllItemsLand(cs: seq<Chunk>, items: seq<seq<byte>>, before: seq<byte>)
    requires |cs| == |items| && forall j :: 0 <= j < |cs| ==> |items[j]| == cs[j].size
    ensures var out := WriteItems(cs, items, before, |cs|);
      && |out| == End(cs, |before|) && before <= out
      && forall j :: 0 <= j < |cs| ==> Holds(out, Place(cs, |before|, j), items[j])
  {
    ItemsLand(cs, items, before, |cs|);
  }

  lemma FrontLands(p: Program, before: seq<byte>, l: Layout)
    requires p.Valid() && l == PlanFile(p, |before|) && Complete(p, l)
    ensures var w := WriteFront(p, l, before); |w| == l.vmapsAt && before <= w && FrontHeld(p, l, w)
  {
    hide Holds, Place, End, WriteItems, T.PlanAt, PlanAll;
    var w1 := WriteItems(ClassArrayChunks(p), ClassArrays(p, l), before, |p.dexFiles|);
    AllItemsLand(ClassArrayChunks(p), ClassArrays(p, l), before);
    var w2 := WriteItems(ClassChunks(p), ClassRecords(p, l), w1, |p.Classes()|);
    forall c | 0 <= c < |p.Classes()|
      ensures |ClassRecords(p, l)[c]| == ClassChunks(p)[c].size
    {
      RecordSizes(p, l, c);
    }
    AllItemsLand(ClassChunks(p), ClassRecords(p, l), w1);
    var w3 := WriteItems(BssChunks(p), BssMappings(p), w2, |p.dexFiles|);
    AllItemsLand(BssChunks(p), BssMappings(p), w2);
    FrontPersists(p, l, w1, w2, w3);
  }

  lemma FrontPersists(p: Program, l: Layout, w1: seq<byte>, w2: seq<byte>, w3: seq<byte>)
    requires p.Valid() && Complete(p, l) && w1 <= w2 <= w3
    requires forall d :: 0 <= d < |p.dexFiles| ==>
      Holds(w1, Place(ClassArrayChunks(p), l.start, d), ClassArrays(p, l)[d])
    requires forall c :: 0 <= c < |p.Classes()| ==>
      Holds(w2, Place(ClassChunks(p), l.classesAt, c), ClassRecords(p, l)[c])
    requires forall d :: 0 <= d < |p.dexFiles| ==> Holds(w3, Place(BssChunks(p), l.bssAt, d), BssMappings(p)[d])
    ensures FrontHeld(p, l, w3)
  {
    hide Holds, Place, ClassArrays, ClassRecords, BssMappings, ClassArrayChunks, ClassChunks, BssChunks;
    forall d | 0 <= d < |p.dexFiles|
      ensures Holds(w3, Place(ClassArrayChunks(p), l.start, d), ClassArrays(p, l)[d])
    {
      HoldsPersists(w1, w3, Place(ClassArrayChunks(p), l.start, d), ClassArrays(p, l)[d]);
    }
    forall c | 0 <= c < |p.Classes()|
      ensures Holds(w3, ClassOffset(p, l, c), ClassRecords(p, l)[c])
    {
      HoldsPersists(w2, w3, ClassOffset(p, l, c), ClassRecords(p, l)[c]);
    }
  }

  lemma FrontHeldPersists(p: Program, l: Layout, w: seq<byte>, more: seq<byte>)
    requires p.Valid() && Complete(p, l) && FrontHeld(p, l, w) && w <= more
    ensures FrontHeld(p, l, more)
  {
    hide Holds, Place, ClassArrays, ClassRecords, BssMappings, ClassArrayChunks, ClassChunks, BssChunks;
    forall d | 0 <= d < |p.dexFiles|
      ensures Holds(more, Place(ClassArrayChunks(p), l.start, d), ClassArrays(p, l)[d])
      ensures Holds(more, Place(BssChunks(p), l.bssAt, d), BssMappings(p)[d])
    {
      HoldsPersists(w, more, Place(ClassArrayChunks(p), l.start, d), ClassArrays(p, l)[d]);
      HoldsPersists(w, more, Place(BssChunks(p), l.bssAt, d), BssMappings(p)[d]);
    }
    forall c | 0 <= c < |p.Classes()|
      ensures Holds(more, ClassOffset(p, l, c), ClassRecords(p, l)[c])
    {
      HoldsPersists(w, more, ClassOffset(p, l, c), ClassRecords(p, l)[c]);
    }
  }

  // A planned table offset is zero when there is no table and lies below all code otherwise.
  ghost predicate TableOffset(m: T.Storage, t: Ptr, offset: nat, codeAt: nat) {
    if m(t) == [] then offset == 0 else 0 < offset && offset + |m(t)| <= codeAt
  }

  lemma StagesAscend(p: Program, start: nat, l: Layout)
    requires p.Valid() && l == PlanFile(p, start)
    ensures start <= l.vmapsAt <= l.vmaps.offset <= l.infos.offset <= l.codeAt
  {
    hide PlanAll;
    T.PlanIsOk(p.storage, p.Vmaps(), l.vmapsAt, |p.Vmaps()|);
    T.PlanIsOk(p.storage, p.Infos(), l.vmaps.offset, |p.Infos()|);
  }

  lemma TablesBelowCode(p: Program, start: nat, l: Layout, i: nat)
    requires p.Valid() && 0 < start && l == PlanFile(p, start) && Complete(p, l) && i < |p.Refs()|
    ensures TableOffset(p.storage, p.Vmaps()[i], l.vmaps.offsets[i], l.codeAt)
    ensures TableOffset(p.storage, p.Infos()[i], l.infos.offsets[i], l.codeAt)
    ensures l.codeAt + HEADER_SIZE + CodeDelta(p.isa) <= l.code.offsets[i] < l.Size() + CodeDelta(p.isa)
  {
    StagesAscend(p, start, l);
    T.PlanIsOk(p.storage, p.Vmaps(), l.vmapsAt, |p.Vmaps()|);
    T.PlanIsOk(p.storage, p.Infos(), l.vmaps.offset, |p.Infos()|);
    CodeInRange(p.CodeLinker(), p.Keys(), l.codeAt, p.AnyOatClass(), i);
    hide T.PlanAt, PlanAll, End;
  }

  lemma FieldRecovers(p: Program, t: Ptr, offset: nat, codeAt: nat, codeOffset: nat)
    requires TableOffset(p.storage, t, offset, codeAt)
    requires codeAt + HEADER_SIZE + CodeDelta(p.isa) <= codeOffset < U32
    ensures var field := T.Rebased(T.Stored(offset), T.Wrap32(codeOffset - CodeDelta(p.isa)));
      && RecoveredOffset(p, field, codeOffset) == offset
      && field < U32
      && (p.storage(t) == [] ==> field == 0)
      && (p.storage(t) != [] ==> field != 0 && codeOffset - CodeDelta(p.isa) - field == offset)
  {
    var at: nat := codeOffset - CodeDelta(p.isa);
    assert T.Wrap32(at) == at by { T.WrapSmall(at); }
    hide T.Wrap32, T.Stored, T.Rebased, T.Recovered, CodeDelta;
    if p.storage(t) == [] {
      T.NoTableNoField(at);
    } else {
      T.FieldRoundTrip(offset, at);
    }
  }

  // The file stays below 4 GiB, Thumb bit included.
  ghost predicate Fits(p: Program, l: Layout) {
    l.Size() + CodeDelta(p.isa) < U32
  }

  /** What the write visitors recover from headers and code offsets is what was planned. */
  lemma RecoveredIsPlanned(p: Program, start: nat, l: Layout)
    requires p.Valid() && 0 < start && l == PlanFile(p, start) && Complete(p, l) && Fits(p, l)
    ensures RecoveredVmaps(p, l) == l.vmaps.offsets && RecoveredInfos(p, l) == l.infos.offsets
  {
    hide PlanFile, TableOffset, RecoveredOffset, Fits;
    forall i | 0 <= i < |p.Refs()|
      ensures RecoveredVmaps(p, l)[i] == l.vmaps.offsets[i] && RecoveredInfos(p, l)[i] == l.infos.offsets[i]
    {
      FieldsOf(p, start, l, i);
    }
  }

  lemma FieldsOf(p: Program, start: nat, l: Layout, i: nat)
    requires p.Valid() && 0 < start && l == PlanFile(p, start) && Complete(p, l) && Fits(p, l) && i < |p.Refs()|
    ensures RecoveredVmaps(p, l)[i] == l.vmaps.offsets[i] && RecoveredInfos(p, l)[i] == l.infos.offsets[i]
    ensures var h, at := Headers(p, l)[i], l.code.offsets[i] - CodeDelta(p.isa);
      && h.vmapOffset < U32 && h.infoOffset < U32
      && if p.storage(p.Vmaps()[i]) == [] then h.vmapOffset == 0
           else h.vmapOffset != 0 && at - h.vmapOffset == l.vmaps.offsets[i]
    ensures var h, at := Headers(p, l)[i], l.code.offsets[i] - CodeDelta(p.isa);
      if p.storage(p.Infos()[i]) == [] then h.infoOffset == 0
        else h.infoOffset != 0 && at - h.infoOffset == l.infos.offsets[i]
  {
    hide PlanFile, TableOffset, RecoveredOffset, T.Rebased, T.Stored, T.Wrap32;
    TablesBelowCode(p, start, l, i);
    FieldRecovers(p, p.Vmaps()[i], l.vmaps.offsets[i], l.codeAt, l.code.offsets[i]);
    FieldRecovers(p, p.Infos()[i], l.infos.offsets[i], l.codeAt, l.code.offsets[i]);
  }

  lemma TablesLand(p: Program, start: nat, l: Layout, w: seq<byte>)
    requires p.Valid() && 0 < start && l == PlanFile(p, start) && Complete(p, l) && Fits(p, l) && |w| == l.vmapsAt
    ensures var n := WriteTables(p, l, w);
      && |n| == l.infos.offset && w <= n
      && T.AllTablesAt(p.storage, p.Vmaps(), l.vmaps.offsets, n)
      && T.AllTablesAt(p.storage, p.Infos(), l.infos.offsets, n)
  {
    RecoveredIsPlanned(p, start, l);
    StagesAscend(p, start, l);
    hide T.WriteAt, T.PlanAt, PlanAll, RecoveredVmaps, RecoveredInfos, End, T.AllTablesAt;
    T.TablePassRefinesPlan(p.storage, p.Vmaps(), w, l.vmaps);
    var w1 := T.WriteAt(p.storage, p.Vmaps(), l.vmaps.offsets, w, |p.Refs()|);
    T.TablePassRefinesPlan(p.storage, p.Infos(), w1, l.infos);
    TablesPersist(p.storage, p.Vmaps(), l.vmaps.offsets, w1,
      T.WriteAt(p.storage, p.Infos(), l.infos.offsets, w1, |p.Refs()|));
  }

  lemma TablesPersist(m: T.Storage, ts: seq<Ptr>, offsets: seq<nat>, w: seq<byte>, more: seq<byte>)
    requires |ts| == |offsets| && T.AllTablesAt(m, ts, offsets, w) && w <= more
    ensures T.AllTablesAt(m, ts, offsets, more)
  {
    forall j | 0 <= j < |ts| && m(ts[j]) != []
      ensures T.TableAt(m, more, ts[j], offsets[j])
    {
      T.TableAtPersists(m, w, more, ts[j], offsets[j]);
    }
  }

  // The dex file records and the trampolines.
  ghost predicate TextHeld(p: Program, l: Layout, out: seq<byte>)
    requires p.Valid() && Complete(p, l)
  {
    && (forall d :: 0 <= d < |p.dexFiles| ==>
          Holds(out, Place(RecordChunks(p), l.infos.offset, d), DexRecords(p, l)[d]))
    && (forall i :: 0 <= i < |TextItems(p)| ==> Holds(out, Place(TextChunks(p), l.textAt, i), TextItems(p)[i]))
  }

  function WriteText(p: Program, l: Layout, w: seq<byte>): seq<byte>
    requires p.Valid() && Complete(p, l)
  {
    var w1 := WriteItems(RecordChunks(p), DexRecords(p, l), w, |p.dexFiles|);
    WriteItems(TextChunks(p), TextItems(p), w1, |TextChunks(p)|)
  }

  lemma RecordsFit(p: Program, l: Layout)
    requires p.Valid()
    ensures forall d :: 0 <= d < |p.dexFiles| ==> |DexRecords(p, l)[d]| == RecordChunks(p)[d].size
  {
    hide DexRecord, p.Valid;
  }

  lemma TrampolinesFit(p: Program)
    ensures forall i :: 0 <= i < |TextItems(p)| ==> |TextItems(p)[i]| == TextChunks(p)[i].size
  {
  }

  lemma TextEnds(p: Program, start: nat)
    requires p.Valid()
    ensures var l := PlanFile(p, start);
      l.textAt == End(RecordChunks(p), l.infos.offset) && l.codeAt == End(TextChunks(p), l.textAt)
  {
    hide T.PlanAt, PlanAll, End, RecordChunks, TextChunks, ClassChunks, BssChunks, ClassArrayChunks;
  }

  lemma TextLands(p: Program, start: nat, l: Layout, w: seq<byte>)
    requires p.Valid() && l == PlanFile(p, start) && Complete(p, l) && |w| == l.infos.offset
    ensures var n := WriteText(p, l, w); |n| == l.codeAt && w <= n && TextHeld(p, l, n)
  {
    hide Holds, Place, End, WriteItems, PlanFile, DexRecords, TextItems, RecordChunks, TextChunks, p.Valid, Complete;
    TextEnds(p, start);
    RecordsFit(p, l);
    TrampolinesFit(p);
    var w1 := WriteItems(RecordChunks(p), DexRecords(p, l), w, |p.dexFiles|);
    AllItemsLand(RecordChunks(p), DexRecords(p, l), w);
    AllItemsLand(TextChunks(p), TextItems(p), w1);
    var n := WriteText(p, l, w);
    forall d | 0 <= d < |p.dexFiles|
      ensures Holds(n, Place(RecordChunks(p), l.infos.offset, d), DexRecords(p, l)[d])
    {
      HoldsPersists(w1, n, Place(RecordChunks(p), l.infos.offset, d), DexRecords(p, l)[d]);
    }
  }

  lemma TextHeldPersists(p: Program, l: Layout, w: seq<byte>, more: seq<byte>)
    requires p.Valid() && Complete(p, l) && TextHeld(p, l, w) && w <= more
    ensures TextHeld(p, l, more)
  {
    hide Holds, Place, DexRecords, TextItems, RecordChunks, TextChunks;
    forall d | 0 <= d < |p.dexFiles|
      ensures Holds(more, Place(RecordChunks(p), l.infos.offset, d), DexRecords(p, l)[d])
    {
      HoldsPersists(w, more, Place(RecordChunks(p), l.infos.offset, d), DexRecords(p, l)[d]);
    }
    forall i | 0 <= i < |TextItems(p)|
      ensures Holds(more, Place(TextChunks(p), l.textAt, i), TextItems(p)[i])
    {
      HoldsPersists(w, more, Place(TextChunks(p), l.textAt, i), TextItems(p)[i]);
    }
  }

  ghost predicate CodeHeld(p: Program, l: Layout, out: seq<byte>)
    requires p.Valid() && Complete(p, l)
  {
    Located(p.CodeLinker(), p.Keys(), l.code.offsets, Headers(p, l), out, |p.Refs()|)
  }

  lemma BackLands(p: Program, start: nat, l: Layout, w: seq<byte>)
    requires p.Valid() && l == PlanFile(p, start) && Complete(p, l) && |w| == l.infos.offset
    ensures var n := WriteBack(p, l, w);
      n.pending == [] && n.Offset() == l.Size() && w <= n.out && TextHeld(p, l, n.out) && CodeHeld(p, l, n.out)
  {
    hide TextHeld, WriteText, Located, WriteAll, PlanAll, Headers, T.PlanAt, End;
    TextLands(p, start, l, w);
    LinkerIsValid(p);
    NoClassNoCode(p);
    var w2 := WriteText(p, l, w);
    CodePassRefinesPlan(p.CodeLinker(), p.Keys(), Headers(p, l), w2, p.AnyOatClass(), l.code);
    TextHeldPersists(p, l, w2, WriteBack(p, l, w).out);
  }

  lemma {:induction false} NoMethodsNoRefs(p: Program, n: nat)
    requires !p.anyCompilation && n <= |p.ClassRefs()|
    ensures Concat(p.ClassRefs(), n) == []
  {
    if n > 0 {
      NoMethodsNoRefs(p, n - 1);
      assert p.ClassRefs()[n - 1] == [];
    }
  }

  lemma NoClassNoCode(p: Program)
    ensures !p.AnyOatClass() ==> p.Keys() == []
  {
    if !p.anyCompilation {
      NoMethodsNoRefs(p, |p.ClassRefs()|);
    }
  }

  /**
   The writing passes, run from the start of the layout pass, end exactly at the planned file size,
   and every item of every stage is at the offset that was recorded for it.
   */
  lemma FileRefinesPlan(p: Program, before: seq<byte>, l: Layout)
    requires p.Valid() && before != [] && l == PlanFile(p, |before|) && Complete(p, l) && Fits(p, l)
    ensures var out := WriteFile(p, l, before);
      && |out| == l.Size() && before <= out
      && FrontHeld(p, l, out)
      && T.AllTablesAt(p.storage, p.Vmaps(), l.vmaps.offsets, out)
      && T.AllTablesAt(p.storage, p.Infos(), l.infos.offsets, out)
      && TextHeld(p, l, out)
      && CodeHeld(p, l, out)
  {
    hide FrontHeld, T.AllTablesAt, TextHeld, CodeHeld, PlanFile, WriteFront, WriteTables, WriteBack;
    FrontLands(p, before, l);
    var w1 := WriteFront(p, l, before);
    TablesLand(p, |before|, l, w1);
    var w2 := WriteTables(p, l, w1);
    BackLands(p, |before|, l, w2);
    var out := WriteBack(p, l, w2).out;
    FrontHeldPersists(p, l, w1, out);
    TablesPersist(p.storage, p.Vmaps(), l.vmaps.offsets, w2, out);
    TablesPersist(p.storage, p.Infos(), l.infos.offsets, w2, out);
  }

  // The place of method `i` of class `c` in the traversal.
  ghost function Index(p: Program, c: nat, i: nat): (n: nat)
    requires c < |p.Classes()| && i < |p.Methods(p.Classes()[c])| && p.HasCode(p.Methods(p.Classes()[c])[i])
    ensures n < |p.Refs()| && p.Refs()[n] == p.Methods(p.Classes()[c])[i]
    ensures n == Base(p.ClassRefs(), c) + C.Rank(p.Flags(p.Classes()[c]), i)
  {
    var k := p.Classes()[c];
    CompiledAt(p, k, i, |p.Methods(k)|);
    ConcatAt(p.ClassRefs(), c, C.Rank(p.Flags(k), i), |p.ClassRefs()|);
    Base(p.ClassRefs(), c) + C.Rank(p.Flags(k), i)
  }
}
