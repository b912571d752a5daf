/**
 The oat writer: an object whose layout pass fills in offsets and whose two writing passes, which
 keep no maps, replay the traversal from those offsets.
 */
module OatWriter {
  import opened Align
  import opened Flatten
  import opened OatLayout
  import opened OatCode
  import opened OatFile
  import opened OatPasses
  import opened OatStages
  import T = OatTables
  import C = OatClasses

  datatype WriteState = LayoutNext | RodataNext | TextNext | HeaderNext

  // What precedes the code, padding excluded.
  ghost function Rodata(p: Program, l: Layout, before: seq<byte>): seq<byte>
    requires p.Valid() && Complete(p, l)
  {
    WriteItems(RecordChunks(p), DexRecords(p, l), WriteTables(p, l, WriteFront(p, l, before)), |p.dexFiles|)
  }

  /** The offsets recorded for everything in front of the vmap tables are the planned ones. */
  ghost predicate FrontRecorded(p: Program, l: Layout, classOffsetsAt: seq<nat>, classOffsets: seq<seq<nat>>,
                                oatClasses: seq<C.OatClass>, bssMappingAt: seq<nat>)
    requires p.Valid()
  {
    && classOffsetsAt == seq<nat>(|p.dexFiles|, d requires 0 <= d < |p.dexFiles| => ClassArrayOffset(p, l, d))
    && classOffsets == seq(|p.dexFiles|, d requires 0 <= d < |p.dexFiles| => ClassOffsets(p, l, d))
    && oatClasses == seq(|p.Classes()|, c requires 0 <= c < |p.Classes()| => C.ClassOf(p.Flags(p.Classes()[c])))
    && bssMappingAt == seq<nat>(|p.dexFiles|, d requires 0 <= d < |p.dexFiles| => BssOffset(p, l, d))
  }

  /** So are those of the dex file records, the trampolines, the code and its thunks. */
  ghost predicate BackRecorded(p: Program, l: Layout, dexFileAt: seq<nat>, padding: nat, trampolineAt: seq<nat>,
                               codeOffsets: seq<seq<nat>>, headers: seq<seq<MethodHeader>>, thunks: seq<Thunk>)
    requires Complete(p, l)
  {
    && dexFileAt == seq<nat>(|p.dexFiles|, d requires 0 <= d < |p.dexFiles| =>
         Place(RecordChunks(p), l.infos.offset, d))
    && padding == RoundUp(l.textAt, PAGE_SIZE) - l.textAt
    && |trampolineAt| == |TextChunks(p)| - 1
    && (forall i :: 0 <= i < |trampolineAt| ==>
          trampolineAt[i] == Place(TextChunks(p), l.textAt, i + 1) + CodeDelta(p.isa))
    && Filled(p.ClassRefs(), codeOffsets, 0, l.code.offsets, |p.Refs()|)
    && Filled(p.ClassRefs(), headers, NO_HEADER, Headers(p, l), |p.Refs()|)
    && thunks == l.code.reserved
  }

  method LayOutFront(p: Program, start: nat)
    returns (offset: nat, classOffsetsAt: seq<nat>, classOffsets: seq<seq<nat>>, oatClasses: seq<C.OatClass>,
      bssMappingAt: seq<nat>)
    requires p.Valid()
    ensures offset == PlanFile(p, start).vmapsAt
    ensures FrontRecorded(p, PlanFile(p, start), classOffsetsAt, classOffsets, oatClasses, bssMappingAt)
  {
    hide PlanAll, T.PlanAt, Place, End, ClassArrayChunks, ClassChunks, BssChunks, Concat, C.ClassOf, C.Describes, Cut;
    ghost var l := PlanFile(p, start);
    offset, classOffsetsAt := InitClassOffsets(p, start);
    var classAt: seq<nat>;
    offset, classAt, oatClasses := InitOatClasses(p, offset);
    classOffsets := ShareOffsets(p, classAt);
    ClassOffsetsShared(p, l, classAt, classOffsets);
    offset, bssMappingAt := InitMethodBssMappings(p, offset);
  }

  method LayOutBack(p: Program, ghost l: Layout, vmapsAt: nat)
    returns (offset: nat, dexFileAt: seq<nat>, padding: nat, trampolineAt: seq<nat>,
             codeOffsets: seq<seq<nat>>, headers: seq<seq<MethodHeader>>, thunks: seq<Thunk>)
    requires p.Valid() && l == PlanFile(p, l.start) && vmapsAt == l.vmapsAt && Complete(p, l)
    ensures offset == l.Size()
    ensures BackRecorded(p, l, dexFileAt, padding, trampolineAt, codeOffsets, headers, thunks)
  {
    hide PlanAll, T.PlanAt, Filled, Place, End, RoundUp, RecordChunks, TextChunks, ClassChunks, BssChunks,
         ClassArrayChunks,
         Concat, Headers, StoredAll;
    offset := vmapsAt;
    var vmapFields, infoFields;
    offset, vmapFields := InitTables(p, Vmap, offset);
    offset, infoFields := InitTables(p, Info, offset);
    offset, dexFileAt := InitOatDexFiles(p, offset);
    padding := offset;
    var executable: nat;
    offset, executable, trampolineAt := InitOatCode(p, offset);
    padding := executable - padding;
    var plan: Plan;
    plan, codeOffsets, headers := InitCode(p, l, offset, vmapFields, infoFields);
    offset, thunks := plan.offset, plan.reserved;
  }

  class Writer {
    const p: Program
    var state: WriteState
    var oatSize: nat
    var classOffsetsAt: seq<nat>
    var classOffsets: seq<seq<nat>>
    var oatClasses: seq<C.OatClass>
    var bssMappingAt: seq<nat>
    var dexFileAt: seq<nat>
    var executablePadding: nat
    var trampolineAt: seq<nat>
    var codeOffsets: seq<seq<nat>>
    var headers: seq<seq<MethodHeader>>
    var thunks: seq<Thunk>
    var out: seq<byte>

    constructor (p: Program, out: seq<byte>)
      ensures this.p == p && this.out == out && oatSize == |out| && state == LayoutNext
    {
      this.p, this.out := p, out;
      state, oatSize := LayoutNext, |out|;
      classOffsetsAt, classOffsets, oatClasses, bssMappingAt, dexFileAt := [], [], [], [], [];
      executablePadding, trampolineAt, codeOffsets, headers, thunks := 0, [], [], [], [];
    }

    ghost predicate Recorded(l: Layout)
      reads this
      requires p.Valid() && Complete(p, l)
    {
      && oatSize == l.Size()
      && FrontRecorded(p, l, classOffsetsAt, classOffsets, oatClasses, bssMappingAt)
      && BackRecorded(p, l, dexFileAt, executablePadding, trampolineAt, codeOffsets, headers, thunks)
    }

    /** Plans every offset of the file, starting from what has been written so far. */
    method PrepareLayout()
      requires p.Valid() && state == LayoutNext
      modifies this
      ensures state == RodataNext && out == old(out)
      ensures var l := PlanFile(p, old(oatSize)); Complete(p, l) && Recorded(l)
    {
      hide FrontRecorded, BackRecorded, PlanFile, Complete;
      ghost var l := PlanFile(p, oatSize);
      PlanIsComplete(p, oatSize);
      LayoutStart(p, oatSize);
      var offset: nat;
      offset, classOffsetsAt, classOffsets, oatClasses, bssMappingAt := LayOutFront(p, oatSize);
      oatSize, dexFileAt, executablePadding, trampolineAt, codeOffsets, headers, thunks := LayOutBack(p, l, offset);
      state := RodataNext;
    }

    /** Writes everything in front of the code from the recorded offsets alone. */
    method WriteRodata(ghost l: Layout)
      requires p.Valid() && Complete(p, l) && state == RodataNext && Recorded(l)
      requires out != [] && l == PlanFile(p, |out|) && Fits(p, l)
      modifies this`out, this`state
      ensures state == TextNext && Recorded(l)
      ensures var r := Rodata(p, l, old(out)); |r| == l.textAt && out == r + Zeros(RoundUp(|r|, PAGE_SIZE) - |r|)
    {
      hide FrontRecorded, BackRecorded, PlanFile, RoundUp, WriteFront, WriteTables, Filled, WriteItems, Headers,
           ClassArrayOffset, BssOffset, Fits;
      ghost var before := out;
      LayoutStart(p, |out|);
      BackFields(p, l, dexFileAt, executablePadding, trampolineAt, codeOffsets, headers, thunks);
      out := WriteFrontStages(p, l, classOffsetsAt, classOffsets, oatClasses, bssMappingAt, codeOffsets, out);
      RodataEnds(p, l, before);
      out := WriteMaps(p, l, headers, codeOffsets, out);
      FrontFields(p, l, classOffsetsAt, classOffsets, oatClasses, bssMappingAt);
      out := WriteOatDexFiles(p, l, classOffsetsAt, bssMappingAt, out);
      out := out + Zeros(executablePadding);
      state := TextNext;
    }

    /** Writes trampolines and code; the cursor ends at the planned size. */
    method WriteCode(ghost l: Layout, ghost before: seq<byte>)
      requires p.Valid() && Complete(p, l) && state == TextNext && Recorded(l)
      requires before != [] && l == PlanFile(p, |before|) && Fits(p, l)
      requires var r := Rodata(p, l, before); |r| == l.textAt && out == r + Zeros(RoundUp(|r|, PAGE_SIZE) - |r|)
      modifies this`out, this`state
      ensures state == HeaderNext
      ensures out == WriteFile(p, l, before) && |out| == oatSize
    {
      hide FrontRecorded, BackRecorded, PlanFile, RoundUp, WriteFront, WriteTables, Filled, WriteItems, Headers, Fits,
           FrontHeld, TextHeld, CodeHeld, T.AllTablesAt, WriteAll;
      out := WriteTrampolines(p, Rodata(p, l, before), out);
      BackFields(p, l, dexFileAt, executablePadding, trampolineAt, codeOffsets, headers, thunks);
      out := WriteCodePass(p, headers, codeOffsets, out, thunks, l.code, Headers(p, l));
      FileRefinesPlan(p, before, l);
      state := HeaderNext;
    }

    /** The whole run: the bytes are those of the specification and the final cursor is the planned size. */
    method Write() returns (ghost l: Layout)
      requires p.Valid() && state == LayoutNext && out != [] && oatSize == |out| && Fits(p, PlanFile(p, |out|))
      modifies this
      ensures l == PlanFile(p, old(oatSize)) && Complete(p, l)
      ensures out == WriteFile(p, l, old(out)) && |out| == oatSize == l.Size()
    {
      hide FrontRecorded, BackRecorded, PlanFile, RoundUp, WriteFile, Rodata, Complete, Fits;
      l := PlanFile(p, oatSize);
      ghost var before := out;
      PrepareLayout();
      WriteRodata(l);
      WriteCode(l, before);
    }
  }

  lemma ClassOffsetsShared(p: Program, l: Layout, classAt: seq<nat>, perFile: seq<seq<nat>>)
    requires |classAt| == |p.Classes()| && |perFile| == |p.dexFiles|
    requires forall c :: 0 <= c < |classAt| ==> classAt[c] == Place(ClassChunks(p), l.classesAt, c)
    requires forall d :: 0 <= d < |perFile| ==> perFile[d] == Cut(p.ClassLists(), classAt, d)
    ensures perFile == seq(|p.dexFiles|, d requires 0 <= d < |p.dexFiles| => ClassOffsets(p, l, d))
  {
    hide Place, ClassChunks, Concat;
    forall d | 0 <= d < |p.dexFiles|
      ensures perFile[d] == ClassOffsets(p, l, d)
    {
      ListFits(p, d);
    }
  }

  lemma LayoutStart(p: Program, start: nat)
    requires p.Valid()
    ensures PlanFile(p, start).start == start
  {
  }

  lemma FrontFields(p: Program, l: Layout, classOffsetsAt: seq<nat>, classOffsets: seq<seq<nat>>,
                    oatClasses: seq<C.OatClass>, bssMappingAt: seq<nat>)
    requires p.Valid() && FrontRecorded(p, l, classOffsetsAt, classOffsets, oatClasses, bssMappingAt)
    ensures |classOffsetsAt| == |bssMappingAt| == |classOffsets| == |p.dexFiles| && |oatClasses| == |p.Classes()|
    ensures forall d :: 0 <= d < |p.dexFiles| ==> classOffsetsAt[d] == ClassArrayOffset(p, l, d)
    ensures forall d :: 0 <= d < |p.dexFiles| ==> bssMappingAt[d] == BssOffset(p, l, d)
    ensures forall d :: 0 <= d < |p.dexFiles| ==> classOffsets[d] == ClassOffsets(p, l, d)
    ensures forall c :: 0 <= c < |p.Classes()| ==> oatClasses[c] == C.ClassOf(p.Flags(p.Classes()[c]))
  {
  }

  lemma BackFields(p: Program, l: Layout, dexFileAt: seq<nat>, padding: nat, trampolineAt: seq<nat>,
                   codeOffsets: seq<seq<nat>>, headers: seq<seq<MethodHeader>>, thunks: seq<Thunk>)
    requires Complete(p, l) && BackRecorded(p, l, dexFileAt, padding, trampolineAt, codeOffsets, headers, thunks)
    ensures padding == RoundUp(l.textAt, PAGE_SIZE) - l.textAt && thunks == l.code.reserved
    ensures Filled(p.ClassRefs(), codeOffsets, 0, l.code.offsets, |p.Refs()|)
    ensures Filled(p.ClassRefs(), headers, NO_HEADER, Headers(p, l), |p.Refs()|)
  {
  }

  lemma FilledIsCut(p: Program, l: Layout, codeOffsets: seq<seq<nat>>)
    requires Complete(p, l) && Filled(p.ClassRefs(), codeOffsets, 0, l.code.offsets, |p.Refs()|)
    ensures |codeOffsets| == |p.Classes()|
    ensures forall c :: 0 <= c < |p.Classes()| ==> codeOffsets[c] == CodeOffsets(p, l, c)
  {
    hide Filled, Concat;
    BaseIs(p, 0);
    FilledSizes(p.ClassRefs(), codeOffsets, 0, l.code.offsets, |p.Refs()|);
    forall c | 0 <= c < |p.Classes()|
      ensures codeOffsets[c] == CodeOffsets(p, l, c)
    {
      forall k | 0 <= k < |codeOffsets[c]|
        ensures codeOffsets[c][k] == CodeOffsets(p, l, c)[k]
      {
        FilledAt(p.ClassRefs(), codeOffsets, 0, l.code.offsets, c, k);
      }
    }
  }

  method WriteFrontStages(p: Program, ghost l: Layout, classOffsetsAt: seq<nat>, classOffsets: seq<seq<nat>>,
                          oatClasses: seq<C.OatClass>, bssMappingAt: seq<nat>, codeOffsets: seq<seq<nat>>,
                            before: seq<byte>)
    returns (out: seq<byte>)
    requires p.Valid() && Complete(p, l) && l.start > 0
    requires FrontRecorded(p, l, classOffsetsAt, classOffsets, oatClasses, bssMappingAt)
    requires Filled(p.ClassRefs(), codeOffsets, 0, l.code.offsets, |p.Refs()|)
    ensures out == WriteFront(p, l, before)
  {
    hide FrontRecorded, Filled, WriteItems, Concat, C.Words, C.ClassBytes, CodeOffsets, ClassOffsets, C.ClassOf,
         BssMappings, Place;
    FrontFields(p, l, classOffsetsAt, classOffsets, oatClasses, bssMappingAt);
    FilledIsCut(p, l, codeOffsets);
    out := WriteClassOffsets(p, classOffsetsAt, classOffsets, before);
    assert seq(|classOffsets|, d requires 0 <= d < |classOffsets| => C.Words(classOffsets[d])) == ClassArrays(p, l);
    out := WriteClasses(p, oatClasses, codeOffsets, out);
    assert seq(|oatClasses|, c requires 0 <= c < |oatClasses| =>
      C.ClassBytes(p.Classes()[c].status, oatClasses[c], codeOffsets[c])) == ClassRecords(p, l);
    out := WriteMethodBssMappings(p, out);
  }

  method WriteMaps(p: Program, ghost l: Layout, headers: seq<seq<MethodHeader>>, codeOffsets: seq<seq<nat>>,
                   before: seq<byte>)
    returns (out: seq<byte>)
    requires Complete(p, l) && before != []
    requires Filled(p.ClassRefs(), codeOffsets, 0, l.code.offsets, |p.Refs()|)
    requires Filled(p.ClassRefs(), headers, NO_HEADER, Headers(p, l), |p.Refs()|)
    ensures out == WriteTables(p, l, before)
  {
    hide Filled, T.WriteAt, RecoveredOffset, HeaderOf, Concat;
    out := WriteTablePass(p, Vmap, headers, codeOffsets, before, Headers(p, l), l.code.offsets);
    assert RecoveredAll(p, Vmap, Headers(p, l), l.code.offsets) == RecoveredVmaps(p, l);
    out := WriteTablePass(p, Info, headers, codeOffsets, out, Headers(p, l), l.code.offsets);
    assert RecoveredAll(p, Info, Headers(p, l), l.code.offsets) == RecoveredInfos(p, l);
  }

  lemma RodataEnds(p: Program, l: Layout, before: seq<byte>)
    requires p.Valid() && before != [] && l == PlanFile(p, |before|) && Complete(p, l) && Fits(p, l)
    ensures |Rodata(p, l, before)| == l.textAt && WriteFront(p, l, before) != []
  {
    hide PlanAll, T.PlanAt, WriteFront, WriteTables, FrontHeld, T.AllTablesAt, WriteItems, End, Holds, Place, Fits;
    FrontLands(p, before, l);
    TablesLand(p, |before|, l, WriteFront(p, l, before));
    AllItemsLand(RecordChunks(p), DexRecords(p, l), WriteTables(p, l, WriteFront(p, l, before)));
  }
}
