/**
 The stages of the oat writer that place or write a run of items: class offset arrays, class
 records, bss mappings, dex file records and trampolines.
 */
module OatStages {
  import opened Align
  import opened Flatten
  import opened OatLayout
  import opened OatCode
  import opened OatFile
  import C = OatClasses
  import B = BssMapping

  // ---------- placing ----------

  /** Class offset arrays: dex files without classes get none. */
  method InitClassOffsets(p: Program, start: nat) returns (offset: nat, ats: seq<nat>)
    ensures offset == End(ClassArrayChunks(p), start)
    ensures |ats| == |p.dexFiles|
    ensures forall d :: 0 <= d < |ats| ==>
      ats[d] == if p.dexFiles[d].classes == [] then 0 else Place(ClassArrayChunks(p), start, d)
  {
    hide Cursor, Place, RoundUp;
    ghost var cs := ClassArrayChunks(p);
    offset, ats := start, seq<nat>(|p.dexFiles|, _ => 0);
    NoCursor(cs, start);
    for d := 0 to |p.dexFiles|
      invariant offset == Cursor(cs, start, d) && |ats| == |p.dexFiles|
      invariant forall e :: 0 <= e < |ats| ==>
        ats[e] == if e >= d || p.dexFiles[e].classes == [] then 0 else Place(cs, start, e)
    {
      NextCursor(cs, start, d);
      if p.dexFiles[d].classes != [] {
        offset := RoundUp(offset, 4);
        ats := ats[d := offset];
        offset := offset + 4 * |p.dexFiles[d].classes|;
      }
    }
  }

  /** Class records: one per class, built from the methods visited, each right after the last. */
  method InitOatClasses(p: Program, start: nat) returns (offset: nat, ats: seq<nat>, oatClasses: seq<C.OatClass>)
    ensures offset == End(ClassChunks(p), start)
    ensures |ats| == |oatClasses| == |p.Classes()|
    ensures forall c :: 0 <= c < |ats| ==> ats[c] == Place(ClassChunks(p), start, c)
    ensures forall c :: 0 <= c < |ats| ==> oatClasses[c] == C.ClassOf(p.Flags(p.Classes()[c]))
  {
    hide Cursor, Place, RoundUp, Concat, C.ClassOf, C.SizeOf, C.Describes, C.Rank;
    ghost var cs := ClassChunks(p);
    NoCursor(cs, start);
    offset, ats, oatClasses := start, [], [];
    var classes := p.Classes();
    for c := 0 to |classes|
      invariant offset == Cursor(cs, start, c) && |ats| == |oatClasses| == c
      invariant forall e :: 0 <= e < c ==> ats[e] == Place(cs, start, e)
      invariant forall e :: 0 <= e < c ==> oatClasses[e] == C.ClassOf(p.Flags(classes[e]))
    {
      NextCursor(cs, start, c);
      var flags, withCode := CollectMethods(p, classes[c]);
      ats := ats + [offset];
      var record := C.BuildClass(flags, withCode);
      IsClassOf(record, flags);
      offset := offset + C.CLASS_HEADER_SIZE;
      offset := offset + C.SizeOf(record);
      oatClasses := oatClasses + [record];
    }
  }

  lemma IsClassOf(record: C.OatClass, flags: seq<bool>)
    requires C.Describes(record, flags)
    ensures record == C.ClassOf(flags)
  {
    C.DescribedOnce(record, C.ClassOf(flags), flags);
  }

  method CollectMethods(p: Program, c: DexClass) returns (flags: seq<bool>, withCode: nat)
    ensures flags == p.Flags(c) && withCode == C.Rank(flags, |flags|)
  {
    flags, withCode := [], 0;
    var ms := p.Methods(c);
    for m := 0 to |ms|
      invariant flags == p.Flags(c)[..m] && withCode == C.Rank(p.Flags(c), m)
    {
      flags := flags + [p.HasCode(ms[m])];
      if p.HasCode(ms[m]) {
        withCode := withCode + 1;
      }
    }
  }

  /** Hands the class offsets out to the dex files in traversal order. */
  method ShareOffsets(p: Program, ats: seq<nat>) returns (perFile: seq<seq<nat>>)
    requires |ats| == |p.Classes()|
    ensures |perFile| == |p.dexFiles|
    ensures forall d :: 0 <= d < |perFile| ==> perFile[d] == Cut(p.ClassLists(), ats, d)
  {
    hide Concat;
    ghost var ls := p.ClassLists();
    var i := 0;
    perFile := [];
    StartOfLists(p);
    for d := 0 to |p.dexFiles|
      invariant |perFile| == d && i == Base(ls, d)
      invariant forall e :: 0 <= e < d ==> perFile[e] == Cut(ls, ats, e)
    {
      ListFits(p, d);
      var file: seq<nat> := [];
      for j := 0 to |p.dexFiles[d].classes|
        invariant i == Base(ls, d) + j && file == Cut(ls, ats, d)[..j]
      {
        file := file + [ats[i]];
        i := i + 1;
      }
      perFile := perFile + [file];
    }
  }

  lemma StartOfLists(p: Program)
    ensures Base(p.ClassLists(), 0) == 0
    ensures Base(p.ClassLists(), |p.dexFiles|) == |p.Classes()|
  {
  }

  lemma ListFits(p: Program, d: nat)
    requires d < |p.dexFiles|
    ensures Base(p.ClassLists(), d + 1) == Base(p.ClassLists(), d) + |p.dexFiles[d].classes| <= |p.Classes()|
  {
    ConcatGrows(p.ClassLists(), d + 1, |p.dexFiles|);
  }

  /** Bss mappings: the entries are counted, not kept. */
  method InitMethodBssMappings(p: Program, start: nat) returns (offset: nat, ats: seq<nat>)
    requires p.Valid()
    ensures offset == End(BssChunks(p), start)
    ensures |ats| == |p.dexFiles|
    ensures forall d :: 0 <= d < |ats| ==>
      ats[d] == if p.dexFiles[d].bss == [] then 0 else Place(BssChunks(p), start, d)
  {
    hide Cursor, Place, RoundUp, B.Encode;
    ghost var cs := BssChunks(p);
    NoCursor(cs, start);
    offset, ats := start, seq<nat>(|p.dexFiles|, _ => 0);
    for d := 0 to |p.dexFiles|
      invariant offset == Cursor(cs, start, d) && |ats| == |p.dexFiles|
      invariant forall e :: 0 <= e < |ats| ==>
        ats[e] == if e >= d || p.dexFiles[e].bss == [] then 0 else Place(cs, start, e)
    {
      NextCursor(cs, start, d);
      var bss := p.dexFiles[d].bss;
      if bss != [] {
        ats := ats[d := offset];
        var n := B.CountEntries(bss, p.pointerSize);
        offset := offset + 4 + 8 * n;
      }
    }
  }

  method InitOatDexFiles(p: Program, start: nat) returns (offset: nat, ats: seq<nat>)
    ensures offset == End(RecordChunks(p), start)
    ensures |ats| == |p.dexFiles| && forall d :: 0 <= d < |ats| ==> ats[d] == Place(RecordChunks(p), start, d)
  {
    hide Cursor, Place, RoundUp;
    ghost var cs := RecordChunks(p);
    NoCursor(cs, start);
    offset, ats := start, [];
    for d := 0 to |p.dexFiles|
      invariant offset == Cursor(cs, start, d) && |ats| == d
      invariant forall e :: 0 <= e < d ==> ats[e] == Place(cs, start, e)
    {
      NextCursor(cs, start, d);
      ats := ats + [offset];
      offset := offset + 28 + |p.dexFiles[d].location|;
    }
  }

  /** The page boundary before the code, and the entry points of a boot image's trampolines. */
  method InitOatCode(p: Program, start: nat) returns (offset: nat, executable: nat, entries: seq<nat>)
    ensures offset == End(TextChunks(p), start) && executable == RoundUp(start, PAGE_SIZE)
    ensures |entries| == |TextChunks(p)| - 1
    ensures forall i :: 0 <= i < |entries| ==> entries[i] == Place(TextChunks(p), start, i + 1) + CodeDelta(p.isa)
  {
    hide Cursor, Place, RoundUp;
    ghost var cs := TextChunks(p);
    NextCursor(cs, start, 0);
    executable := RoundUp(start, PAGE_SIZE);
    offset, entries := executable, [];
    if p.bootImage {
      for i := 0 to |p.trampolines|
        invariant offset == Cursor(cs, start, i + 1) && |entries| == i
        invariant forall e :: 0 <= e < i ==> entries[e] == Place(cs, start, e + 1) + CodeDelta(p.isa)
      {
        NextCursor(cs, start, i + 1);
        offset := RoundUp(offset, CodeAlignment(p.isa));
        entries := entries + [offset + CodeDelta(p.isa)];
        offset := offset + |p.trampolines[i]|;
      }
    }
  }

  // ---------- writing ----------

  lemma NextItem(cs: seq<Chunk>, items: seq<seq<byte>>, before: seq<byte>, i: nat)
    requires i < |cs| == |items|
    ensures WriteItems(cs, items, before, 0) == before
    ensures var o := WriteItems(cs, items, before, i);
      && WriteItems(cs, items, before, i + 1) == o + Zeros(RoundUp(|o|, cs[i].align) - |o|) + items[i]
      && (cs[i].align == 1 ==> WriteItems(cs, items, before, i + 1) == o + items[i])
  {
    var o := WriteItems(cs, items, before, i);
    if cs[i].align == 1 {
      assert o + Zeros(RoundUp(|o|, cs[i].align) - |o|) == o;
    }
  }

  lemma NoItem(cs: seq<Chunk>, items: seq<seq<byte>>, before: seq<byte>)
    requires |cs| == |items|
    ensures WriteItems(cs, items, before, 0) == before
  {
  }

  method AppendWords(before: seq<byte>, ws: seq<nat>) returns (out: seq<byte>)
    ensures out == before + C.Words(ws)
  {
    out := before;
    for i := 0 to |ws|
      invariant out + C.Words(ws[i..]) == before + C.Words(ws)
    {
      hide Word;
      assert ws[i..][1..] == ws[i + 1..];
      assert out + (Word(ws[i]) + C.Words(ws[i + 1..])) == (out + Word(ws[i])) + C.Words(ws[i + 1..]);
      out := out + Word(ws[i]);
    }
    assert ws[|ws|..] == [];
  }

  method AppendEntries(before: seq<byte>, es: seq<B.Entry>) returns (out: seq<byte>)
    ensures out == before + EntryBytes(es)
  {
    out := before;
    for i := 0 to |es|
      invariant out + EntryBytes(es[i..]) == before + EntryBytes(es)
    {
      hide Word, Half;
      assert es[i..][1..] == es[i + 1..];
      var entry := Half(es[i].index) + Half(es[i].mask) + Word(es[i].slot);
      assert out + (entry + EntryBytes(es[i + 1..])) == (out + entry) + EntryBytes(es[i + 1..]);
      out := out + entry;
    }
    assert es[|es|..] == [];
  }

  /** A zero offset marks the dex files without classes. */
  method WriteClassOffsets(p: Program, ats: seq<nat>, perFile: seq<seq<nat>>, before: seq<byte>)
    returns (out: seq<byte>)
    requires |ats| == |perFile| == |p.dexFiles|
    requires forall d :: 0 <= d < |ats| ==> (ats[d] == 0 <==> p.dexFiles[d].classes == [])
    requires forall d :: 0 <= d < |ats| ==> |perFile[d]| == |p.dexFiles[d].classes|
    ensures out == WriteItems(ClassArrayChunks(p), seq(|perFile|, d requires 0 <= d < |perFile| => C.Words(perFile[d])),
      before, |p.dexFiles|)
  {
    hide WriteItems, RoundUp;
    ghost var cs, items := ClassArrayChunks(p), seq(|perFile|, d requires 0 <= d < |perFile| => C.Words(perFile[d]));
    NoItem(cs, items, before);
    out := before;
    for d := 0 to |p.dexFiles|
      invariant out == WriteItems(cs, items, before, d)
    {
      NextItem(cs, items, before, d);
      if ats[d] != 0 {
        out := out + Zeros(RoundUp(|out|, 4) - |out|);
        out := AppendWords(out, perFile[d]);
      }
    }
  }

  method WriteClasses(p: Program, oatClasses: seq<C.OatClass>, codeOffsets: seq<seq<nat>>, before: seq<byte>)
    returns (out: seq<byte>)
    requires |oatClasses| == |codeOffsets| == |p.Classes()|
    ensures out == WriteItems(ClassChunks(p), seq(|oatClasses|, c requires 0 <= c < |oatClasses| =>
      C.ClassBytes(p.Classes()[c].status, oatClasses[c], codeOffsets[c])), before, |p.Classes()|)
  {
    hide WriteItems, RoundUp, Word, C.HeaderBytes, C.BitmapBytes, C.Words, Concat, ClassChunks;
    ghost var cs, items := ClassChunks(p), seq(|oatClasses|, c requires 0 <= c < |oatClasses| =>
      C.ClassBytes(p.Classes()[c].status, oatClasses[c], codeOffsets[c]));
    NoItem(cs, items, before);
    out := before;
    for c := 0 to |oatClasses|
      invariant out == WriteItems(cs, items, before, c)
    {
      NextItem(cs, items, before, c);
      Unaligned(p, c);
      ghost var o := out;
      var record := oatClasses[c];
      out := out + C.HeaderBytes(p.Classes()[c].status, record.ty);
      if record.bitmapSize != 0 {
        out := out + Word(record.bitmapSize);
        out := out + C.BitmapBytes(record.bitmap, record.bitmapSize);
      }
      out := AppendWords(out, codeOffsets[c]);
      assert out == o + C.ClassBytes(p.Classes()[c].status, record, codeOffsets[c]);
    }
  }

  lemma Unaligned(p: Program, c: nat)
    requires c < |p.Classes()|
    ensures ClassChunks(p)[c].align == 1
  {
  }

  method WriteMethodBssMappings(p: Program, before: seq<byte>) returns (out: seq<byte>)
    requires p.Valid()
    ensures out == WriteItems(BssChunks(p), BssMappings(p), before, |p.dexFiles|)
  {
    hide WriteItems, RoundUp, Word, EntryBytes, B.Encode;
    ghost var cs, items := BssChunks(p), BssMappings(p);
    NoItem(cs, items, before);
    out := before;
    for d := 0 to |p.dexFiles|
      invariant out == WriteItems(cs, items, before, d)
    {
      NextItem(cs, items, before, d);
      ghost var o := out;
      var bss := p.dexFiles[d].bss;
      if bss != [] {
        var es := B.WriteEntries(bss, p.pointerSize);
        out := out + Word(|es|);
        out := AppendEntries(out, es);
        assert out == o + (Word(|es|) + EntryBytes(es));
      } else {
        assert o + [] == o;
      }
    }
  }

  method WriteOatDexFiles(p: Program, ghost l: Layout, classOffsetsAt: seq<nat>, bssMappingAt: seq<nat>,
                          before: seq<byte>)
    returns (out: seq<byte>)
    requires p.Valid() && |classOffsetsAt| == |bssMappingAt| == |p.dexFiles|
    requires forall d :: 0 <= d < |p.dexFiles| ==> classOffsetsAt[d] == ClassArrayOffset(p, l, d)
    requires forall d :: 0 <= d < |p.dexFiles| ==> bssMappingAt[d] == BssOffset(p, l, d)
    ensures out == WriteItems(RecordChunks(p), DexRecords(p, l), before, |p.dexFiles|)
  {
    hide WriteItems, RoundUp, Word, ClassArrayOffset, BssOffset;
    ghost var cs, items := RecordChunks(p), DexRecords(p, l);
    NoItem(cs, items, before);
    out := before;
    for d := 0 to |p.dexFiles|
      invariant out == WriteItems(cs, items, before, d)
    {
      NextItem(cs, items, before, d);
      ghost var o := out;
      var f := p.dexFiles[d];
      out := out + Word(|f.location|);
      out := out + f.location;
      out := out + Word(f.checksum);
      out := out + Word(f.dexOffset);
      out := out + Word(classOffsetsAt[d]);
      out := out + Word(f.lookupTable);
      out := out + Word(f.sectionsLayout);
      out := out + Word(bssMappingAt[d]);
      assert out == o + DexRecord(p, l, d);
    }
  }

  /** The trampolines of a boot image, once the padding in front of the code has been skipped. */
  method WriteTrampolines(p: Program, ghost before: seq<byte>, padded: seq<byte>) returns (out: seq<byte>)
    requires padded == before + Zeros(RoundUp(|before|, PAGE_SIZE) - |before|)
    ensures out == WriteItems(TextChunks(p), TextItems(p), before, |TextChunks(p)|)
  {
    hide WriteItems, RoundUp;
    ghost var cs, items := TextChunks(p), TextItems(p);
    NextItem(cs, items, before, 0);
    out := padded;
    if p.bootImage {
      for i := 0 to |p.trampolines|
        invariant out == WriteItems(cs, items, before, i + 1)
      {
        NextItem(cs, items, before, i + 1);
        out := out + Zeros(RoundUp(|out|, CodeAlignment(p.isa)) - |out|);
        out := out + p.trampolines[i];
      }
    }
  }
}
