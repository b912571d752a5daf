/**
 The quickening section of a vdex file: length-prefixed tables, then one pair (code item, table
 offset) per quickened method, then for each dex file the offset of its first pair.
 */
module Quickening {
  import opened Wrappers
  import opened Align
  import opened OatCode
  import opened OatFile
  import C = OatClasses

  // A method that was compiled dex-to-dex has no code and leaves its table in place of a vmap table.
  predicate IsQuickened(p: Program, r: Ref) {
    p.compiled(r).Some? && p.storage(p.Method(r).code) == [] && p.storage(p.Method(r).vmap) != []
  }

  // ---------- traversal order ----------

  function QuickUpTo(p: Program, c: DexClass, i: nat): (rs: seq<Ref>)
    requires i <= |p.Methods(c)|
  {
    if i == 0 then [] else QuickUpTo(p, c, i - 1) + if IsQuickened(p, p.Methods(c)[i - 1]) then [p.Methods(c)[i - 1]]
      else []
  }

  function FileUpTo(p: Program, f: DexFile, j: nat): (rs: seq<Ref>)
    requires j <= |f.classes|
  {
    if j == 0 then [] else FileUpTo(p, f, j - 1) + QuickUpTo(p, f.classes[j - 1], |p.Methods(f.classes[j - 1])|)
  }

  /** The quickened methods of one dex file. */
  function InFile(p: Program, d: nat): (rs: seq<Ref>)
    requires d < |p.dexFiles|
  {
    FileUpTo(p, p.dexFiles[d], |p.dexFiles[d].classes|)
  }

  function FilesUpTo(p: Program, d: nat): (rs: seq<Ref>)
    requires d <= |p.dexFiles|
  {
    if d == 0 then [] else FilesUpTo(p, d - 1) + InFile(p, d - 1)
  }

  function All(p: Program): (rs: seq<Ref>) { FilesUpTo(p, |p.dexFiles|) }

  // ---------- the section ----------

  // `order` lists the tables written so far.
  datatype Info = Info(order: seq<Ptr>, bytes: seq<byte>, offsets: map<Ptr, nat>)

  function Block(p: Program, t: Ptr): (b: seq<byte>)
    ensures |b| == 4 + |p.storage(t)|
  {
    Word(|p.storage(t)|) + p.storage(t)
  }

  function AddTable(p: Program, s: Info, t: Ptr): Info {
    if t in s.offsets then s else Info(s.order + [t], s.bytes + Block(p, t), s.offsets[t := |s.bytes|])
  }

  /** The tables of the given methods, and where each was put. */
  function Collect(p: Program, rs: seq<Ref>): Info {
    if rs == [] then Info([], [], map[]) else AddTable(p, Collect(p, rs[..|rs| - 1]), p.Method(rs[|rs| - 1]).vmap)
  }

  // `offsets` is total here; the writer looks up only tables it has written.
  function Pairs(p: Program, codeItem: Ref -> nat, offsets: map<Ptr, nat>, rs: seq<Ref>): (b: seq<byte>)
    ensures |b| == 8 * |rs|
  {
    if rs == [] then [] else
      Pairs(p, codeItem, offsets, rs[..|rs| - 1]) + PairOf(p, codeItem, offsets, rs[|rs| - 1])
  }

  function PairOf(p: Program, codeItem: Ref -> nat, offsets: map<Ptr, nat>, r: Ref): (b: seq<byte>)
    ensures |b| == 8
  {
    var t := p.Method(r).vmap;
    Word(codeItem(r)) + Word(if t in offsets then offsets[t] else 0)
  }

  function Starts(p: Program, infoSize: nat, n: nat): (os: seq<nat>)
    requires n <= |p.dexFiles|
    ensures |os| == n
  {
    seq<nat>(n, d requires 0 <= d < n => infoSize + 8 * |FilesUpTo(p, d)|)
  }

  function Section(p: Program, codeItem: Ref -> nat): seq<byte> {
    var s := Collect(p, All(p));
    s.bytes + Pairs(p, codeItem, s.offsets, All(p)) + C.Words(Starts(p, |s.bytes|, |p.dexFiles|))
  }

  // ---------- writing ----------

  // The quickened methods met before method `i` of class `j` of dex file `d`.
  ghost function Seen(p: Program, d: nat, j: nat, i: nat): (rs: seq<Ref>)
    requires d < |p.dexFiles| && j < |p.dexFiles[d].classes| && i <= |p.Methods(p.dexFiles[d].classes[j])|
  {
    SeenClasses(p, d, j) + QuickUpTo(p, p.dexFiles[d].classes[j], i)
  }

  ghost function SeenClasses(p: Program, d: nat, j: nat): (rs: seq<Ref>)
    requires d < |p.dexFiles| && j <= |p.dexFiles[d].classes|
  {
    FilesUpTo(p, d) + FileUpTo(p, p.dexFiles[d], j)
  }

  lemma NextMethod(p: Program, d: nat, j: nat, i: nat)
    requires d < |p.dexFiles| && j < |p.dexFiles[d].classes| && i < |p.Methods(p.dexFiles[d].classes[j])|
    ensures var r := p.Methods(p.dexFiles[d].classes[j])[i];
      Seen(p, d, j, i + 1) == if IsQuickened(p, r) then Seen(p, d, j, i) + [r] else Seen(p, d, j, i)
  {
    var c := p.dexFiles[d].classes[j];
    var r := p.Methods(c)[i];
    assert SeenClasses(p, d, j) + (QuickUpTo(p, c, i) + [r]) == Seen(p, d, j, i) + [r];
  }

  lemma NextClass(p: Program, d: nat, j: nat)
    requires d < |p.dexFiles| && j < |p.dexFiles[d].classes|
    ensures Seen(p, d, j, 0) == SeenClasses(p, d, j)
    ensures Seen(p, d, j, |p.Methods(p.dexFiles[d].classes[j])|) == SeenClasses(p, d, j + 1)
  {
    var f := p.dexFiles[d];
    var q := QuickUpTo(p, f.classes[j], |p.Methods(f.classes[j])|);
    assert FilesUpTo(p, d) + (FileUpTo(p, f, j) + q) == SeenClasses(p, d, j) + q;
  }

  lemma NextFile(p: Program, d: nat)
    requires d < |p.dexFiles|
    ensures SeenClasses(p, d, 0) == FilesUpTo(p, d)
    ensures SeenClasses(p, d, |p.dexFiles[d].classes|) == FilesUpTo(p, d + 1)
  {
  }

  ghost predicate Collected(p: Program, rs: seq<Ref>, before: seq<byte>, out: seq<byte>, written: nat, offsets: map<Ptr,
                            nat>) {
    var s := Collect(p, rs); out == before + s.bytes && written == |s.bytes| && offsets == s.offsets
  }

  // A table is written when its pointer is not in the map yet.
  method VisitTable(p: Program, r: Ref, ghost seen: seq<Ref>, ghost before: seq<byte>, out0: seq<byte>, written0: nat,
                    offsets0: map<Ptr, nat>)
    returns (out: seq<byte>, written: nat, offsets: map<Ptr, nat>)
    requires Collected(p, seen, before, out0, written0, offsets0)
    ensures Collected(p, seen + [r], before, out, written, offsets)
  {
    hide Collect, Word;
    CollectOne(p, seen, r);
    out, written, offsets := out0, written0, offsets0;
    var t := p.Method(r).vmap;
    if t !in offsets {
      offsets := offsets[t := written];
      out := out + Word(|p.storage(t)|);
      out := out + p.storage(t);
      assert out == before + (Collect(p, seen).bytes + Block(p, t));
      written := written + 4 + |p.storage(t)|;
    }
  }

  /** The first pass over all methods. */
  method WriteTables(p: Program, before: seq<byte>) returns (out: seq<byte>, written: nat, offsets: map<Ptr, nat>)
    ensures Collected(p, All(p), before, out, written, offsets)
  {
    out, written, offsets := before, 0, map[];
    assert Collected(p, [], before, out, written, offsets) by { assert before + [] == before; }
    hide Collected, Seen, SeenClasses, FilesUpTo, IsQuickened, p.Methods;
    assert FilesUpTo(p, 0) == [] by { NoFile(p); }
    for d := 0 to |p.dexFiles|
      invariant Collected(p, FilesUpTo(p, d), before, out, written, offsets)
    {
      NextFile(p, d);
      var classes := p.dexFiles[d].classes;
      for j := 0 to |classes|
        invariant Collected(p, SeenClasses(p, d, j), before, out, written, offsets)
      {
        NextClass(p, d, j);
        var ms := p.Methods(classes[j]);
        for i := 0 to |ms|
          invariant Collected(p, Seen(p, d, j, i), before, out, written, offsets)
        {
          NextMethod(p, d, j, i);
          if IsQuickened(p, ms[i]) {
            out, written, offsets := VisitTable(p, ms[i], Seen(p, d, j, i), before, out, written, offsets);
          }
        }
      }
    }
  }

  lemma NoFile(p: Program)
    ensures FilesUpTo(p, 0) == []
  {
  }

  lemma CollectOne(p: Program, rs: seq<Ref>, r: Ref)
    ensures Collect(p, rs + [r]) == AddTable(p, Collect(p, rs), p.Method(r).vmap)
  {
    assert (rs + [r])[..|rs|] == rs;
  }

  lemma OnePair(p: Program, codeItem: Ref -> nat, offsets: map<Ptr, nat>, rs: seq<Ref>, r: Ref)
    ensures Pairs(p, codeItem, offsets, rs + [r]) == Pairs(p, codeItem, offsets, rs) + PairOf(p, codeItem, offsets, r)
  {
    assert (rs + [r])[..|rs|] == rs;
  }

  ghost predicate Paired(p: Program, codeItem: Ref -> nat, offsets: map<Ptr, nat>, rs: seq<Ref>, before: seq<byte>,
                         out: seq<byte>, written: nat) {
    out == before + Pairs(p, codeItem, offsets, rs) && written == 8 * |rs|
  }

  method VisitIndex(p: Program, codeItem: Ref -> nat, r: Ref, offsets: map<Ptr, nat>, ghost seen: seq<Ref>,
                    ghost before: seq<byte>,
                    out0: seq<byte>, written0: nat)
    returns (out: seq<byte>, written: nat)
    requires Paired(p, codeItem, offsets, seen, before, out0, written0) && p.Method(r).vmap in offsets
    ensures Paired(p, codeItem, offsets, seen + [r], before, out, written)
  {
    hide Pairs, Word;
    OnePair(p, codeItem, offsets, seen, r);
    out := out0 + Word(codeItem(r));
    out := out + Word(offsets[p.Method(r).vmap]);
    assert out == before + (Pairs(p, codeItem, offsets, seen) + PairOf(p, codeItem, offsets, r));
    written := written0 + 8;
  }

  method WriteFileIndices(p: Program, codeItem: Ref -> nat, d: nat, offsets: map<Ptr, nat>, ghost before: seq<byte>,
                          out0: seq<byte>, written0: nat)
    returns (out: seq<byte>, written: nat)
    requires d < |p.dexFiles| && AllMapped(p, offsets)
    requires Paired(p, codeItem, offsets, FilesUpTo(p, d), before, out0, written0)
    ensures Paired(p, codeItem, offsets, FilesUpTo(p, d + 1), before, out, written)
  {
    hide Paired, Seen, SeenClasses, FilesUpTo, IsQuickened, p.Methods, p.Method, AllMapped;
    NextFile(p, d);
    out, written := out0, written0;
    var classes := p.dexFiles[d].classes;
    for j := 0 to |classes|
      invariant Paired(p, codeItem, offsets, SeenClasses(p, d, j), before, out, written)
    {
      NextClass(p, d, j);
      var ms := p.Methods(classes[j]);
      for i := 0 to |ms|
        invariant Paired(p, codeItem, offsets, Seen(p, d, j, i), before, out, written)
      {
        NextMethod(p, d, j, i);
        if IsQuickened(p, ms[i]) {
          IsMapped(p, offsets, d, j, i);
          out, written := VisitIndex(p, codeItem, ms[i], offsets, Seen(p, d, j, i), before, out, written);
        }
      }
    }
  }

  /** The second pass: a pair for every quickened method, and where the pairs of each dex file start. */
  method WriteIndices(p: Program, codeItem: Ref -> nat, before: seq<byte>, infoSize: nat, offsets: map<Ptr, nat>)
    returns (out: seq<byte>, starts: seq<nat>)
    requires AllMapped(p, offsets)
    ensures out == before + Pairs(p, codeItem, offsets, All(p)) && starts == Starts(p, infoSize, |p.dexFiles|)
  {
    out, starts := before, [];
    var written := 0;
    assert FilesUpTo(p, 0) == [];
    assert Paired(p, codeItem, offsets, [], before, out, written) by { assert before + [] == before; }
    hide Paired, FilesUpTo, Starts, AllMapped, Pairs;
    assert Starts(p, infoSize, 0) == [];
    for d := 0 to |p.dexFiles|
      invariant starts == Starts(p, infoSize, d)
      invariant Paired(p, codeItem, offsets, FilesUpTo(p, d), before, out, written)
    {
      NextStart(p, infoSize, d);
      WrittenSoFar(p, codeItem, offsets, FilesUpTo(p, d), before, out, written);
      starts := starts + [infoSize + written];
      out, written := WriteFileIndices(p, codeItem, d, offsets, before, out, written);
    }
    WrittenSoFar(p, codeItem, offsets, All(p), before, out, written);
  }

  // Every quickened method has its table in the map.
  ghost predicate AllMapped(p: Program, offsets: map<Ptr, nat>) {
    forall r :: r in All(p) ==> p.Method(r).vmap in offsets
  }

  lemma IsMapped(p: Program, offsets: map<Ptr, nat>, d: nat, j: nat, i: nat)
    requires AllMapped(p, offsets) && d < |p.dexFiles| && j < |p.dexFiles[d].classes|
    requires var c := p.dexFiles[d].classes[j]; i < |p.Methods(c)| && IsQuickened(p, p.Methods(c)[i])
    ensures p.Method(p.Methods(p.dexFiles[d].classes[j])[i]).vmap in offsets
  {
    hide FilesUpTo, IsQuickened;
    InAll(p, d, j, i);
  }

  lemma NextStart(p: Program, infoSize: nat, d: nat)
    requires d < |p.dexFiles|
    ensures Starts(p, infoSize, d + 1) == Starts(p, infoSize, d) + [infoSize + 8 * |FilesUpTo(p, d)|]
  {
  }

  lemma WrittenSoFar(p: Program, codeItem: Ref -> nat, offsets: map<Ptr, nat>, rs: seq<Ref>, before: seq<byte>,
                     out: seq<byte>, written: nat)
    requires Paired(p, codeItem, offsets, rs, before, out, written)
    ensures out == before + Pairs(p, codeItem, offsets, rs) && written == 8 * |rs|
  {
  }

  lemma {:induction false} InQuickUpTo(p: Program, c: DexClass, i: nat, n: nat)
    requires i < n <= |p.Methods(c)| && IsQuickened(p, p.Methods(c)[i])
    ensures p.Methods(c)[i] in QuickUpTo(p, c, n)
    decreases n
  {
    if i < n - 1 { InQuickUpTo(p, c, i, n - 1); }
  }

  lemma {:induction false} InFileUpTo(p: Program, f: DexFile, j: nat, r: Ref, n: nat)
    requires j < n <= |f.classes| && r in QuickUpTo(p, f.classes[j], |p.Methods(f.classes[j])|)
    ensures r in FileUpTo(p, f, n)
    decreases n
  {
    if j < n - 1 { InFileUpTo(p, f, j, r, n - 1); }
  }

  lemma {:induction false} InFilesUpTo(p: Program, d: nat, r: Ref, n: nat)
    requires d < n <= |p.dexFiles| && r in InFile(p, d)
    ensures r in FilesUpTo(p, n)
    decreases n
  {
    if d < n - 1 { InFilesUpTo(p, d, r, n - 1); }
  }

  lemma InAll(p: Program, d: nat, j: nat, i: nat)
    requires d < |p.dexFiles| && j < |p.dexFiles[d].classes|
    requires var c := p.dexFiles[d].classes[j]; i < |p.Methods(c)| && IsQuickened(p, p.Methods(c)[i])
    ensures p.Methods(p.dexFiles[d].classes[j])[i] in All(p)
  {
    var f := p.dexFiles[d];
    var c := f.classes[j];
    InQuickUpTo(p, c, i, |p.Methods(c)|);
    InFileUpTo(p, f, j, p.Methods(c)[i], |f.classes|);
    InFilesUpTo(p, d, p.Methods(c)[i], |p.dexFiles|);
  }

  /** Appends the aligned section and reports where it starts and how long the file has become. */
  method WriteQuickeningInfo(p: Program, codeItem: Ref -> nat, vdex: seq<byte>)
    returns (out: seq<byte>, at: nat, vdexSize: nat)
    ensures at == RoundUp(|vdex|, 4) && vdexSize == |out|
    ensures out == vdex + Zeros(at - |vdex|) + if p.anyCompilation then Section(p, codeItem) else []
  {
    hide Pairs, Collect, All, FilesUpTo, RoundUp, C.Words;
    at := RoundUp(|vdex|, 4);
    vdexSize := at;
    out := vdex + Zeros(at - |vdex|);
    if p.anyCompilation {
      ghost var front := out;
      var infoSize, offsets, starts;
      out, infoSize, offsets := WriteTables(p, out);
      TablesMapped(p);
      var beforePairs := |out|;
      out, starts := WriteIndices(p, codeItem, out, infoSize, offsets);
      var size := infoSize + (|out| - beforePairs) + 4 * |p.dexFiles|;
      out := out + C.Words(starts);
      assert out == front + Section(p, codeItem);
      vdexSize := vdexSize + size;
    }
  }

  // ---------- what the tables look like ----------

  function Total(p: Program, ts: seq<Ptr>): nat {
    if ts == [] then 0 else Total(p, ts[..|ts| - 1]) + |Block(p, ts[|ts| - 1])|
  }

  ghost function TablesOf(p: Program, rs: seq<Ref>): set<Ptr> {
    set r | r in rs :: p.Method(r).vmap
  }

  ghost predicate Listed(p: Program, s: Info) {
    && (forall t :: t in s.order <==> t in s.offsets)
    && (forall a, b :: 0 <= a < b < |s.order| ==> s.order[a] != s.order[b])
    && |s.bytes| == Total(p, s.order)
  }

  ghost predicate Located(p: Program, s: Info) {
    forall t :: t in s.offsets ==> Holds(s.bytes, s.offsets[t], Block(p, t))
  }

  ghost predicate CollectOk(p: Program, rs: seq<Ref>, s: Info) {
    s.offsets.Keys == TablesOf(p, rs) && Listed(p, s) && Located(p, s)
  }

  lemma AddListed(p: Program, s: Info, t: Ptr)
    requires Listed(p, s) && t !in s.offsets
    ensures Listed(p, AddTable(p, s, t))
  {
    hide Block;
    assert (s.order + [t])[..|s.order|] == s.order;
  }

  lemma AddLocated(p: Program, s: Info, t: Ptr)
    requires Located(p, s) && t !in s.offsets
    ensures Located(p, AddTable(p, s, t))
  {
    hide Block, Holds;
    var n := AddTable(p, s, t);
    HoldsAtEnd(s.bytes, Block(p, t));
    forall u | u in n.offsets
      ensures Holds(n.bytes, n.offsets[u], Block(p, u))
    {
      if u != t {
        HoldsPersists(s.bytes, n.bytes, s.offsets[u], Block(p, u));
      }
    }
  }

  lemma AddTableOk(p: Program, rs: seq<Ref>, s: Info, r: Ref)
    requires CollectOk(p, rs, s)
    ensures CollectOk(p, rs + [r], AddTable(p, s, p.Method(r).vmap))
  {
    hide Listed, Located, Block;
    var t := p.Method(r).vmap;
    assert TablesOf(p, rs + [r]) == TablesOf(p, rs) + {t} by {
      assert forall q :: q in rs + [r] <==> q in rs || q == r;
    }
    if t !in s.offsets {
      AddListed(p, s, t);
      AddLocated(p, s, t);
    }
  }

  lemma NothingCollected(p: Program)
    ensures CollectOk(p, [], Collect(p, []))
  {
  }

  /** Each distinct table is written exactly once, length first, at the offset kept for it. */
  lemma {:induction false} TablesWrittenOnce(p: Program, rs: seq<Ref>)
    ensures CollectOk(p, rs, Collect(p, rs))
  {
    hide CollectOk, AddTable, Block;
    if rs == [] {
      NothingCollected(p);
    } else {
      var front, r := rs[..|rs| - 1], rs[|rs| - 1];
      assert rs == front + [r];
      TablesWrittenOnce(p, front);
      AddTableOk(p, front, Collect(p, front), r);
    }
  }

  lemma TablesMapped(p: Program)
    ensures AllMapped(p, Collect(p, All(p)).offsets)
  {
    hide Collect, FilesUpTo, Listed, Located;
    TablesWrittenOnce(p, All(p));
  }

  // ---------- reading back ----------

  datatype Quickened = Quickened(codeItem: nat, info: seq<byte>)

  // The bytes behind a length word.
  function ReadInfo(q: seq<byte>, at: nat): Option<seq<byte>> {
    if at + 4 > |q| then None else
      var n := ReadWord(q, at);
      if at + 4 + n > |q| then None else Some(q[at + 4..at + 4 + n])
  }

  function ReadPairs(q: seq<byte>, at: nat, end: nat): Option<seq<Quickened>>
    decreases if at <= end then end - at else 0
  {
    if at == end then Some([])
    else if at > end || at + 8 > |q| then None
    else
      var info, rest := ReadInfo(q, ReadWord(q, at + 4)), ReadPairs(q, at + 8, end);
      if info.Some? && rest.Some? then Some([Quickened(ReadWord(q, at), info.value)] + rest.value) else None
  }

  /** The runtime's iteration over the quickened methods of dex file `d`. */
  function IterateFile(q: seq<byte>, files: nat, d: nat): Option<seq<Quickened>>
    requires d < files
  {
    if 4 * files > |q| then None else
      var index := |q| - 4 * files;
      var end := if d == files - 1 then index else ReadWord(q, index + 4 * (d + 1));
      ReadPairs(q, ReadWord(q, index + 4 * d), end)
  }

  function Expected(p: Program, codeItem: Ref -> nat, rs: seq<Ref>): (es: seq<Quickened>)
    ensures |es| == |rs|
  {
    seq(|rs|, k requires 0 <= k < |rs| => Quickened(codeItem(rs[k]), p.storage(p.Method(rs[k]).vmap)))
  }

  // A pair and the table it names, wherever they ended up.
  ghost predicate PairHeld(p: Program, codeItem: Ref -> nat, offsets: map<Ptr, nat>, q: seq<byte>, at: nat, r: Ref) {
    var t := p.Method(r).vmap;
    && t in offsets && offsets[t] < U32 && codeItem(r) < U32 && |p.storage(t)| < U32
    && Holds(q, at, PairOf(p, codeItem, offsets, r))
    && Holds(q, offsets[t], Block(p, t))
  }

  lemma ReadOne(p: Program, codeItem: Ref -> nat, offsets: map<Ptr, nat>, q: seq<byte>, at: nat, r: Ref)
    requires PairHeld(p, codeItem, offsets, q, at, r)
    ensures at + 8 <= |q| && ReadWord(q, at) == codeItem(r)
    ensures ReadInfo(q, ReadWord(q, at + 4)) == Some(p.storage(p.Method(r).vmap))
  {
    hide Word, ReadWord;
    var t := p.Method(r).vmap;
    HoldsTwo(q, at, Word(codeItem(r)), Word(offsets[t]));
    HeldWord(q, at, codeItem(r));
    HeldWord(q, at + 4, offsets[t]);
    HoldsTwo(q, offsets[t], Word(|p.storage(t)|), p.storage(t));
    HeldWord(q, offsets[t], |p.storage(t)|);
    var from := offsets[t] + 4;
    assert q[from..from + |p.storage(t)|] == p.storage(t);
  }

  lemma ExpectedFrom(p: Program, codeItem: Ref -> nat, rs: seq<Ref>, k: nat)
    requires k < |rs|
    ensures var es := Expected(p, codeItem, rs);
      es[k..] == [Quickened(codeItem(rs[k]), p.storage(p.Method(rs[k]).vmap))] + es[k + 1..]
  {
  }

  lemma {:induction false} ReadFrom(p: Program, codeItem: Ref -> nat, offsets: map<Ptr, nat>, q: seq<byte>, base: nat,
                                    rs: seq<Ref>, k: nat)
    requires k <= |rs| && forall i :: 0 <= i < |rs| ==> PairHeld(p, codeItem, offsets, q, base + 8 * i, rs[i])
    ensures ReadPairs(q, base + 8 * k, base + 8 * |rs|) == Some(Expected(p, codeItem, rs)[k..])
    decreases |rs| - k
  {
    hide PairHeld, ReadWord, ReadInfo, Expected;
    if k < |rs| {
      ReadFrom(p, codeItem, offsets, q, base, rs, k + 1);
      ReadOne(p, codeItem, offsets, q, base + 8 * k, rs[k]);
      ExpectedFrom(p, codeItem, rs, k);
    }
  }

  lemma {:induction false} PairAt(p: Program, codeItem: Ref -> nat, offsets: map<Ptr, nat>, rs: seq<Ref>, i: nat)
    requires i < |rs|
    ensures Holds(Pairs(p, codeItem, offsets, rs), 8 * i, PairOf(p, codeItem, offsets, rs[i]))
    decreases |rs|
  {
    hide PairOf, Holds;
    var front := Pairs(p, codeItem, offsets, rs[..|rs| - 1]);
    if i < |rs| - 1 {
      PairAt(p, codeItem, offsets, rs[..|rs| - 1], i);
      HoldsPersists(front, Pairs(p, codeItem, offsets, rs), 8 * i, PairOf(p, codeItem, offsets, rs[i]));
    } else {
      HoldsAtEnd(front, PairOf(p, codeItem, offsets, rs[i]));
    }
  }

  // The parts of the section.
  lemma SectionParts(p: Program, codeItem: Ref -> nat)
    ensures var q, s := Section(p, codeItem), Collect(p, All(p));
      && |q| == |s.bytes| + 8 * |All(p)| + 4 * |p.dexFiles|
      && s.bytes <= q
      && Holds(q, |s.bytes|, Pairs(p, codeItem, s.offsets, All(p)))
      && Holds(q, |q| - 4 * |p.dexFiles|, C.Words(Starts(p, |s.bytes|, |p.dexFiles|)))
  {
    hide Collect, All, FilesUpTo, Pairs, C.Words, Starts, Word;
    var s := Collect(p, All(p));
    HoldsPart(Section(p, codeItem), 0, s.bytes, Pairs(p, codeItem, s.offsets, All(p)),
      C.Words(Starts(p, |s.bytes|, |p.dexFiles|)));
  }

  lemma AllPairsHeld(p: Program, codeItem: Ref -> nat, i: nat)
    requires i < |All(p)| && |Section(p, codeItem)| < U32 && codeItem(All(p)[i]) < U32
    ensures var s := Collect(p, All(p));
      PairHeld(p, codeItem, s.offsets, Section(p, codeItem), |s.bytes| + 8 * i, All(p)[i])
  {
    hide Collect, All, FilesUpTo, Pairs, PairOf, Block, Holds, C.Words, Starts, Section, Listed;
    var s, q, r := Collect(p, All(p)), Section(p, codeItem), All(p)[i];
    SectionParts(p, codeItem);
    TablesWrittenOnce(p, All(p));
    PairAt(p, codeItem, s.offsets, All(p), i);
    HoldsInside(q, |s.bytes|, Pairs(p, codeItem, s.offsets, All(p)), 8 * i, PairOf(p, codeItem, s.offsets, r));
    var t := p.Method(r).vmap;
    HoldsPersists(s.bytes, q, s.offsets[t], Block(p, t));
    HoldsFits(q, s.offsets[t], Block(p, t));
  }

  lemma {:induction false} FilesGrow(p: Program, d: nat, n: nat)
    requires d <= n <= |p.dexFiles|
    ensures FilesUpTo(p, d) <= FilesUpTo(p, n)
    decreases n - d
  {
    hide InFile;
    if d < n { FilesGrow(p, d, n - 1); }
  }

  lemma FileInAll(p: Program, d: nat)
    requires d < |p.dexFiles|
    ensures var n := |FilesUpTo(p, d)|;
      && |FilesUpTo(p, d + 1)| == n + |InFile(p, d)| <= |All(p)|
      && forall k :: 0 <= k < |InFile(p, d)| ==> All(p)[n + k] == InFile(p, d)[k]
  {
    hide InFile;
    FilesGrow(p, d + 1, |p.dexFiles|);
    var n := |FilesUpTo(p, d)|;
    forall k | 0 <= k < |InFile(p, d)|
      ensures All(p)[n + k] == InFile(p, d)[k]
    {
      assert FilesUpTo(p, d + 1)[n + k] == InFile(p, d)[k];
    }
  }

  // The index at the end of the section gives the first and the last pair of a dex file.
  lemma FileBounds(p: Program, codeItem: Ref -> nat, d: nat)
    requires d < |p.dexFiles| && |Section(p, codeItem)| < U32
    ensures var q, s := Section(p, codeItem), Collect(p, All(p));
      IterateFile(q, |p.dexFiles|, d) ==
        ReadPairs(q, |s.bytes| + 8 * |FilesUpTo(p, d)|, |s.bytes| + 8 * |FilesUpTo(p, d + 1)|)
  {
    hide Collect, FilesUpTo, Pairs, C.Words, Section, ReadPairs, ReadWord, Holds;
    var s, q, files := Collect(p, All(p)), Section(p, codeItem), |p.dexFiles|;
    SectionParts(p, codeItem);
    StartsFit(p, codeItem);
    assert Starts(p, |s.bytes|, files)[d] in Starts(p, |s.bytes|, files);
    C.WordsReadBack(q, |q| - 4 * files, Starts(p, |s.bytes|, files), d);
    if d < files - 1 {
      assert Starts(p, |s.bytes|, files)[d + 1] in Starts(p, |s.bytes|, files);
      C.WordsReadBack(q, |q| - 4 * files, Starts(p, |s.bytes|, files), d + 1);
    }
  }

  lemma StartsFit(p: Program, codeItem: Ref -> nat)
    requires |Section(p, codeItem)| < U32
    ensures forall o :: o in Starts(p, |Collect(p, All(p)).bytes|, |p.dexFiles|) ==> o < U32
  {
    hide Collect, Pairs, C.Words, Section, Holds;
    SectionParts(p, codeItem);
    forall d | 0 <= d < |p.dexFiles|
      ensures |FilesUpTo(p, d)| <= |All(p)|
    {
      FilesGrow(p, d, |p.dexFiles|);
    }
  }

  /**
   For every dex file, the runtime's iteration over the section yields exactly the quickened methods
   of that file, in order, each with its own quickening table.
   */
  lemma QuickeningReadsBack(p: Program, codeItem: Ref -> nat, d: nat)
    requires d < |p.dexFiles| && |Section(p, codeItem)| < U32
    requires forall r :: r in All(p) ==> codeItem(r) < U32
    ensures IterateFile(Section(p, codeItem), |p.dexFiles|, d) == Some(Expected(p, codeItem, InFile(p, d)))
  {
    hide Collect, FilesUpTo, InFile, Section, ReadPairs, IterateFile, PairHeld;
    var s, q, rs := Collect(p, All(p)), Section(p, codeItem), InFile(p, d);
    var base := |s.bytes| + 8 * |FilesUpTo(p, d)|;
    FileBounds(p, codeItem, d);
    FileInAll(p, d);
    forall i | 0 <= i < |rs|
      ensures PairHeld(p, codeItem, s.offsets, q, base + 8 * i, rs[i])
    {
      AllPairsHeld(p, codeItem, |FilesUpTo(p, d)| + i);
    }
    ReadFrom(p, codeItem, s.offsets, q, base, rs, 0);
  }

  // ---------- which methods these are ----------

  // A method of dex file `d` that was compiled dex-to-dex: no code, but a table.
  ghost predicate DexToDex(p: Program, d: nat, r: Ref)
    requires d < |p.dexFiles|
  {
    && p.anyCompilation
    && (exists j, i :: 0 <= j < |p.dexFiles[d].classes| && 0 <= i < |p.dexFiles[d].classes[j].methods|
          && p.dexFiles[d].classes[j].methods[i] == r)
    && p.compiled(r).Some? && p.storage(p.compiled(r).value.code) == [] && p.storage(p.compiled(r).value.vmap) != []
  }

  lemma {:induction false} OnlyQuickUpTo(p: Program, c: DexClass, n: nat, r: Ref)
    requires n <= |p.Methods(c)| && r in QuickUpTo(p, c, n)
    ensures p.anyCompilation && r in c.methods && IsQuickened(p, r)
  {
    if r in QuickUpTo(p, c, n - 1) { OnlyQuickUpTo(p, c, n - 1, r); }
  }

  lemma {:induction false} OnlyFileUpTo(p: Program, f: DexFile, n: nat, r: Ref)
    requires n <= |f.classes| && r in FileUpTo(p, f, n)
    ensures p.anyCompilation && IsQuickened(p, r)
    ensures exists j, i :: 0 <= j < |f.classes| && 0 <= i < |f.classes[j].methods| && f.classes[j].methods[i] == r
  {
    hide IsQuickened;
    if r in FileUpTo(p, f, n - 1) {
      OnlyFileUpTo(p, f, n - 1, r);
    } else {
      var c := f.classes[n - 1];
      OnlyQuickUpTo(p, c, |p.Methods(c)|, r);
      var i :| 0 <= i < |c.methods| && c.methods[i] == r;
      assert f.classes[n - 1].methods[i] == r;
    }
  }

  lemma QuickenedExactly(p: Program, d: nat, r: Ref)
    requires d < |p.dexFiles|
    ensures r in InFile(p, d) <==> DexToDex(p, d, r)
  {
    var f := p.dexFiles[d];
    if r in InFile(p, d) {
      OnlyFileUpTo(p, f, |f.classes|, r);
    }
    if DexToDex(p, d, r) {
      var j, i :| 0 <= j < |f.classes| && 0 <= i < |f.classes[j].methods| && f.classes[j].methods[i] == r;
      var c := f.classes[j];
      InQuickUpTo(p, c, i, |p.Methods(c)|);
      InFileUpTo(p, f, j, r, |f.classes|);
    }
  }

  // The entry the runtime is to see for `r`: its code item and its own table.
  ghost predicate EntryFor(p: Program, codeItem: Ref -> nat, d: nat, r: Ref, e: Quickened)
    requires d < |p.dexFiles|
  {
    DexToDex(p, d, r) && e == Quickened(codeItem(r), p.storage(p.compiled(r).value.vmap))
  }

  lemma EntryIs(p: Program, codeItem: Ref -> nat, d: nat, r: Ref)
    requires d < |p.dexFiles| && DexToDex(p, d, r)
    ensures EntryFor(p, codeItem, d, r, Quickened(codeItem(r), p.storage(p.Method(r).vmap)))
  {
  }

  /**
   The runtime's iteration over a dex file yields an entry for every method of the file that was
   compiled dex-to-dex, with its code item and its own table, and for nothing else.
   */
  lemma EveryQuickenedIsFound(p: Program, codeItem: Ref -> nat, d: nat)
    requires d < |p.dexFiles| && |Section(p, codeItem)| < U32
    requires forall r :: r in All(p) ==> codeItem(r) < U32
    ensures var found := IterateFile(Section(p, codeItem), |p.dexFiles|, d);
      && found.Some?
      && (forall r :: DexToDex(p, d, r) ==> exists e :: e in found.value && EntryFor(p, codeItem, d, r, e))
      && (forall e :: e in found.value ==> exists r :: EntryFor(p, codeItem, d, r, e))
  {
    hide IterateFile, Section, InFile, DexToDex, EntryFor;
    QuickeningReadsBack(p, codeItem, d);
    var rs := InFile(p, d);
    var es := Expected(p, codeItem, rs);
    forall r | DexToDex(p, d, r)
      ensures exists e :: e in es && EntryFor(p, codeItem, d, r, e)
    {
      QuickenedExactly(p, d, r);
      EntryIs(p, codeItem, d, r);
      var k :| 0 <= k < |rs| && rs[k] == r;
      assert es[k] in es;
    }
    forall e | e in es
      ensures exists r :: EntryFor(p, codeItem, d, r, e)
    {
      var k :| 0 <= k < |es| && es[k] == e;
      QuickenedExactly(p, d, rs[k]);
      EntryIs(p, codeItem, d, rs[k]);
    }
  }
}
