/**
 How the runtime reads what the ELF builder prepared for it: the dynamic section, the symbols behind the
 hash section, and the bounds of an oat file that it takes from them.
 */
module ElfLoader {
  import opened Align
  import opened Wrappers
  import opened ElfSections
  import opened ElfDynamic
  import opened ElfSymbols

  // ---------- cells of the file's class ----------

  function CellSize(wide: bool): pos { if wide then 8 else 4 }

  // Addresses are 32-bit words in files of both classes.
  function Cell(wide: bool, v: nat): (b: seq<byte>)
    ensures |b| == CellSize(wide)
  {
    Word(v) + if wide then Word(0) else []
  }

  function ReadCell(s: seq<byte>, at: nat, wide: bool): nat
    requires at + CellSize(wide) <= |s|
  {
    ReadWord(s, at) + if wide then U32 * ReadWord(s, at + 4) else 0
  }

  lemma CellReadsBack(s: seq<byte>, at: nat, wide: bool, v: nat)
    requires Holds(s, at, Cell(wide, v)) && v < U32
    ensures at + CellSize(wide) <= |s| && ReadCell(s, at, wide) == v
  {
    HoldsTwo(s, at, Word(v), if wide then Word(0) else []);
    hide Word, ReadWord, Holds;
    HeldWord(s, at, v);
    if wide { HeldWord(s, at + 4, 0); }
  }

  // ---------- the dynamic section ----------

  const DT_NULL: nat := 0
  const DT_HASH: nat := 4
  const DT_STRTAB: nat := 5
  const DT_SYMTAB: nat := 6
  const DT_STRSZ: nat := 10
  const DT_SYMENT: nat := 11
  const DT_SONAME: nat := 14

  datatype Dyn = Dyn(tag: nat, value: nat)

  function Dyns(p: Params, r: Predicted, sonameAt: nat): seq<Dyn> {
    [Dyn(DT_HASH, r.hash), Dyn(DT_STRTAB, r.dynstr), Dyn(DT_SYMTAB, r.dynsym), Dyn(DT_SYMENT, SymSize(p)),
     Dyn(DT_STRSZ, DynstrSize(p)), Dyn(DT_SONAME, sonameAt), Dyn(DT_NULL, 0)]
  }

  function DynBytes(wide: bool, ds: seq<Dyn>, n: nat): (b: seq<byte>)
    requires n <= |ds|
    ensures |b| == n * (2 * CellSize(wide))
  {
    if n == 0 then [] else DynBytes(wide, ds, n - 1) + (Cell(wide, ds[n - 1].tag) + Cell(wide, ds[n - 1].value))
  }

  lemma {:induction false} DynHeld(s: seq<byte>, wide: bool, ds: seq<Dyn>, n: nat, i: nat)
    requires i < n <= |ds| && Holds(s, 0, DynBytes(wide, ds, n))
    ensures Holds(s, i * (2 * CellSize(wide)), Cell(wide, ds[i].tag))
    ensures Holds(s, i * (2 * CellSize(wide)) + CellSize(wide), Cell(wide, ds[i].value))
    decreases n
  {
    hide Cell, Holds;
    var tag, value := Cell(wide, ds[n - 1].tag), Cell(wide, ds[n - 1].value);
    HoldsTwo(s, 0, DynBytes(wide, ds, n - 1), tag + value);
    if i < n - 1 {
      DynHeld(s, wide, ds, n - 1, i);
    } else {
      HoldsTwo(s, i * (2 * CellSize(wide)), tag, value);
    }
  }

  // The value of the last of the first `n` entries with a tag, or null.
  function LastValue(ds: seq<Dyn>, tag: nat, n: nat): nat
    requires n <= |ds|
  {
    if n == 0 then 0 else if ds[n - 1].tag == tag then ds[n - 1].value else LastValue(ds, tag, n - 1)
  }

  datatype Starts = Starts(hash: nat, dynstr: nat, dynsym: nat)

  /** The number of entries follows from the size of the section; only the last may be the null entry. */
  method LoadDynamic(s: seq<byte>, wide: bool, ghost ds: seq<Dyn>) returns (ok: bool, r: Starts)
    requires s == DynBytes(wide, ds, |ds|) && forall d :: d in ds ==> d.tag < U32 && d.value < U32
    ensures ok <==> forall i :: 0 <= i < |ds| - 1 ==> ds[i].tag != DT_NULL
    ensures ok ==>
      r == Starts(LastValue(ds, DT_HASH, |ds|), LastValue(ds, DT_STRTAB, |ds|), LastValue(ds, DT_SYMTAB, |ds|))
  {
    ok, r := true, Starts(0, 0, 0);
    var size := 2 * CellSize(wide);
    var num := |s| / size;
    Count(|ds|, wide);
    for i := 0 to num
      invariant forall k :: 0 <= k < i && k < |ds| - 1 ==> ds[k].tag != DT_NULL
      invariant r == Starts(LastValue(ds, DT_HASH, i), LastValue(ds, DT_STRTAB, i), LastValue(ds, DT_SYMTAB, i))
    {
      ghost var d := ds[i];
      EntryReadsBack(s, wide, ds, i);
      hide ReadCell, DynBytes;
      var tag, value := ReadCell(s, i * size, wide), ReadCell(s, i * size + CellSize(wide), wide);
      if tag == DT_HASH {
        r := r.(hash := value);
      } else if tag == DT_STRTAB {
        r := r.(dynstr := value);
      } else if tag == DT_SYMTAB {
        r := r.(dynsym := value);
      } else if tag == DT_NULL && num != i + 1 {
        return false, r;
      }
    }
  }

  lemma Count(n: nat, wide: bool)
    ensures n * (2 * CellSize(wide)) / (2 * CellSize(wide)) == n
  {
    if wide { assert n * 16 / 16 == n; } else { assert n * 8 / 8 == n; }
  }

  lemma EntryReadsBack(s: seq<byte>, wide: bool, ds: seq<Dyn>, i: nat)
    requires s == DynBytes(wide, ds, |ds|) && i < |ds| && ds[i].tag < U32 && ds[i].value < U32
    ensures var at := i * (2 * CellSize(wide));
      && at + CellSize(wide) + CellSize(wide) <= |s|
      && ReadCell(s, at, wide) == ds[i].tag && ReadCell(s, at + CellSize(wide), wide) == ds[i].value
  {
    assert Holds(s, 0, s);
    hide DynBytes, Cell, ReadCell, Holds, CellSize;
    DynHeld(s, wide, ds, |ds|, i);
    CellReadsBack(s, i * (2 * CellSize(wide)), wide, ds[i].tag);
    CellReadsBack(s, i * (2 * CellSize(wide)) + CellSize(wide), wide, ds[i].value);
  }

  /**
   The dynamic section has the size that its address range relies on, is accepted, and leads to the
   hash, string and symbol sections as they are written.
   */
  lemma DynamicIsRight(p: Params, sonameAt: nat)
    requires p.Valid()
    ensures DynstrAt(p) + 4 <= |Specs(p)|
    ensures var ds := Dyns(p, Announced(p), sonameAt);
      && |DynBytes(p.wide, ds, |ds|)| == Written(p, DynstrAt(p) + 3).size
      && (forall i :: 0 <= i < |ds| - 1 ==> ds[i].tag != DT_NULL)
      && LastValue(ds, DT_STRTAB, |ds|) == Written(p, DynstrAt(p)).addr
      && LastValue(ds, DT_STRSZ, |ds|) == Written(p, DynstrAt(p)).size
      && LastValue(ds, DT_SYMTAB, |ds|) == Written(p, DynstrAt(p) + 1).addr
      && LastValue(ds, DT_SYMENT, |ds|) * SymCount(p) == Written(p, DynstrAt(p) + 1).size
      && LastValue(ds, DT_HASH, |ds|) == Written(p, DynstrAt(p) + 2).addr
      && LastValue(ds, DT_SONAME, |ds|) == sonameAt
  {
    DynamicSections(p);
    hide Specs, Written, Announced, DynstrSize, SymCount, SymSize, DynBytes, LastValue;
    ValuesOf(p, Announced(p), sonameAt);
  }

  lemma DynamicSections(p: Params)
    requires p.Valid()
    ensures DynstrAt(p) + 4 <= |Specs(p)|
    ensures var r, i := Announced(p), DynstrAt(p);
      && Written(p, i).addr == r.dynstr && Written(p, i).size == DynstrSize(p)
      && Written(p, i + 1).addr == r.dynsym && Written(p, i + 1).size == SymSize(p) * SymCount(p)
      && Written(p, i + 2).addr == r.hash && Written(p, i + 2).size == HashSize(p)
      && Written(p, i + 3).size == DynSize(p)
  {
    SpecsAre(p);
    hide Specs, Written, Announced, DynstrSize, SymCount, SymSize, DynSize, HashSize, RoundUp;
    PredictionsHold(p);
    SectionIs(p, DynstrAt(p));
    SectionIs(p, DynstrAt(p) + 1);
    SectionIs(p, DynstrAt(p) + 2);
    SectionIs(p, DynstrAt(p) + 3);
  }

  lemma ValuesOf(p: Params, r: Predicted, sonameAt: nat)
    ensures var ds := Dyns(p, r, sonameAt);
      && |DynBytes(p.wide, ds, |ds|)| == DynSize(p)
      && LastValue(ds, DT_STRTAB, |ds|) == r.dynstr && LastValue(ds, DT_STRSZ, |ds|) == DynstrSize(p)
      && LastValue(ds, DT_SYMTAB, |ds|) == r.dynsym && LastValue(ds, DT_SYMENT, |ds|) == SymSize(p)
      && LastValue(ds, DT_HASH, |ds|) == r.hash && LastValue(ds, DT_SONAME, |ds|) == sonameAt
  {
    hide DynBytes, DynstrSize, SymSize;
    var ds := Dyns(p, r, sonameAt);
    assert |DynBytes(p.wide, ds, |ds|)| == 7 * (2 * CellSize(p.wide));
    assert LastValue(ds, DT_SONAME, 7) == LastValue(ds, DT_SONAME, 6);
    assert LastValue(ds, DT_STRSZ, 7) == LastValue(ds, DT_STRSZ, 5);
    assert LastValue(ds, DT_SYMENT, 7) == LastValue(ds, DT_SYMENT, 5) == LastValue(ds, DT_SYMENT, 4);
    assert LastValue(ds, DT_SYMTAB, 7) == LastValue(ds, DT_SYMTAB, 5) == LastValue(ds, DT_SYMTAB, 3);
    assert LastValue(ds, DT_STRTAB, 7) == LastValue(ds, DT_STRTAB, 5) == LastValue(ds, DT_STRTAB, 3);
    assert LastValue(ds, DT_STRTAB, 3) == LastValue(ds, DT_STRTAB, 2);
    assert LastValue(ds, DT_HASH, 7) == LastValue(ds, DT_HASH, 5) == LastValue(ds, DT_HASH, 3);
    assert LastValue(ds, DT_HASH, 3) == LastValue(ds, DT_HASH, 1);
  }

  // ---------- symbols ----------

  // Global data objects, except for the null symbol.
  function Info(i: nat): byte { if i == 0 then 0 else 0x11 }

  predicate Fits(m: Symbol) {
    m.name < U32 && m.section < 0x1_0000 && 0 <= m.value < U32 && 0 <= m.size < U32
  }

  predicate AllFit(ms: seq<Symbol>) { forall k :: 0 <= k < |ms| ==> Fits(ms[k]) }

  function SymbolBytes(wide: bool, m: Symbol, info: byte): (b: seq<byte>)
    requires Fits(m)
    ensures |b| == if wide then 24 else 16
  {
    if wide then Word(m.name) + ([info, 0] + Half(m.section)) + (Cell(true, m.value) + Cell(true, m.size))
    else Word(m.name) + (Word(m.value) + Word(m.size)) + ([info, 0] + Half(m.section))
  }

  function SymbolsBytes(wide: bool, ms: seq<Symbol>, n: nat): (b: seq<byte>)
    requires n <= |ms| && AllFit(ms)
    ensures |b| == n * if wide then 24 else 16
  {
    if n == 0 then [] else SymbolsBytes(wide, ms, n - 1) + SymbolBytes(wide, ms[n - 1], Info(n - 1))
  }

  function ReadSymbol(s: seq<byte>, i: nat, wide: bool): Symbol
    requires (i + 1) * (if wide then 24 else 16) <= |s|
  {
    if wide then
      var at := i * 24;
      Symbol(ReadWord(s, at), ReadHalf(s, at + 6), ReadCell(s, at + 8, true), ReadCell(s, at + 16, true))
    else
      var at := i * 16;
      Symbol(ReadWord(s, at), ReadHalf(s, at + 14), ReadWord(s, at + 4), ReadWord(s, at + 8))
  }

  lemma {:induction false} SymbolHeld(s: seq<byte>, wide: bool, ms: seq<Symbol>, n: nat, i: nat)
    requires i < n <= |ms| && AllFit(ms) && Holds(s, 0, SymbolsBytes(wide, ms, n))
    ensures Holds(s, i * (if wide then 24 else 16), SymbolBytes(wide, ms[i], Info(i)))
    decreases n
  {
    hide SymbolBytes, Holds;
    HoldsTwo(s, 0, SymbolsBytes(wide, ms, n - 1), SymbolBytes(wide, ms[n - 1], Info(n - 1)));
    if i < n - 1 { SymbolHeld(s, wide, ms, n - 1, i); }
  }

  lemma WideReadsBack(s: seq<byte>, i: nat, m: Symbol, info: byte)
    requires Fits(m) && Holds(s, i * 24, SymbolBytes(true, m, info))
    ensures (i + 1) * 24 <= |s| && ReadSymbol(s, i, true) == m
  {
    var at := i * 24;
    HoldsPart(s, at, Word(m.name), [info, 0] + Half(m.section), Cell(true, m.value) + Cell(true, m.size));
    HoldsTwo(s, at + 4, [info, 0], Half(m.section));
    HoldsTwo(s, at + 8, Cell(true, m.value), Cell(true, m.size));
    hide Holds, SymbolBytes, Cell, Word, Half, ReadWord, ReadHalf, ReadCell;
    HeldWord(s, at, m.name);
    HeldHalf(s, at + 6, m.section);
    CellReadsBack(s, at + 8, true, m.value);
    CellReadsBack(s, at + 16, true, m.size);
  }

  lemma NarrowReadsBack(s: seq<byte>, i: nat, m: Symbol, info: byte)
    requires Fits(m) && Holds(s, i * 16, SymbolBytes(false, m, info))
    ensures (i + 1) * 16 <= |s| && ReadSymbol(s, i, false) == m
  {
    var at := i * 16;
    HoldsPart(s, at, Word(m.name), Word(m.value) + Word(m.size), [info, 0] + Half(m.section));
    HoldsTwo(s, at + 4, Word(m.value), Word(m.size));
    HoldsTwo(s, at + 12, [info, 0], Half(m.section));
    hide Holds, SymbolBytes, Word, Half, ReadWord, ReadHalf;
    HeldWord(s, at, m.name);
    HeldWord(s, at + 4, m.value);
    HeldWord(s, at + 8, m.size);
    HeldHalf(s, at + 14, m.section);
  }

  /** Symbols read back, field by field, in files of both classes. */
  lemma SymbolReadsBack(s: seq<byte>, wide: bool, ms: seq<Symbol>, i: nat)
    requires AllFit(ms) && i < |ms| && s == SymbolsBytes(wide, ms, |ms|)
    ensures (i + 1) * (if wide then 24 else 16) <= |s| && ReadSymbol(s, i, wide) == ms[i]
  {
    assert Holds(s, 0, s);
    hide Holds, SymbolsBytes, SymbolBytes, ReadSymbol;
    SymbolHeld(s, wide, ms, |ms|, i);
    if wide { WideReadsBack(s, i, ms[i], Info(i)); } else { NarrowReadsBack(s, i, ms[i], Info(i)); }
  }

  // ---------- lookup by name ----------

  // One bucket, and a chain from the first symbol to the last.
  ghost predicate OneChain(hash: seq<nat>, count: nat) {
    && count >= 2 && |hash| == count + 3 && hash[0] == 1 && hash[1] == count
    && (forall n :: 0 <= n < count - 1 ==> Walk(hash, n) == n + 1) && Walk(hash, count - 1) == 0
  }

  lemma ChainIs(hash: seq<nat>, count: nat, i: nat)
    requires OneChain(hash, count) && 1 <= i < count
    ensures hash[2] == 1 && hash[3 + i] == if i < count - 1 then i + 1 else 0
  {
    assert Walk(hash, 0) == 1;
    assert Walk(hash, i - 1) == i;
    assert Walk(hash, i) == hash[3 + i];
  }

  /** Symbols and chain fill the sections that were announced for them. */
  lemma SectionsFilled(p: Params, ms: seq<Symbol>, hash: seq<nat>)
    requires p.Valid() && AllFit(ms) && |ms| == SymCount(p) && OneChain(hash, |ms|)
    ensures DynstrAt(p) + 4 <= |Specs(p)|
    ensures |SymbolsBytes(p.wide, ms, |ms|)| == Written(p, DynstrAt(p) + 1).size
    ensures 4 * |hash| == Written(p, DynstrAt(p) + 2).size
  {
    DynamicSections(p);
    hide Specs, Written, Announced, SymbolsBytes, SymCount;
  }

  // No symbol before `n` has the name.
  ghost predicate NotBefore(ms: seq<Symbol>, names: string, name: string, n: nat)
    requires n <= |ms|
  {
    forall k :: 1 <= k < n ==> NameAt(names, ms[k].name) != name
  }

  /** Finds the first symbol with the name, whatever the hash function. */
  method FindDynamicSymbol(hash: seq<nat>, syms: seq<byte>, wide: bool, names: string, name: string,
                           hashOf: string -> nat, ghost ms: seq<Symbol>) returns (r: Option<Symbol>)
    requires OneChain(hash, |ms|) && AllFit(ms) && syms == SymbolsBytes(wide, ms, |ms|)
    ensures r.None? <==> NotBefore(ms, names, name, |ms|)
    ensures r.Some? ==> exists k :: 1 <= k < |ms| && r.value == ms[k] && NameAt(names, ms[k].name) == name
  {
    hide NameAt, SymbolsBytes, ReadSymbol, Walk;
    var buckets, chains := hash[0], hash[1];
    if buckets == 0 {
      return None;
    }
    var i := hash[2 + hashOf(name) % buckets];
    ChainIs(hash, |ms|, 1);
    while i != 0
      invariant i < |ms| && NotBefore(ms, names, name, if i == 0 then |ms| else i)
      decreases if i == 0 then 0 else |ms| - i
    {
      SymbolReadsBack(syms, wide, ms, i);
      var m := ReadSymbol(syms, i, wide);
      if NameAt(names, m.name) == name {
        return Some(m);
      }
      if i >= chains {
        return None;
      }
      ChainIs(hash, |ms|, i);
      i := hash[2 + buckets + i];
    }
    r := None;
  }

  // ---------- the bounds of an oat file ----------

  datatype Fields = Fields(begin: nat, end: nat, bssBegin: Option<nat>, bssEnd: Option<nat>, bssMethods: Option<nat>,
                           bssRoots: Option<nat>)

  // The entries of a file as it is written.
  ghost function EntriesOf(p: Params): seq<Entry>
    requires p.Valid()
  {
    SpecsAre(p);
    Entries(p, Announced(p), Written(p, RodataAt(p)).addr, RodataAt(p) + 1)
  }

  // The symbols that stand for them, as they are built.
  ghost predicate SymbolsOf(p: Params, names: string, ms: seq<Symbol>)
    requires p.Valid()
  {
    var es := EntriesOf(p);
    && |ms| == |es| + 1 && AllFit(ms)
    && forall k :: 0 <= k < |es| ==> NameAt(names, ms[k + 1].name) == es[k].name && Matches(names, ms[k + 1], es[k])
  }

  // `r` is the address of the symbol in a file loaded at `base`, or nothing if there is no such symbol.
  ghost predicate Found(p: Params, name: string, base: nat, r: Option<nat>)
    requires p.Valid()
  {
    && (r.Some? <==> Named(EntriesOf(p), name))
    && (r.Some? ==> exists e :: e in EntriesOf(p) && e.name == name && r.value == base + e.value)
  }

  method FindDynamicSymbolAddress(hash: seq<nat>, syms: seq<byte>, names: string, name: string, hashOf: string -> nat,
                                  base: nat, p: Params, ghost ms: seq<Symbol>) returns (r: Option<nat>)
    requires p.Valid() && SymbolsOf(p, names, ms) && OneChain(hash, |ms|) && syms == SymbolsBytes(p.wide, ms, |ms|)
    ensures Found(p, name, base, r)
  {
    hide EntriesOf, NameAt, Walk, SymbolsBytes;
    var m := FindDynamicSymbol(hash, syms, p.wide, names, name, hashOf, ms);
    ghost var es := EntriesOf(p);
    if m.Some? {
      ghost var k :| 1 <= k < |ms| && m.value == ms[k] && NameAt(names, ms[k].name) == name;
      assert Matches(names, ms[k - 1 + 1], es[k - 1]) && es[k - 1] in es;
      var value: nat := m.value.value;
      r := Some(base + value);
    } else {
      assert forall k :: 0 <= k < |es| ==> es[k].name == NameAt(names, ms[k + 1].name) != name;
      r := None;
    }
  }

  // What the runtime is to know of a file loaded at `base`.
  ghost predicate Bounds(p: Params, base: nat, f: Fields)
    requires p.Valid()
  {
    SpecsAre(p);
    var data, text := Written(p, RodataAt(p)), Written(p, TextAt(p));
    && f.begin == base + data.addr
    && f.end == base + (if p.text != 0 then text.addr + text.size else data.addr + data.size)
    && if p.bss == 0 then f.bssBegin == f.bssEnd == f.bssMethods == f.bssRoots == None
       else BssBounds(p, base, f, Written(p, BssAt(p)))
  }

  ghost predicate BssBounds(p: Params, base: nat, f: Fields, h: Header) {
    && f.bssBegin == Some(base + h.addr) && f.bssEnd == Some(base + h.addr + h.size)
    && f.bssMethods == (if p.bssMethods != p.bssRoots then Some(base + h.addr + p.bssMethods) else None)
    && f.bssRoots == (if p.bssRoots != p.bss then Some(base + h.addr + p.bssRoots) else None)
  }

  lemma CodeFound(p: Params, base: nat, begin: Option<nat>, last: Option<nat>)
    requires p.Valid() && Found(p, "oatdata", base, begin) && Found(p, "oatlastword", base, last)
    ensures TextAt(p) < |Specs(p)|
    ensures begin.Some? && begin.value == base + Written(p, RodataAt(p)).addr
    ensures last.Some? <==> p.text != 0 || p.rodata != 0
    ensures var data, text := Written(p, RodataAt(p)), Written(p, TextAt(p));
      last.Some? ==> last.value + 4 == base + if p.text != 0 then text.addr + text.size else data.addr + data.size
  {
    SpecsAre(p);
    hide Specs, Written, Named, Entries, Announced;
    SymbolsSayWhat(p);
  }

  lemma BssFound(p: Params, base: nat, bss: Option<nat>, last: Option<nat>)
    requires p.Valid() && Found(p, "oatbss", base, bss) && Found(p, "oatbsslastword", base, last)
    ensures BssAt(p) < |Specs(p)|
    ensures (bss.Some? <==> p.bss != 0) && (last.Some? <==> p.bss != 0)
    ensures p.bss != 0 ==> var h := Written(p, BssAt(p));
      bss.value == base + h.addr && last.value + 4 == base + h.addr + h.size
  {
    SpecsAre(p);
    hide Specs, Written, Named, Entries, Announced;
    SymbolsSayWhat(p);
  }

  lemma PartsFound(p: Params, base: nat, methods: Option<nat>, roots: Option<nat>)
    requires p.Valid() && p.bss != 0 && Found(p, "oatbssmethods", base, methods) && Found(p, "oatbssroots", base, roots)
    ensures BssAt(p) < |Specs(p)|
    ensures var h := Written(p, BssAt(p));
      && methods == (if p.bssMethods != p.bssRoots then Some(base + h.addr + p.bssMethods) else None)
      && roots == (if p.bssRoots != p.bss then Some(base + h.addr + p.bssRoots) else None)
  {
    SpecsAre(p);
    hide Specs, Written, Named, Entries, Announced;
    SymbolsSayWhat(p);
  }

  /**
   Through bytes of symbols, chain and names the runtime finds exactly the sections that were written. It
   refuses only a file that has neither code nor data.
   */
  method ComputeFields(hash: seq<nat>, syms: seq<byte>, names: string, hashOf: string -> nat, base: nat, p: Params,
                       ghost ms: seq<Symbol>) returns (f: Option<Fields>)
    requires p.Valid() && SymbolsOf(p, names, ms) && OneChain(hash, |ms|) && syms == SymbolsBytes(p.wide, ms, |ms|)
    ensures f.Some? <==> p.text != 0 || p.rodata != 0
    ensures f.Some? ==> Bounds(p, base, f.value)
  {
    hide SymbolsOf, OneChain, SymbolsBytes, Found, Written, Specs, Named;
    var begin := FindDynamicSymbolAddress(hash, syms, names, "oatdata", hashOf, base, p, ms);
    var last := FindDynamicSymbolAddress(hash, syms, names, "oatlastword", hashOf, base, p, ms);
    CodeFound(p, base, begin, last);
    if begin.None? || last.None? {
      return None;
    }
    var bss := FindDynamicSymbolAddress(hash, syms, names, "oatbss", hashOf, base, p, ms);
    var bssLast := FindDynamicSymbolAddress(hash, syms, names, "oatbsslastword", hashOf, base, p, ms);
    BssFound(p, base, bss, bssLast);
    if bss.None? {
      return Some(Fields(begin.value, last.value + 4, None, None, None, None));
    }
    if bssLast.None? {
      return None;
    }
    var methods := FindDynamicSymbolAddress(hash, syms, names, "oatbssmethods", hashOf, base, p, ms);
    var roots := FindDynamicSymbolAddress(hash, syms, names, "oatbssroots", hashOf, base, p, ms);
    PartsFound(p, base, methods, roots);
    f := Some(Fields(begin.value, last.value + 4, bss, Some(bssLast.value + 4), methods, roots));
  }
}
