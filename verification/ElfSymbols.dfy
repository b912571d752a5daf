/**
 The dynamic symbols of an oat file and their names: every symbol finds its name in the string table
 and describes a piece of the section it names.
 */
module ElfSymbols {
  import opened ElfSections
  import opened ElfDynamic

  // `name` is an offset into the string table, `section` counts from one.
  datatype Symbol = Symbol(name: nat, section: nat, value: int, size: int)

  // What a symbol is to say.
  datatype Entry = Entry(name: string, section: nat, value: int, size: int)

  function CodeEntries(p: Params, r: Predicted, rodata: nat, index: nat): seq<Entry> {
    if p.text != 0 then
      [Entry("oatexec", r.textIndex, r.text, p.text), Entry("oatlastword", r.textIndex, r.text + p.text - 4, 4)]
    else if p.rodata != 0 then
      [Entry("oatlastword", index, rodata + p.rodata - 4, 4)]
    else
      []
  }

  function MethodEntries(p: Params, r: Predicted): seq<Entry> {
    if p.bssMethods == p.bssRoots then []
    else [Entry("oatbssmethods", r.bssIndex, r.bss + p.bssMethods, p.bssRoots - p.bssMethods)]
  }

  function RootEntries(p: Params, r: Predicted): seq<Entry> {
    if p.bssRoots != p.bss then [Entry("oatbssroots", r.bssIndex, r.bss + p.bssRoots, p.bss - p.bssRoots)] else []
  }

  function BssEntries(p: Params, r: Predicted): seq<Entry> {
    if p.bss == 0 then [] else
      [Entry("oatbss", r.bssIndex, r.bss, p.bssRoots)] + MethodEntries(p, r) + RootEntries(p, r)
      + [Entry("oatbsslastword", r.bssIndex, r.bss + p.bss - 4, 4)]
  }

  /** The symbols in order, given where the read-only data is and what is predicted from there. */
  function Entries(p: Params, r: Predicted, rodata: nat, index: nat): seq<Entry> {
    [Entry("oatdata", index, rodata, p.rodata)] + CodeEntries(p, r, rodata, index) + BssEntries(p, r)
  }

  // ---------- the string table ----------

  /** Reads a name up to its terminator. */
  function NameAt(s: string, at: nat): string
    decreases |s| - at
  {
    if at < |s| && s[at] != '\0' then [s[at]] + NameAt(s, at + 1) else []
  }

  ghost predicate HoldsName(s: string, at: nat, name: string) {
    && at + |name| < |s| && s[at + |name|] == '\0'
    && forall k :: 0 <= k < |name| ==> s[at + k] == name[k] != '\0'
  }

  lemma {:induction false} NameReadsBack(s: string, at: nat, name: string)
    requires HoldsName(s, at, name)
    ensures NameAt(s, at) == name
    decreases |name|
  {
    if name != [] {
      assert s[at + 0] == name[0];
      assert forall k :: 0 <= k < |name| - 1 ==> s[at + 1 + k] == s[at + (k + 1)] == name[1..][k];
      NameReadsBack(s, at + 1, name[1..]);
    }
  }

  ghost predicate Matches(s: string, m: Symbol, e: Entry) {
    m.section == e.section && m.value == e.value && m.size == e.size && HoldsName(s, m.name, e.name)
  }

  // The null symbol, then one symbol per entry.
  ghost predicate Table(s: string, ms: seq<Symbol>, es: seq<Entry>) {
    && |ms| == |es| + 1
    && (forall k :: 0 <= k < |es| ==> Matches(s, ms[k + 1], es[k]))
    && |s| == 1 + Total(NameSizes(es))
  }

  function NameSizes(es: seq<Entry>): (ns: seq<nat>)
    ensures |ns| == |es|
  {
    seq<nat>(|es|, k requires 0 <= k < |es| => |es[k].name| + 1)
  }

  lemma TableNext(s: string, ms: seq<Symbol>, es: seq<Entry>, e: Entry)
    requires Table(s, ms, es) && '\0' !in e.name
    ensures Table(s + e.name + ['\0'], ms + [Symbol(|s|, e.section, e.value, e.size)], es + [e])
  {
    hide Total;
    var more := s + e.name + ['\0'];
    var now, all := ms + [Symbol(|s|, e.section, e.value, e.size)], es + [e];
    forall k | 0 <= k < |all|
      ensures Matches(more, now[k + 1], all[k])
    {
      if k < |es| { assert Matches(s, ms[k + 1], es[k]); }
    }
    assert NameSizes(all) == NameSizes(es) + [|e.name| + 1];
    TotalOfTwo(NameSizes(es), [|e.name| + 1]);
    assert Total([|e.name| + 1]) == |e.name| + 1 by { SmallTotals(); }
  }

  // Adds a name to the string table and a symbol that refers to it.
  method AddSymbol(s: string, ms: seq<Symbol>, ghost es: seq<Entry>, e: Entry) returns (more: string, now: seq<Symbol>)
    requires Table(s, ms, es) && '\0' !in e.name
    ensures Table(more, now, es + [e])
  {
    TableNext(s, ms, es, e);
    more := s + e.name + ['\0'];
    now := ms + [Symbol(|s|, e.section, e.value, e.size)];
  }

  method AddCode(p: Params, r: Predicted, rodata: nat, index: nat, s: string, ms: seq<Symbol>, ghost es: seq<Entry>)
    returns (more: string, now: seq<Symbol>)
    requires Table(s, ms, es)
    ensures Table(more, now, es + CodeEntries(p, r, rodata, index))
  {
    hide Table;
    more, now := s, ms;
    if p.text != 0 {
      more, now := AddSymbol(more, now, es, Entry("oatexec", r.textIndex, r.text, p.text));
      ghost var one := es + [Entry("oatexec", r.textIndex, r.text, p.text)];
      more, now := AddSymbol(more, now, one, Entry("oatlastword", r.textIndex, r.text + p.text - 4, 4));
      assert one + [Entry("oatlastword", r.textIndex, r.text + p.text - 4, 4)] == es + CodeEntries(p, r, rodata, index);
    } else if p.rodata != 0 {
      more, now := AddSymbol(more, now, es, Entry("oatlastword", index, rodata + p.rodata - 4, 4));
    } else {
      assert es + [] == es;
    }
  }

  // The parts of .bss for methods and for roots, unless they are empty.
  method AddMethodsPart(p: Params, r: Predicted, s: string, ms: seq<Symbol>, ghost es: seq<Entry>)
    returns (more: string, now: seq<Symbol>)
    requires Table(s, ms, es)
    ensures Table(more, now, es + MethodEntries(p, r))
  {
    hide Table;
    more, now := s, ms;
    if p.bssMethods != p.bssRoots {
      more, now := AddSymbol(s, ms, es,
        Entry("oatbssmethods", r.bssIndex, r.bss + p.bssMethods, p.bssRoots - p.bssMethods));
    } else {
      assert es + [] == es;
    }
  }

  method AddRootsPart(p: Params, r: Predicted, s: string, ms: seq<Symbol>, ghost es: seq<Entry>)
    returns (more: string, now: seq<Symbol>)
    requires Table(s, ms, es)
    ensures Table(more, now, es + RootEntries(p, r))
  {
    hide Table;
    more, now := s, ms;
    if p.bssRoots != p.bss {
      more, now := AddSymbol(s, ms, es, Entry("oatbssroots", r.bssIndex, r.bss + p.bssRoots, p.bss - p.bssRoots));
    } else {
      assert es + [] == es;
    }
  }

  method AddBss(p: Params, r: Predicted, s: string, ms: seq<Symbol>, ghost es: seq<Entry>)
    returns (more: string, now: seq<Symbol>)
    requires Table(s, ms, es)
    ensures Table(more, now, es + BssEntries(p, r))
  {
    hide Table, MethodEntries, RootEntries;
    more, now := s, ms;
    if p.bss != 0 {
      var first, last := Entry("oatbss", r.bssIndex, r.bss, p.bssRoots),
        Entry("oatbsslastword", r.bssIndex, r.bss + p.bss - 4, 4);
      more, now := AddSymbol(more, now, es, first);
      more, now := AddMethodsPart(p, r, more, now, es + [first]);
      more, now := AddRootsPart(p, r, more, now, es + [first] + MethodEntries(p, r));
      more, now := AddSymbol(more, now, es + [first] + MethodEntries(p, r) + RootEntries(p, r), last);
      assert es + [first] + MethodEntries(p, r) + RootEntries(p, r) + [last] == es + BssEntries(p, r);
    } else {
      assert es + [] == es;
    }
  }

  lemma SizesOfTwo(a: seq<Entry>, b: seq<Entry>)
    ensures NameSizes(a + b) == NameSizes(a) + NameSizes(b)
  {
  }

  lemma BssSizes(p: Params, r: Predicted)
    ensures NameSizes(BssEntries(p, r)) ==
      if p.bss == 0 then []
      else [7] + (if p.bssMethods != p.bssRoots then [14] else []) + (if p.bssRoots != p.bss then [12] else []) + [15]
  {
    assert |"oatbss"| == 6 && |"oatbssmethods"| == 13 && |"oatbssroots"| == 11 && |"oatbsslastword"| == 14;
    if p.bss != 0 {
      var first, last := [Entry("oatbss", r.bssIndex, r.bss, p.bssRoots)],
        [Entry("oatbsslastword", r.bssIndex, r.bss + p.bss - 4, 4)];
      assert NameSizes(MethodEntries(p, r)) == if p.bssMethods != p.bssRoots then [14] else [];
      assert NameSizes(RootEntries(p, r)) == if p.bssRoots != p.bss then [12] else [];
      assert NameSizes(first) == [7] && NameSizes(last) == [15];
      hide NameSizes, MethodEntries, RootEntries;
      SizesOfTwo(first, MethodEntries(p, r));
      SizesOfTwo(first + MethodEntries(p, r), RootEntries(p, r));
      SizesOfTwo(first + MethodEntries(p, r) + RootEntries(p, r), last);
    }
  }

  lemma CodeSizes(p: Params, r: Predicted, rodata: nat, index: nat)
    ensures NameSizes(CodeEntries(p, r, rodata, index)) ==
      if p.text != 0 then [8, 12] else if p.rodata != 0 then [12] else []
  {
    assert |"oatexec"| == 7 && |"oatlastword"| == 11;
  }

  lemma SizesOfEntries(p: Params, r: Predicted, rodata: nat, index: nat)
    ensures NameSizes(Entries(p, r, rodata, index)) == Names(p)
  {
    var first := [Entry("oatdata", index, rodata, p.rodata)];
    assert |"oatdata"| == 7;
    assert NameSizes(first) == [8];
    hide NameSizes, CodeEntries, BssEntries;
    BssSizes(p, r);
    CodeSizes(p, r, rodata, index);
    SizesOfTwo(first, CodeEntries(p, r, rodata, index));
    SizesOfTwo(first + CodeEntries(p, r, rodata, index), BssEntries(p, r));
  }

  /** The contents of .dynstr and .dynsym have the sizes that the predicted addresses rely on. */
  method BuildSymbols(p: Params, soname: string, rodata: nat, index: nat)
    returns (s: string, ms: seq<Symbol>, sonameAt: nat)
    requires |soname| == p.soname && '\0' !in soname
    ensures |s| == DynstrSize(p) && |ms| == SymCount(p) && NameAt(s, sonameAt) == soname
    ensures var es := Entries(p, Prediction(p, rodata, index), rodata, index);
      |ms| == |es| + 1 && forall k :: 0 <= k < |es| ==>
        NameAt(s, ms[k + 1].name) == es[k].name && Matches(s, ms[k + 1], es[k])
  {
    ghost var es := Entries(p, Prediction(p, rodata, index), rodata, index);
    SizesOfEntries(p, Prediction(p, rodata, index), rodata, index);
    assert Table(['\0'], [Symbol(0, 0, 0, 0)], []);
    hide Table, Prediction, Entries;
    var r := PrepareDynamicSection(p, rodata, index);
    var first := Entry("oatdata", index, rodata, p.rodata);
    s, ms := AddSymbol(['\0'], [Symbol(0, 0, 0, 0)], [], first);
    s, ms := AddCode(p, r, rodata, index, s, ms, [] + [first]);
    s, ms := AddBss(p, r, s, ms, [] + [first] + CodeEntries(p, r, rodata, index));
    assert [] + [first] + CodeEntries(p, r, rodata, index) + BssEntries(p, r) ==
      es by { EntriesAre(p, r, rodata, index, first); }
    sonameAt := |s|;
    SonameAdded(s, ms, es, soname);
    s := s + soname + ['\0'];
  }

  lemma EntriesAre(p: Params, r: Predicted, rodata: nat, index: nat, first: Entry)
    requires first == Entry("oatdata", index, rodata, p.rodata)
    ensures Entries(p, r, rodata, index) == [] + [first] + CodeEntries(p, r, rodata, index) + BssEntries(p, r)
  {
    hide CodeEntries, BssEntries;
  }

  // The file name follows all symbol names.
  lemma SonameAdded(s: string, ms: seq<Symbol>, es: seq<Entry>, soname: string)
    requires Table(s, ms, es) && '\0' !in soname
    ensures var more := s + soname + ['\0'];
      && |more| == 1 + Total(NameSizes(es)) + |soname| + 1 && |ms| == |es| + 1
      && NameAt(more, |s|) == soname
      && forall k :: 0 <= k < |es| ==> NameAt(more, ms[k + 1].name) == es[k].name && Matches(more, ms[k + 1], es[k])
  {
    hide NameAt;
    var more := s + soname + ['\0'];
    NameReadsBack(more, |s|, soname);
    forall k | 0 <= k < |es|
      ensures NameAt(more, ms[k + 1].name) == es[k].name && Matches(more, ms[k + 1], es[k])
    {
      assert Matches(s, ms[k + 1], es[k]);
      NameReadsBack(more, ms[k + 1].name, es[k].name);
    }
  }

  // ---------- where symbols point ----------

  // A symbol describes part of the section that it names.
  ghost predicate Inside(p: Params, e: Entry) {
    && 1 <= e.section <= |Specs(p)|
    && var h := Written(p, e.section - 1); h.addr <= e.value && 0 <= e.size && e.value + e.size <= h.addr + h.size
  }

  // A section that has a last word is no shorter than one.
  predicate WholeWords(p: Params) {
    && (if p.text != 0 then 4 <= p.text else p.rodata == 0 || 4 <= p.rodata)
    && (p.bss == 0 || 4 <= p.bss)
  }

  lemma SectionIs(p: Params, i: nat)
    requires i < |Specs(p)|
    ensures Written(p, i).size == Specs(p)[i].size
  {
    hide Specs, Run;
    RunHeaders(p.start, Specs(p), |Specs(p)|);
  }

  // Where the three sections that symbols name are, and how long.
  lemma SectionsAre(p: Params)
    requires p.Valid()
    ensures TextAt(p) < |Specs(p)| && (p.bss != 0 ==> BssAt(p) < |Specs(p)|)
    ensures Written(p, RodataAt(p)).size == p.rodata
    ensures var r, h := Announced(p), Written(p, TextAt(p));
      r.text == h.addr && h.size == p.text && r.textIndex == TextAt(p) + 1
    ensures p.bss != 0 ==> var r, h := Announced(p), Written(p, BssAt(p)); r.bss == h.addr && h.size == p.bss
    ensures p.bss != 0 && p.text != 0 ==> Announced(p).bssIndex == BssAt(p) + 1
  {
    SpecsAre(p);
    hide Specs, Written, Announced;
    PredictionsHold(p);
    SectionIs(p, RodataAt(p));
    SectionIs(p, TextAt(p));
    if p.bss != 0 { SectionIs(p, BssAt(p)); }
  }

  lemma CodeInside(p: Params)
    requires p.Valid()
    ensures var rodata := Written(p, RodataAt(p)).addr;
      && Inside(p, Entry("oatdata", RodataAt(p) + 1, rodata, p.rodata))
      && ((forall e :: e in CodeEntries(p, Announced(p), rodata, RodataAt(p) + 1) ==> Inside(p, e)) <==>
            if p.text != 0 then 4 <= p.text else p.rodata == 0 || 4 <= p.rodata)
  {
    hide Specs, Written, Announced;
    SectionsAre(p);
    var es := CodeEntries(p, Announced(p), Written(p, RodataAt(p)).addr, RodataAt(p) + 1);
    if p.text != 0 {
      var exec, last := es[0], es[1];
      assert exec in es && last in es && forall e :: e in es ==> e == exec || e == last;
      assert Inside(p, exec) && (Inside(p, last) <==> 4 <= p.text);
    } else if p.rodata != 0 {
      assert es == [es[0]] && es[0] in es;
      assert Inside(p, es[0]) <==> 4 <= p.rodata;
    }
  }

  lemma BssInside(p: Params)
    requires p.Valid() && (p.bss != 0 ==> p.text != 0)
    ensures (forall e :: e in BssEntries(p, Announced(p)) ==> Inside(p, e)) <==> p.bss == 0 || 4 <= p.bss
  {
    hide Specs, Written, Announced;
    SectionsAre(p);
    if p.bss != 0 {
      var es := BssEntries(p, Announced(p));
      assert es[|es| - 1] in es;
    }
  }

  /**
   Every symbol describes part of the section it names, as that section is written, exactly when the
   sections with a last word are no shorter than one.
   */
  lemma SymbolsAreRight(p: Params)
    requires p.Valid() && (p.bss != 0 ==> p.text != 0)
    ensures var rodata := Written(p, RodataAt(p)).addr;
      (forall e :: e in Entries(p, Announced(p), rodata, RodataAt(p) + 1) ==> Inside(p, e)) <==> WholeWords(p)
  {
    hide Written, Announced, Inside, CodeEntries, BssEntries;
    SpecsAre(p);
    hide Specs;
    CodeInside(p);
    BssInside(p);
    var rodata, index := Written(p, RodataAt(p)).addr, RodataAt(p) + 1;
    var code, bss := CodeEntries(p, Announced(p), rodata, index), BssEntries(p, Announced(p));
    var es := Entries(p, Announced(p), rodata, index);
    assert (forall e :: e in code ==> e in es) && (forall e :: e in bss ==> e in es);
  }

  // ---------- what each symbol says ----------

  lemma NamesDiffer()
    ensures |"oatdata"| == |"oatexec"| == 7 && "oatdata" != "oatexec"
    ensures |"oatlastword"| == |"oatbssroots"| == 11 && "oatlastword" != "oatbssroots"
    ensures |"oatbss"| == 6 && |"oatbssmethods"| == 13 && |"oatbsslastword"| == 14
  {
    assert "oatdata"[3] != "oatexec"[3] && "oatlastword"[3] != "oatbssroots"[3];
  }

  // Whole sections, their last words, and the parts of .bss.
  ghost predicate Says(p: Params, e: Entry)
    requires p.Valid()
  {
    SpecsAre(p);
    var data, text := Written(p, RodataAt(p)), Written(p, TextAt(p));
    && (e.name == "oatdata" ==> e.value == data.addr && e.size == data.size)
    && (e.name == "oatexec" ==> e.value == text.addr && e.size == text.size)
    && (e.name == "oatlastword" ==>
          e.size == 4 && e.value + 4 == if p.text != 0 then text.addr + text.size else data.addr + data.size)
    && (p.bss != 0 ==> SaysOfBss(p, Written(p, BssAt(p)), e))
  }

  ghost predicate SaysOfBss(p: Params, h: Header, e: Entry) {
    && (e.name == "oatbss" ==> e.value == h.addr && e.size == p.bssRoots)
    && (e.name == "oatbssmethods" ==> e.value == h.addr + p.bssMethods && e.value + e.size == h.addr + p.bssRoots)
    && (e.name == "oatbssroots" ==> e.value == h.addr + p.bssRoots && e.value + e.size == h.addr + h.size)
    && (e.name == "oatbsslastword" ==> e.size == 4 && e.value + 4 == h.addr + h.size)
  }

  predicate OfCode(name: string) { name == "oatdata" || name == "oatexec" || name == "oatlastword" }

  // The number of the section that a symbol of this name is in.
  function SectionOf(p: Params, name: string): nat {
    if !OfCode(name) then BssAt(p) + 1
    else if name == "oatdata" || (name == "oatlastword" && p.text == 0) then RodataAt(p) + 1
    else TextAt(p) + 1
  }

  lemma CodeSays(p: Params)
    requires p.Valid()
    ensures var rodata, index := Written(p, RodataAt(p)).addr, RodataAt(p) + 1;
      var first := Entry("oatdata", index, rodata, p.rodata);
      && Says(p, first) && first.section == SectionOf(p, first.name)
      && forall e :: e in CodeEntries(p, Announced(p), rodata, index) ==>
           Says(p, e) && OfCode(e.name) && e.section == SectionOf(p, e.name)
  {
    hide Specs, Written, Announced;
    SectionsAre(p);
    NamesDiffer();
  }

  lemma BssPartSays(p: Params, e: Entry)
    requires p.Valid() && p.bss != 0
    requires
      || e in MethodEntries(p, Announced(p)) || e in RootEntries(p, Announced(p))
      || e == Entry("oatbss", Announced(p).bssIndex, Announced(p).bss, p.bssRoots)
      || e == Entry("oatbsslastword", Announced(p).bssIndex, Announced(p).bss + p.bss - 4, 4)
    ensures Says(p, e) && !OfCode(e.name) && (e.section == SectionOf(p, e.name) <==> p.text != 0)
  {
    hide Specs, Written, Announced;
    SectionsAre(p);
    PredictionsHold(p);
    NamesDiffer();
  }

  lemma BssSays(p: Params)
    requires p.Valid()
    ensures forall e :: e in BssEntries(p, Announced(p)) ==>
      Says(p, e) && !OfCode(e.name) && (e.section == SectionOf(p, e.name) <==> p.text != 0)
  {
    hide Specs, Written, Announced, Says, SectionOf, OfCode, MethodEntries, RootEntries;
    forall e | e in BssEntries(p, Announced(p))
      ensures Says(p, e) && !OfCode(e.name) && (e.section == SectionOf(p, e.name) <==> p.text != 0)
    {
      BssPartSays(p, e);
    }
  }

  ghost predicate Named(es: seq<Entry>, name: string) { exists e :: e in es && e.name == name }

  /**
   `oatdata` and `oatexec` are their whole sections, the two last words end with their sections, and the
   parts of .bss are where the offsets say. Each symbol is there exactly when there is something to name,
   and has the right section number unless it is one of .bss in a file without code.
   */
  lemma SymbolsSayWhat(p: Params)
    requires p.Valid()
    ensures var rodata := Written(p, RodataAt(p)).addr;
      forall e :: e in Entries(p, Announced(p), rodata, RodataAt(p) + 1) ==>
        Says(p, e) && (e.section == SectionOf(p, e.name) <==> OfCode(e.name) || p.text != 0)
    ensures var rodata := Written(p, RodataAt(p)).addr;
      var es := Entries(p, Announced(p), rodata, RodataAt(p) + 1);
      && Named(es, "oatdata") && (Named(es, "oatexec") <==> p.text != 0)
      && (Named(es, "oatlastword") <==> p.text != 0 || p.rodata != 0)
      && (Named(es, "oatbss") <==> p.bss != 0) && (Named(es, "oatbsslastword") <==> p.bss != 0)
      && (Named(es, "oatbssmethods") <==> p.bss != 0 && p.bssMethods != p.bssRoots)
      && (Named(es, "oatbssroots") <==> p.bss != 0 && p.bssRoots != p.bss)
  {
    hide Written, Announced, Says, SectionOf, CodeEntries, BssEntries, Named;
    SpecsAre(p);
    hide Specs;
    CodeSays(p);
    BssSays(p);
    var rodata, index := Written(p, RodataAt(p)).addr, RodataAt(p) + 1;
    var first := [Entry("oatdata", index, rodata, p.rodata)];
    var code, bss := CodeEntries(p, Announced(p), rodata, index), BssEntries(p, Announced(p));
    forall name: string
      ensures Named(Entries(p, Announced(p), rodata, index), name) <==>
        Named(first, name) || Named(code, name) || Named(bss, name)
    {
      NamesOfTwo(first, code, name);
      NamesOfTwo(first + code, bss, name);
    }
    NamesOfFirst(first[0]);
    NamesOfCode(p, Announced(p), rodata, index);
    NamesOfBss(p, Announced(p));
  }

  lemma NamesOfTwo(a: seq<Entry>, b: seq<Entry>, name: string)
    ensures Named(a + b, name) <==> Named(a, name) || Named(b, name)
  {
  }

  lemma NamesOfFirst(e: Entry)
    requires e.name == "oatdata"
    ensures forall name: string :: Named([e], name) <==> name == "oatdata"
    ensures !Named([e], "oatexec") && !Named([e], "oatlastword") && !Named([e], "oatbss")
    ensures !Named([e], "oatbssmethods")
    ensures !Named([e], "oatbssroots") && !Named([e], "oatbsslastword") && Named([e], "oatdata")
  {
    NamesDiffer();
    assert e in [e];
  }

  lemma NamesOfCode(p: Params, r: Predicted, rodata: nat, index: nat)
    ensures var es := CodeEntries(p, r, rodata, index);
      && (Named(es, "oatexec") <==> p.text != 0) && (Named(es, "oatlastword") <==> p.text != 0 || p.rodata != 0)
      && !Named(es, "oatbss") && !Named(es, "oatbssmethods") && !Named(es, "oatbssroots") &&
           !Named(es, "oatbsslastword")
  {
    NamesDiffer();
    var es := CodeEntries(p, r, rodata, index);
    if p.text != 0 {
      assert es[0] in es && es[1] in es;
    } else if p.rodata != 0 {
      assert es[0] in es;
    }
  }

  lemma NamesOfBss(p: Params, r: Predicted)
    ensures var es := BssEntries(p, r);
      && !Named(es, "oatexec") && !Named(es, "oatlastword")
      && (Named(es, "oatbss") <==> p.bss != 0) && (Named(es, "oatbsslastword") <==> p.bss != 0)
      && (Named(es, "oatbssmethods") <==> p.bss != 0 && p.bssMethods != p.bssRoots)
      && (Named(es, "oatbssroots") <==> p.bss != 0 && p.bssRoots != p.bss)
  {
    NamesDiffer();
    var es := BssEntries(p, r);
    if p.bss != 0 {
      assert es[0] in es && es[|es| - 1] in es;
      if p.bssMethods != p.bssRoots { assert es[1] in es; }
      if p.bssRoots != p.bss { assert es[|es| - 2] in es; }
    }
  }
}
