/**
 The sections an oat file is written with, in order, and the dynamic section: its symbols carry
 addresses that are predicted before the sections are written.
 */
module ElfDynamic {
  import opened Align
  import opened ElfSections
  import opened ElfSegments

  datatype Params = Params(
    start: nat, wide: bool, buildId: bool, mips: bool,
    rodata: nat, text: nat, bss: nat, bssMethods: nat, bssRoots: nat, soname: nat,
    trailing: seq<Spec>)
  {
    predicate Valid() {
      && bssMethods <= bssRoots <= bss
      && (forall s :: s in trailing ==> s.d.Valid() && !s.d.Loaded())
    }
  }

  const BUILD_ID_SIZE: nat := 36
  const ABIFLAGS_SIZE: nat := 24

  // ---------- the cached sections ----------

  function SymSize(p: Params): nat { if p.wide then 24 else 16 }
  function OffSize(p: Params): pos { if p.wide then 8 else 4 }
  function DynSize(p: Params): nat { 7 * if p.wide then 16 else 8 }

  // Names in the string table, after the empty one: their lengths with terminator.
  function Names(p: Params): seq<nat> {
    [8]
    + (if p.text != 0 then [8, 12] else if p.rodata != 0 then [12] else [])
    + (if p.bss != 0 then
         [7] + (if p.bssMethods != p.bssRoots then [14] else []) + (if p.bssRoots != p.bss then [12] else []) + [15]
       else [])
  }

  function Total(ns: seq<nat>): nat { if ns == [] then 0 else ns[0] + Total(ns[1..]) }

  function DynstrSize(p: Params): nat { 1 + Total(Names(p)) + p.soname + 1 }

  // One symbol per name, after the null symbol.
  function SymCount(p: Params): nat { 1 + |Names(p)| }
  function DynsymSize(p: Params): nat { SymCount(p) * SymSize(p) }

  /** The hash section: one bucket whose chain runs through all symbols. */
  method BuildHash(count: nat) returns (hash: seq<nat>)
    requires count >= 2
    ensures |hash| == count + 3
    ensures hash[0] == 1 && hash[1] == count
    ensures forall n :: 0 <= n < count - 1 ==> Walk(hash, n) == n + 1
    ensures Walk(hash, count - 1) == 0
  {
    hash := [1, count, 1, 0];
    for i := 1 to count - 1
      invariant |hash| == i + 3 && hash[0] == 1 && hash[1] == count && hash[2] == 1
      invariant forall k :: 4 <= k < i + 3 ==> hash[k] == k - 2
    {
      hash := hash + [i + 1];
    }
    hash := hash + [0];
    forall n | 0 <= n < count - 1
      ensures Walk(hash, n) == n + 1
    {
      WalkTo(hash, count, n);
    }
    WalkTo(hash, count, count - 2);
  }

  // The symbol reached after following the chain `n` times from the only bucket.
  function Walk(hash: seq<nat>, n: nat): nat
    requires |hash| >= 4
  {
    if n == 0 then hash[2] else
      var at := 3 + Walk(hash, n - 1);
      if at < |hash| then hash[at] else 0
  }

  lemma {:induction false} WalkTo(hash: seq<nat>, count: nat, n: nat)
    requires |hash| == count + 3 && n < count - 1 && hash[2] == 1
    requires forall k :: 4 <= k < count + 2 ==> hash[k] == k - 2
    requires hash[count + 2] == 0
    ensures Walk(hash, n) == n + 1 && (n == count - 2 ==> Walk(hash, n + 1) == 0)
  {
    if n > 0 { WalkTo(hash, count, n - 1); }
  }

  function HashSize(p: Params): nat { 4 * (SymCount(p) + 3) }

  // ---------- the sections in order ----------

  const RODATA: Desc := Desc(Alloc, false, 4096, R)
  const TEXT: Desc := Desc(AllocExec, false, 4096, RX)
  const BSS: Desc := Desc(Alloc, true, 4096, RW)
  const ABIFLAGS: Desc := Desc(Alloc, false, 4096, R)
  const BUILD_ID: Desc := Desc(Alloc, false, 4, R)
  const DYNSTR: Desc := Desc(Alloc, false, 4096, R)
  const HASH: Desc := Desc(Alloc, false, 4, R)
  const DYNAMIC: Desc := Desc(Alloc, false, 4096, RW)

  function Dynsym(p: Params): Desc { Desc(Alloc, false, OffSize(p), R) }

  function Front(p: Params): seq<Spec> {
    if p.buildId then [Spec(BUILD_ID, BUILD_ID_SIZE)] else []
  }

  function Middle(p: Params): seq<Spec> {
    (if p.bss != 0 then [Spec(BSS, p.bss)] else []) + (if p.mips then [Spec(ABIFLAGS, ABIFLAGS_SIZE)] else [])
  }

  function Specs(p: Params): seq<Spec> {
    Front(p) + [Spec(RODATA, p.rodata), Spec(TEXT, p.text)] + Middle(p) + Dynamic(p) + p.trailing
  }

  function Dynamic(p: Params): seq<Spec> {
    [Spec(DYNSTR, DynstrSize(p)), Spec(Dynsym(p), DynsymSize(p)), Spec(HASH, HashSize(p)), Spec(DYNAMIC, DynSize(p))]
  }

  // Section numbers, counted from zero.
  function RodataAt(p: Params): nat { |Front(p)| }
  function TextAt(p: Params): nat { RodataAt(p) + 1 }
  function BssAt(p: Params): nat { RodataAt(p) + 2 }
  function DynstrAt(p: Params): nat { RodataAt(p) + 2 + |Middle(p)| }

  lemma SpecsAre(p: Params)
    ensures var ss := Specs(p);
      && DynstrAt(p) + 4 + |p.trailing| == |ss|
      && ss[RodataAt(p)] == Spec(RODATA, p.rodata) && ss[TextAt(p)] == Spec(TEXT, p.text)
      && (p.bss != 0 ==> ss[BssAt(p)] == Spec(BSS, p.bss))
      && (p.mips ==> ss[DynstrAt(p) - 1] == Spec(ABIFLAGS, ABIFLAGS_SIZE))
      && ss[DynstrAt(p)] == Spec(DYNSTR, DynstrSize(p)) && ss[DynstrAt(p) + 1] == Spec(Dynsym(p), DynsymSize(p))
      && ss[DynstrAt(p) + 2] == Spec(HASH, HashSize(p)) && ss[DynstrAt(p) + 3] == Spec(DYNAMIC, DynSize(p))
    ensures p.buildId ==> Specs(p)[0] == Spec(BUILD_ID, BUILD_ID_SIZE)
  {
  }

  // ---------- predicted addresses ----------

  datatype Predicted = Predicted(text: nat, bss: nat, dynstr: nat, dynsym: nat, hash: nat, dynamic: nat,
                                 loadedSize: nat,
                                 textIndex: nat, bssIndex: nat)

  /** Computed once the read-only data section has its address and number, before anything else is written. */
  method PrepareDynamicSection(p: Params, rodataAddress: nat, rodataIndex: nat) returns (r: Predicted)
    ensures r == Prediction(p, rodataAddress, rodataIndex)
  {
    hide RoundUp, DynstrSize, DynsymSize, DynSize;
    var text := RoundUp(rodataAddress + p.rodata, 4096);
    assert text == TextAddress(p, rodataAddress);
    hide TextAddress;
    var bss := RoundUp(text + p.text, 4096);
    assert bss == BssAddress(p, rodataAddress);
    hide BssAddress;
    var abiflags := RoundUp(bss + p.bss, 4096);
    var abiflagsSize := 0;
    if p.mips {
      abiflagsSize := ABIFLAGS_SIZE;
    }
    var dynstr := RoundUp(abiflags + abiflagsSize, 4096);
    assert dynstr == DynstrAddress(p, rodataAddress);
    hide DynstrAddress;
    var dynsym := RoundUp(dynstr + DynstrSize(p), OffSize(p));
    assert dynsym == DynsymAddress(p, rodataAddress);
    hide DynsymAddress, OffSize;
    var hash := RoundUp(dynsym + DynsymSize(p), 4);
    assert hash == HashAddress(p, rodataAddress);
    hide HashAddress;
    var dynamic := RoundUp(hash + DynsymSize(p), 4096);
    r := Predicted(text, bss, dynstr, dynsym, hash, dynamic, RoundUp(dynamic + DynSize(p), 4096),
                   rodataIndex + 1, rodataIndex + 1 + if p.text != 0 then 1 else 0);
  }

  function TextAddress(p: Params, rodata: nat): nat { RoundUp(rodata + p.rodata, 4096) }

  function BssAddress(p: Params, rodata: nat): nat { RoundUp(TextAddress(p, rodata) + p.text, 4096) }

  function DynstrAddress(p: Params, rodata: nat): nat {
    RoundUp(RoundUp(BssAddress(p, rodata) + p.bss, 4096) + if p.mips then ABIFLAGS_SIZE else 0, 4096)
  }

  function DynsymAddress(p: Params, rodata: nat): nat { RoundUp(DynstrAddress(p, rodata) + DynstrSize(p), OffSize(p)) }

  function HashAddress(p: Params, rodata: nat): nat { RoundUp(DynsymAddress(p, rodata) + DynsymSize(p), 4) }

  // The size added here is that of the symbols, not that of the hash section.
  function DynamicAddress(p: Params, rodata: nat): nat { RoundUp(HashAddress(p, rodata) + DynsymSize(p), 4096) }

  function Prediction(p: Params, rodata: nat, rodataIndex: nat): Predicted {
    Predicted(TextAddress(p, rodata), BssAddress(p, rodata), DynstrAddress(p, rodata), DynsymAddress(p, rodata),
      HashAddress(p, rodata),
              DynamicAddress(p, rodata), RoundUp(DynamicAddress(p, rodata) + DynSize(p), 4096),
              rodataIndex + 1, rodataIndex + 1 + if p.text != 0 then 1 else 0)
  }

  // The header written for section `i`.
  function Written(p: Params, i: nat): Header
    requires i < |Specs(p)|
  {
    RunHeaders(p.start, Specs(p), |Specs(p)|);
    Run(p.start, Specs(p), |Specs(p)|).headers[i]
  }

  function Virt(p: Params, i: nat): nat
    requires i <= |Specs(p)|
  {
    Run(p.start, Specs(p), i).virt
  }

  // A loaded section goes to the next aligned address.
  lemma AddressOf(p: Params, i: nat)
    requires i < |Specs(p)| && Specs(p)[i].d.Loaded()
    ensures var h := Written(p, i);
      && h.d == Specs(p)[i].d && h.size == Specs(p)[i].size
      && h.addr == RoundUp(Virt(p, i), h.align) && Virt(p, i + 1) == h.addr + h.size
      && h.align == (if i > 0 && Specs(p)[i - 1].d.flags != Specs(p)[i].d.flags then 4096 else Specs(p)[i].d.align)
  {
    hide RoundUp, Specs;
    HeaderIs(p.start, Specs(p), i, |Specs(p)|);
    RunHeaders(p.start, Specs(p), i);
  }

  lemma PageAddress(p: Params, i: nat)
    requires i < |Specs(p)| && Specs(p)[i].d.Loaded() && Specs(p)[i].d.align == 4096
    ensures var h := Written(p, i);
      && h.align == 4096 && h.d == Specs(p)[i].d && h.size == Specs(p)[i].size
      && h.addr == RoundUp(Virt(p, i), 4096) && Virt(p, i + 1) == h.addr + h.size
  {
    hide RoundUp, Specs, Written, Virt;
    AddressOf(p, i);
  }

  /** What is predicted, from where the read-only data actually starts. */
  function Announced(p: Params): Predicted {
    SpecsAre(p);
    Prediction(p, Written(p, RodataAt(p)).addr, RodataAt(p) + 1)
  }

  /** Where the last loaded section actually ends, in whole pages. */
  function ReachedSize(p: Params): nat {
    SpecsAre(p);
    var dynamic := Written(p, DynstrAt(p) + 3);
    RoundUp(dynamic.addr + dynamic.size, 4096)
  }

  /** With sections of the announced sizes, every predicted address but that of .dynamic is the actual one. */
  lemma PredictionsHold(p: Params)
    requires p.Valid()
    ensures DynstrAt(p) + 4 <= |Specs(p)|
    ensures var r := Announced(p);
      && r.text == Written(p, TextAt(p)).addr && r.textIndex == TextAt(p) + 1
      && (p.bss != 0 ==> r.bss == Written(p, BssAt(p)).addr)
      && r.dynstr == Written(p, DynstrAt(p)).addr
      && r.dynsym == Written(p, DynstrAt(p) + 1).addr
      && r.hash == Written(p, DynstrAt(p) + 2).addr
      && Written(p, DynstrAt(p) + 3).addr == RoundUp(r.hash + HashSize(p), 4096)
      && (p.bss != 0 ==> (r.bssIndex == BssAt(p) + 1 <==> p.text != 0))
  {
    SpecsAre(p);
    FrontPredicted(p);
    BackPredicted(p);
    hide RoundUp, Specs, Written, TextAddress, BssAddress, DynstrAddress, DynsymAddress, HashAddress, DynamicAddress,
         DynSize, HashSize;
  }

  /** Without code the .bss symbols name the empty .text section in front of .bss. */
  lemma EmptyTextMisnumbers(start: nat)
    ensures var p := Params(start, false, false, false, 4096, 0, 4096, 0, 0, 1, []);
      p.Valid() && Announced(p).bssIndex != BssAt(p) + 1
  {
    hide Announced, Specs;
    PredictionsHold(Params(start, false, false, false, 4096, 0, 4096, 0, 0, 1, []));
  }

  lemma FrontPredicted(p: Params)
    requires p.Valid()
    ensures DynstrAt(p) + 4 <= |Specs(p)|
    ensures var rodata := Written(p, RodataAt(p)).addr;
      && TextAddress(p, rodata) == Written(p, TextAt(p)).addr
      && (p.bss != 0 ==> BssAddress(p, rodata) == Written(p, BssAt(p)).addr)
      && DynstrAddress(p, rodata) == Written(p, DynstrAt(p)).addr
      && Virt(p, DynstrAt(p) + 1) == DynstrAddress(p, rodata) + DynstrSize(p)
  {
    SpecsAre(p);
    hide RoundUp, Specs, Written, Virt, Middle, Front, DynstrSize, DynsymSize, HashSize, DynSize;
    PageAddress(p, RodataAt(p));
    PageAddress(p, TextAt(p));
    MiddleEnds(p);
    PageAddress(p, DynstrAt(p));
  }

  lemma BackPredicted(p: Params)
    requires p.Valid()
    ensures DynstrAt(p) + 4 <= |Specs(p)|
    ensures var rodata := Written(p, RodataAt(p)).addr;
      && DynsymAddress(p, rodata) == Written(p, DynstrAt(p) + 1).addr
      && HashAddress(p, rodata) == Written(p, DynstrAt(p) + 2).addr
      && Written(p, DynstrAt(p) + 3).addr == RoundUp(HashAddress(p, rodata) + HashSize(p), 4096)
  {
    hide RoundUp, Specs, Written, Virt, Middle, Front, DynstrSize, DynsymSize, HashSize, DynSize, DynstrAddress;
    LastFour(p);
    var i := DynstrAt(p);
    assert Virt(p, i + 1) == DynstrAddress(p, Written(p, RodataAt(p)).addr) + DynstrSize(p) by { FrontPredicted(p); }
    SameFlagsAddress(p, i + 1);
    SameFlagsAddress(p, i + 2);
    PageAddress(p, i + 3);
  }

  lemma LastFour(p: Params)
    ensures var ss, i := Specs(p), DynstrAt(p);
      && i + 4 <= |ss| && RodataAt(p) < |ss|
      && ss[i].d == DYNSTR && ss[i + 1] == Spec(Dynsym(p), DynsymSize(p))
      && ss[i + 2] == Spec(HASH, HashSize(p)) && ss[i + 3] == Spec(DYNAMIC, DynSize(p))
  {
    SpecsAre(p);
    hide Specs, Front, Middle, DynstrSize, DynsymSize, HashSize;
  }

  lemma SameFlagsAddress(p: Params, i: nat)
    requires 0 < i < |Specs(p)| && Specs(p)[i].d.Loaded() && Specs(p)[i - 1].d.flags == Specs(p)[i].d.flags
    ensures Written(p, i).addr == RoundUp(Virt(p, i), Specs(p)[i].d.align)
    ensures Virt(p, i + 1) == Written(p, i).addr + Specs(p)[i].size
    ensures Written(p, i).align == Specs(p)[i].d.align
  {
    hide RoundUp, Specs, Written, Virt;
    AddressOf(p, i);
  }

  // .bss and .MIPS.abiflags, each of which may be missing.
  lemma MiddleEnds(p: Params)
    requires p.Valid() && TextAt(p) < |Specs(p)| && BssAt(p) <= DynstrAt(p) <= |Specs(p)|
    ensures var bss := RoundUp(Virt(p, BssAt(p)), 4096);
      && (p.bss != 0 ==> BssAt(p) < |Specs(p)| && Written(p, BssAt(p)).addr == bss)
      && RoundUp(Virt(p, DynstrAt(p)), 4096) ==
           RoundUp(RoundUp(bss + p.bss, 4096) + if p.mips then ABIFLAGS_SIZE else 0, 4096)
  {
    SpecsAre(p);
    hide RoundUp, Specs, Written, Virt;
    Idempotent(Virt(p, BssAt(p)));
    if p.bss != 0 {
      PageAddress(p, BssAt(p));
    }
    Idempotent(RoundUp(Virt(p, BssAt(p)), 4096) + p.bss);
    if p.mips {
      PageAddress(p, DynstrAt(p) - 1);
    }
  }

  lemma Idempotent(x: nat)
    ensures RoundUp(RoundUp(x, 4096), 4096) == RoundUp(x, 4096)
    ensures RoundUp(RoundUp(x, 4096) + 0, 4096) == RoundUp(x, 4096)
  {
  }

  // ---------- the loaded size ----------

  lemma RoundUpShifts(x: nat, c: nat)
    requires x % 4096 == 0
    ensures RoundUp(x + c, 4096) == x + RoundUp(c, 4096)
  {
    AddMultiple(x, c, 4096);
  }

  lemma EndIs(p: Params)
    requires p.Valid()
    ensures ReachedSize(p) == RoundUp(RoundUp(Announced(p).hash + HashSize(p), 4096) + DynSize(p), 4096)
  {
    hide Specs, Written, Virt, RoundUp, HashSize, DynSize, Announced, Front, Middle;
    var i := DynstrAt(p) + 3;
    assert i < |Specs(p)| && Written(p, i).addr == RoundUp(Announced(p).hash + HashSize(p), 4096) by {
      PredictionsHold(p);
    }
    assert Written(p, i).size == DynSize(p) by {
      SpecsAre(p);
      PageAddress(p, i);
    }
  }

  /**
   The size announced to the image writer is the one reached at the end exactly when the symbols and
   the hash section would end on the same page.
   */
  lemma LoadedSizeHolds(p: Params)
    requires p.Valid()
    ensures Announced(p).loadedSize == ReachedSize(p)
      <==> RoundUp(Announced(p).hash + DynsymSize(p), 4096) == RoundUp(Announced(p).hash + HashSize(p), 4096)
  {
    hide RoundUp, DynsymSize, HashSize, DynSize, Announced, ReachedSize;
    EndIs(p);
    PredictionParts(p);
    SamePageSameSize(Announced(p).hash + DynsymSize(p), Announced(p).hash + HashSize(p), DynSize(p));
  }

  lemma PredictionParts(p: Params)
    ensures var r := Announced(p);
      && r.dynstr % 4096 == 0
      && r.hash == RoundUp(RoundUp(r.dynstr + DynstrSize(p), OffSize(p)) + DynsymSize(p), 4)
      && r.loadedSize == RoundUp(RoundUp(r.hash + DynsymSize(p), 4096) + DynSize(p), 4096)
  {
    hide DynstrSize, DynsymSize, Written, Specs, DynSize, BssAddress, RoundUp;
  }

  lemma SamePageSameSize(a: nat, b: nat, c: nat)
    ensures RoundUp(RoundUp(a, 4096) + c, 4096) == RoundUp(RoundUp(b, 4096) + c, 4096) <==>
      RoundUp(a, 4096) == RoundUp(b, 4096)
  {
    hide RoundUp;
    RoundUpShifts(RoundUp(a, 4096), c);
    RoundUpShifts(RoundUp(b, 4096), c);
  }

  lemma SizesBounded(p: Params)
    ensures DynstrSize(p) <= 78 + p.soname && 0 < DynsymSize(p) <= 192 && 0 < HashSize(p) <= 44
  {
    BssNamesBounded(p);
    hide Total;
    var a := if p.text != 0 then [8, 12] else if p.rodata != 0 then [12] else [];
    var b := if p.bssMethods != p.bssRoots then [14] else [];
    var c := if p.bssRoots != p.bss then [12] else [];
    var d := if p.bss != 0 then [7] + b + c + [15] else [];
    TotalOfTwo([8] + a, d);
    TotalOfTwo([8], a);
    SmallTotals();
  }

  lemma BssNamesBounded(p: Params)
    ensures var b := if p.bssMethods != p.bssRoots then [14] else [];
      var c := if p.bssRoots != p.bss then [12] else [];
      Total([7] + b + c + [15]) <= 48
  {
    hide Total;
    var b := if p.bssMethods != p.bssRoots then [14] else [];
    var c := if p.bssRoots != p.bss then [12] else [];
    TotalOfTwo([7] + b + c, [15]);
    TotalOfTwo([7] + b, c);
    TotalOfTwo([7], b);
    SmallTotals();
  }

  lemma SmallTotals()
    ensures Total([]) == 0 && forall x :: Total([x]) == x
    ensures Total([8, 12]) == 20
  {
    assert [8, 12][1..] == [12];
  }

  lemma {:induction false} TotalOfTwo(a: seq<nat>, b: seq<nat>)
    ensures Total(a + b) == Total(a) + Total(b)
  {
    if a == [] {
      assert a + b == b;
    } else {
      TotalOfTwo(a[1..], b);
      assert (a + b)[1..] == a[1..] + b;
    }
  }

  /** File names of up to 3000 characters are always short enough. */
  lemma ShortNamesAreFine(p: Params)
    requires p.Valid() && p.soname <= 3000
    ensures Announced(p).loadedSize == ReachedSize(p)
  {
    hide DynstrSize, DynsymSize, HashSize, DynSize, Announced, ReachedSize, RoundUp;
    LoadedSizeHolds(p);
    SizesBounded(p);
    PredictionParts(p);
    ShortNameEnds(Announced(p).dynstr, DynstrSize(p), OffSize(p), DynsymSize(p), HashSize(p));
  }

  lemma ShortNameEnds(dynstr: nat, names: nat, align: pos, symbols: nat, hash: nat)
    requires dynstr % 4096 == 0 && names <= 3078 && align <= 8 && 0 < symbols <= 192 && 0 < hash <= 44
    ensures var at := RoundUp(RoundUp(dynstr + names, align) + symbols, 4);
      RoundUp(at + symbols, 4096) == RoundUp(at + hash, 4096)
  {
    hide RoundUp;
    var at := RoundUp(RoundUp(dynstr + names, align) + symbols, 4);
    OnePage(dynstr, at + symbols);
    OnePage(dynstr, at + hash);
  }

  lemma OnePage(start: nat, end: nat)
    requires start % 4096 == 0 && start < end <= start + 4096
    ensures RoundUp(end, 4096) == start + 4096
  {
    RoundUpShifts(start, end - start);
  }

  /** With a name of 3972 characters the two ends fall on different pages and the builder aborts. */
  lemma LongNameFails(start: nat)
    ensures var p := Params(start, false, false, false, 4096, 4096, 0, 0, 0, 3972, []);
      p.Valid() && Announced(p).loadedSize != ReachedSize(p)
  {
    var p := Params(start, false, false, false, 4096, 4096, 0, 0, 0, 3972, []);
    LongNameSizes(p);
    hide DynstrSize, DynsymSize, HashSize, Announced, ReachedSize, RoundUp;
    LoadedSizeHolds(p);
    PredictionParts(p);
    LongNameEnds(Announced(p).dynstr);
  }

  lemma LongNameSizes(p: Params)
    requires !p.wide && p.text != 0 && p.bss == 0 && p.soname == 3972
    ensures DynstrSize(p) == 4002 && DynsymSize(p) == 64 && HashSize(p) == 28
  {
    assert Names(p) == [8] + [8, 12];
    TotalOfTwo([8], [8, 12]);
    SmallTotals();
  }

  lemma LongNameEnds(dynstr: nat)
    requires dynstr % 4096 == 0
    ensures var hash := RoundUp(RoundUp(dynstr + 4002, 4) + 64, 4);
      RoundUp(hash + 64, 4096) != RoundUp(hash + 28, 4096)
  {
    assert RoundUp(dynstr + 4002, 4) == dynstr + 4004;
    assert RoundUp(dynstr + 4004 + 64, 4) == dynstr + 4068;
    RoundUpShifts(dynstr, 4068 + 64);
    RoundUpShifts(dynstr, 4068 + 28);
  }

  // ---------- the writer ----------

  lemma RunAppend(start: nat, specs: seq<Spec>, more: Spec)
    ensures Run(start, specs + [more], |specs| + 1) == Step(Run(start, specs, |specs|), more.d, more.size)
  {
    RunPrefix(start, specs, specs + [more], |specs|);
  }

  lemma {:induction false} RunPrefix(start: nat, a: seq<Spec>, b: seq<Spec>, n: nat)
    requires n <= |a| <= |b| && a == b[..|a|]
    ensures Run(start, a, n) == Run(start, b, n)
  {
    hide Step;
    if n > 0 { RunPrefix(start, a, b, n - 1); }
  }

  // Writes one more section and keeps track of what has been written.
  method Put(b: Builder, start: nat, ghost done: seq<Spec>, s: Spec) returns (ghost now: seq<Spec>)
    requires !b.open && b.S() == Run(start, done, |done|)
    modifies b
    ensures !b.open && now == done + [s] && b.S() == Run(start, now, |now|)
  {
    hide Step, Run;
    RunAppend(start, done, s);
    b.WriteSection(s.d, s.size);
    now := done + [s];
  }

  // The section without contents and the one for MIPS are optional.
  method WriteMiddle(p: Params, b: Builder, ghost done: seq<Spec>) returns (ghost now: seq<Spec>)
    requires !b.open && b.S() == Run(p.start, done, |done|)
    modifies b
    ensures !b.open && now == done + Middle(p) && b.S() == Run(p.start, now, |now|)
  {
    hide Run;
    now := done;
    if p.bss != 0 {
      now := Put(b, p.start, now, Spec(BSS, p.bss));
    }
    if p.mips {
      now := Put(b, p.start, now, Spec(ABIFLAGS, ABIFLAGS_SIZE));
    }
  }

  method WriteDynamicSection(p: Params, b: Builder, ghost done: seq<Spec>) returns (ghost now: seq<Spec>)
    requires !b.open && b.S() == Run(p.start, done, |done|)
    modifies b
    ensures !b.open && now == done + Dynamic(p) && b.S() == Run(p.start, now, |now|)
  {
    hide Run, DynstrSize, DynsymSize, HashSize, DynSize;
    now := Put(b, p.start, done, Spec(DYNSTR, DynstrSize(p)));
    now := Put(b, p.start, now, Spec(Dynsym(p), DynsymSize(p)));
    now := Put(b, p.start, now, Spec(HASH, HashSize(p)));
    now := Put(b, p.start, now, Spec(DYNAMIC, DynSize(p)));
  }

  method WriteTrailing(p: Params, b: Builder, ghost done: seq<Spec>) returns (ghost now: seq<Spec>)
    requires !b.open && b.S() == Run(p.start, done, |done|)
    modifies b
    ensures !b.open && now == done + p.trailing && b.S() == Run(p.start, now, |now|)
  {
    hide Run;
    now := done;
    for i := 0 to |p.trailing|
      invariant !b.open && now == done + p.trailing[..i] && b.S() == Run(p.start, now, |now|)
    {
      now := Put(b, p.start, now, p.trailing[i]);
    }
  }

  /** The writer's calls, in order: the sections are those of `Specs`. */
  method WriteSections(p: Params) returns (b: Builder)
    ensures fresh(b) && !b.open && b.S() == Run(p.start, Specs(p), |Specs(p)|)
  {
    hide Run, Middle, Dynamic;
    b := new Builder(p.start);
    ghost var done: seq<Spec> := [];
    assert b.S() == Run(p.start, done, 0) by { NothingRun(p.start, done); }
    if p.buildId {
      done := Put(b, p.start, done, Spec(BUILD_ID, BUILD_ID_SIZE));
    }
    assert done == Front(p);
    done := Put(b, p.start, done, Spec(RODATA, p.rodata));
    done := Put(b, p.start, done, Spec(TEXT, p.text));
    assert done == Front(p) + [Spec(RODATA, p.rodata), Spec(TEXT, p.text)];
    hide Front;
    done := WriteMiddle(p, b, done);
    done := WriteDynamicSection(p, b, done);
    done := WriteTrailing(p, b, done);
  }

  lemma NothingRun(start: nat, specs: seq<Spec>)
    ensures Run(start, specs, 0) == State([], start, start)
  {
  }

  lemma KindOf(p: Params, i: nat)
    requires p.Valid() && i < |Specs(p)|
    ensures var s := Specs(p)[i];
      && s.d.Valid() && (s.d.Loaded() <==> i < DynstrAt(p) + 4)
      && (s.d.nobits ==> i == BssAt(p) && s.size > 0)
      && (BssAt(p) < i <= DynstrAt(p) ==> s.d.align == 4096)
      && (BssAt(p) < DynstrAt(p) || !s.d.nobits)
  {
    hide DynstrSize, DynsymSize, HashSize, DynSize;
    var k := i - (DynstrAt(p) + 4);
    if k >= 0 {
      assert Specs(p)[i] == p.trailing[k];
    }
  }

  lemma WriterIsWellOrdered(p: Params)
    requires p.Valid()
    ensures WellOrdered(Specs(p))
  {
    hide Specs, DynstrAt, BssAt;
    var ss := Specs(p);
    forall i | 0 <= i < |ss|
      ensures ss[i].d.Valid() && (ss[i].d.Loaded() <==> i < DynstrAt(p) + 4)
      ensures ss[i].d.nobits ==> i == BssAt(p) < DynstrAt(p) && ss[i].size > 0
      ensures BssAt(p) < i <= DynstrAt(p) ==> ss[i].d.align == 4096
    {
      KindOf(p, i);
    }
  }

  // The segments made from the first `i` sections.
  function Made(p: Params, i: nat): (ls: seq<Load>)
    requires i <= |Specs(p)|
    ensures ls != []
  {
    RunHeaders(p.start, Specs(p), |Specs(p)|);
    Loads(p.start, Run(p.start, Specs(p), |Specs(p)|).headers, i)
  }

  lemma MadeNext(p: Params, i: nat)
    requires i < |Specs(p)|
    ensures Made(p, i + 1) == Add(Made(p, i), Written(p, i)) && Made(p, 0) == [First(p.start)]
  {
    hide Run, Specs, Add;
    RunHeaders(p.start, Specs(p), |Specs(p)|);
  }

  // After a readable section with contents, another one extends the same segment.
  lemma Continues(ls: seq<Load>, a: Header, b: Header)
    requires ls != [] && Mapped(a) && !a.d.nobits && !b.d.nobits && a.d.access == b.d.access
    ensures StartsPage(Add(ls, a), b)
  {
  }

  lemma SectionStartsPage(p: Params, i: nat)
    requires p.Valid() && i < |Specs(p)|
    ensures StartsPage(Made(p, i), Written(p, i))
  {
    hide Specs, Made, Written, Virt, RoundUp, Merges;
    if !Specs(p)[i].d.Loaded() {
      NotLoadedIs(p, i);
    } else if Specs(p)[i].d.align == 4096 {
      PageAddress(p, i);
    } else {
      SmallStartsPage(p, i);
    }
  }

  lemma SmallStartsPage(p: Params, i: nat)
    requires p.Valid() && i < |Specs(p)| && Specs(p)[i].d.Loaded() && Specs(p)[i].d.align != 4096
    ensures StartsPage(Made(p, i), Written(p, i))
  {
    hide Specs, Made, Written, Virt, RoundUp, Add;
    SmallAligns(p, i);
    AddressOf(p, i);
    if i == 0 {
      MadeNext(p, i);
    } else {
      AddressOf(p, i - 1);
      MadeNext(p, i - 1);
      Continues(Made(p, i - 1), Written(p, i - 1), Written(p, i));
    }
  }

  lemma NotLoadedIs(p: Params, i: nat)
    requires i < |Specs(p)| && !Specs(p)[i].d.Loaded()
    ensures !Written(p, i).d.Loaded()
  {
    hide Specs, Run;
    RunHeaders(p.start, Specs(p), |Specs(p)|);
  }

  // Sections that do not ask for a page: the build id, the symbols and the hash table.
  lemma SmallAligns(p: Params, i: nat)
    requires p.Valid() && i < |Specs(p)| && Specs(p)[i].d.Loaded() && Specs(p)[i].d.align != 4096
    ensures Specs(p)[i].d.access == R && !Specs(p)[i].d.nobits
    ensures i > 0 ==> var s := Specs(p)[i - 1]; s.d.access == R && s.d.Loaded() && !s.d.nobits && s.size > 0
  {
    KindOf(p, i);
    SizesBounded(p);
    hide DynsymSize, HashSize, DynSize;
  }

  /** In the writer's order the check on the start of a segment never fires. */
  lemma WriterNeverAborts(p: Params)
    requires p.Valid()
    ensures AllChecked(p.start, Run(p.start, Specs(p), |Specs(p)|).headers)
  {
    hide Specs, Run, StartsPage, Loads;
    var hs := Run(p.start, Specs(p), |Specs(p)|).headers;
    RunHeaders(p.start, Specs(p), |Specs(p)|);
    forall i | 0 <= i < |hs|
      ensures StartsPage(Loads(p.start, hs, i), hs[i])
    {
      SectionStartsPage(p, i);
    }
  }

  /** So every oat file has congruent, ascending segments that map each section at its address. */
  lemma OatSegmentsAreRight(p: Params)
    requires p.Valid()
    ensures var s := Run(p.start, Specs(p), |Specs(p)|); var ls := Loads(p.start, s.headers, |s.headers|);
      && (forall k :: 0 <= k < |ls| ==> ls[k].align == 4096 && ls[k].offset % ls[k].align == ls[k].vaddr % ls[k].align)
      && (forall k :: 0 <= k < |ls| - 1 ==> ls[k].vaddr + ls[k].memsz <= ls[k + 1].vaddr)
      && (forall i :: 0 <= i < |s.headers| && Mapped(s.headers[i]) ==> Covered(ls, s.headers[i]))
  {
    hide Specs, Run, Loads, Covered, AllChecked, WellOrdered;
    WriterIsWellOrdered(p);
    WriterNeverAborts(p);
    SegmentsAreRight(p.start, Specs(p));
  }
}
