/** Program headers: loadable segments merged from the sections that were written. */
module ElfSegments {
  import opened Align
  import opened ElfSections

  datatype Load = Load(access: Access, offset: int, vaddr: int, filesz: int, memsz: int, align: int) {
    predicate Bss() { filesz != memsz }
  }

  function LoadOf(h: Header): Load {
    Load(h.d.access, h.offset, h.addr, if h.d.nobits then 0 else h.size, h.size, h.align)
  }

  predicate Merges(prev: Load, l: Load) {
    prev.access == l.access && !prev.Bss() && !l.Bss()
  }

  predicate Mapped(h: Header) { h.d.Loaded() && h.size != 0 }

  function Extend(prev: Load, h: Header): Load {
    var size := h.offset + h.size - prev.offset;
    prev.(filesz := size, memsz := size)
  }

  function Add(ls: seq<Load>, h: Header): (r: seq<Load>)
    requires ls != []
    ensures r != []
  {
    var last := ls[|ls| - 1];
    if !Mapped(h) then ls
    else if Merges(last, LoadOf(h)) then ls[..|ls| - 1] + [Extend(last, h)]
    else ls + [LoadOf(h)]
  }

  // The file header and room for the program headers are mapped first.
  function First(start: nat): Load { Load(R, 0, 0, start, start, 4096) }

  function Loads(start: nat, hs: seq<Header>, n: nat): (ls: seq<Load>)
    requires n <= |hs|
    ensures ls != []
  {
    if n == 0 then [First(start)] else Add(Loads(start, hs, n - 1), hs[n - 1])
  }

  // A section that starts a segment must start a page.
  predicate StartsPage(ls: seq<Load>, h: Header)
    requires ls != []
  {
    Mapped(h) && !Merges(ls[|ls| - 1], LoadOf(h)) ==> h.align == 4096
  }

  ghost predicate Checked(start: nat, hs: seq<Header>, n: nat)
    requires n <= |hs|
  {
    forall i :: 0 <= i < n ==> StartsPage(Loads(start, hs, i), hs[i])
  }

  ghost predicate AllChecked(start: nat, hs: seq<Header>) { Checked(start, hs, |hs|) }

  lemma NothingYet(start: nat, hs: seq<Header>)
    ensures Loads(start, hs, 0) == [First(start)] && Checked(start, hs, 0)
  {
  }

  lemma NextLoad(start: nat, hs: seq<Header>, i: nat)
    requires i < |hs| && Checked(start, hs, i)
    ensures Loads(start, hs, i + 1) == Add(Loads(start, hs, i), hs[i])
    ensures StartsPage(Loads(start, hs, i), hs[i]) ==> Checked(start, hs, i + 1)
  {
    hide Add, StartsPage;
  }

  lemma CheckFails(start: nat, hs: seq<Header>, i: nat)
    requires i < |hs| && !StartsPage(Loads(start, hs, i), hs[i])
    ensures !AllChecked(start, hs)
  {
    hide Loads, StartsPage;
  }

  /** The loop over the written sections; `ok` is false where the builder would abort. */
  method MakeProgramHeaders(start: nat, hs: seq<Header>) returns (ok: bool, ls: seq<Load>)
    ensures ok <==> AllChecked(start, hs)
    ensures ok ==> ls == Loads(start, hs, |hs|)
  {
    ls := [First(start)];
    hide Loads, Checked;
    NothingYet(start, hs);
    for i := 0 to |hs|
      invariant ls == Loads(start, hs, i) && Checked(start, hs, i)
    {
      NextLoad(start, hs, i);
      var h := hs[i];
      if h.d.Loaded() && h.size != 0 {
        var prev, load := ls[|ls| - 1], LoadOf(h);
        if prev.access == load.access && prev.filesz == prev.memsz && load.filesz == load.memsz {
          var size := h.offset + h.size - prev.offset;
          ls := ls[..|ls| - 1] + [prev.(filesz := size, memsz := size)];
        } else {
          if h.align != PAGE_SIZE {
            CheckFails(start, hs, i);
            return false, ls;
          }
          ls := ls + [load];
        }
      }
    }
    ok := true;
  }

  // ---------- what the segments look like ----------

  /** The segment puts the section's bytes at the section's address. */
  ghost predicate Covers(l: Load, h: Header) {
    && l.access == h.d.access
    && l.vaddr <= h.addr && h.addr + h.size <= l.vaddr + l.memsz
    && (!h.d.nobits ==>
          l.offset <= h.offset && h.offset + h.size <= l.offset + l.filesz && h.addr - h.offset == l.vaddr - l.offset)
  }

  ghost predicate Congruent(l: Load) {
    l.offset % 4096 == l.vaddr % 4096 && l.align == 4096 && 0 <= l.filesz <= l.memsz
  }

  ghost predicate SegmentsOk(ls: seq<Load>, virt: nat) {
    && ls != []
    && (forall k :: 0 <= k < |ls| ==> Congruent(ls[k]))
    && (forall k :: 0 <= k < |ls| - 1 ==> ls[k].vaddr + ls[k].memsz <= ls[k + 1].vaddr)
    && ls[|ls| - 1].vaddr + ls[|ls| - 1].memsz <= virt
  }

  ghost predicate AllCovered(ls: seq<Load>, hs: seq<Header>, n: nat)
    requires n <= |hs|
  {
    forall i :: 0 <= i < n && Mapped(hs[i]) ==> Covered(ls, hs[i])
  }

  ghost predicate Covered(ls: seq<Load>, h: Header) {
    exists k :: 0 <= k < |ls| && Covers(ls[k], h)
  }

  // The last segment, unless it has no file contents, maps at the cursors' current distance.
  ghost predicate AtDistance(ls: seq<Load>, s: State) {
    ls != [] && (!ls[|ls| - 1].Bss() ==> s.virt - s.file == ls[|ls| - 1].vaddr - ls[|ls| - 1].offset)
  }

  lemma AddMapped(ls: seq<Load>, s: State, h: Header, n: State)
    requires SegmentsOk(ls, s.virt) && AtDistance(ls, s) && StartsPage(ls, h) && Mapped(h) && !h.d.nobits
    requires s.virt <= h.addr && n.virt == h.addr + h.size && n.file == h.offset + h.size
    requires h.offset % 4096 == h.addr % 4096
    requires !ls[|ls| - 1].Bss() ==> h.addr - h.offset == s.virt - s.file
    ensures SegmentsOk(Add(ls, h), n.virt) && AtDistance(Add(ls, h), n) && Covered(Add(ls, h), h)
  {
    var r := Add(ls, h);
    assert Covers(r[|r| - 1], h);
    assert forall k :: 0 <= k < |r| - 1 ==> r[k] == ls[k];
  }

  lemma AddBss(ls: seq<Load>, s: State, h: Header, n: State)
    requires SegmentsOk(ls, s.virt) && StartsPage(ls, h) && Mapped(h) && h.d.nobits && h.offset == 0
    requires s.virt <= h.addr && n.virt == h.addr + h.size && h.addr % h.align == 0
    ensures SegmentsOk(Add(ls, h), n.virt) && AtDistance(Add(ls, h), n) && Covered(Add(ls, h), h)
  {
    var r := Add(ls, h);
    assert Covers(r[|r| - 1], h);
    assert forall k :: 0 <= k < |r| - 1 ==> r[k] == ls[k];
  }

  // Sections covered before stay covered.
  lemma StillCovered(ls: seq<Load>, s: State, h: Header, old_: Header)
    requires SegmentsOk(ls, s.virt) && AtDistance(ls, s) && Covered(ls, old_)
    requires Mapped(h) && !h.d.nobits && !ls[|ls| - 1].Bss() ==>
      h.addr - h.offset == s.virt - s.file && s.virt <= h.addr
    ensures Covered(Add(ls, h), old_)
  {
    var k :| 0 <= k < |ls| && Covers(ls[k], old_);
    assert Covers(Add(ls, h)[k], old_);
  }

  lemma {:induction false} HeaderIs(start: nat, specs: seq<Spec>, i: nat, n: nat)
    requires i < n <= |specs|
    ensures i < |Run(start, specs, n).headers| == n
    ensures Run(start, specs, n).headers[i] == Place(Run(start, specs, i), specs[i].d, specs[i].size)
    decreases n
  {
    hide Place;
    RunHeaders(start, specs, n);
    RunHeaders(start, specs, n - 1);
    StepHeaders(Run(start, specs, n - 1), specs[n - 1].d, specs[n - 1].size);
    hide Step;
    if i < n - 1 {
      HeaderIs(start, specs, i, n - 1);
    }
  }

  lemma StepHeaders(s: State, d: Desc, size: nat)
    ensures Step(s, d, size).headers == s.headers + [Place(s, d, size)]
  {
    hide Place;
  }

  // What one loaded section contributes.
  lemma SegmentStep(start: nat, specs: seq<Spec>, n: nat, ls: seq<Load>)
    requires n < |specs| && WellOrdered(specs) && specs[n].d.Loaded()
    requires var s := Run(start, specs, n);
      SegmentsOk(ls, s.virt) && AtDistance(ls, s) && StartsPage(ls, Place(s, specs[n].d, specs[n].size))
    requires n > 0 && specs[n - 1].d.nobits ==> ls[|ls| - 1].Bss()
    ensures var s, h, m := Run(start, specs, n), Place(Run(start, specs, n), specs[n].d, specs[n].size),
      Run(start, specs, n + 1);
      && SegmentsOk(Add(ls, h), m.virt) && AtDistance(Add(ls, h), m)
      && (Mapped(h) ==> Covered(Add(ls, h), h))
      && (forall o :: Covered(ls, o) ==> Covered(Add(ls, h), o))
      && (specs[n].d.nobits ==> Add(ls, h)[|Add(ls, h)| - 1].Bss())
  {
    var s, d, size := Run(start, specs, n), specs[n].d, specs[n].size;
    var h, m := Place(s, d, size), Step(s, d, size);
    assert h.addr >= s.virt && h.d == d && h.size == size && h.addr % h.align == 0;
    assert m.virt == h.addr + size && (d.nobits ==> h.offset == 0) && (!d.nobits ==> m.file == h.offset + size);
    hide RoundUp, SegmentsOk, Covered;
    ReadyFor(start, specs, n);
    if d.nobits {
      hide Place;
      AddBss(ls, s, h, m);
    } else {
      StepAligned(s, d, size);
      if InStep(specs, n) {
        assert h.addr - h.offset == s.virt - s.file;
      } else {
        assert n > 0 && specs[n - 1].d.Loaded();
      }
      hide Place;
      if Mapped(h) {
        AddMapped(ls, s, h, m);
      } else {
        AddEmpty(ls, s, m);
      }
    }
    forall o | Covered(ls, o)
      ensures Covered(Add(ls, h), o)
    {
      StillCovered(ls, s, h, o);
    }
  }

  lemma AddEmpty(ls: seq<Load>, s: State, m: State)
    requires SegmentsOk(ls, s.virt) && s.virt <= m.virt
    ensures SegmentsOk(ls, m.virt)
  {
  }

  ghost predicate LastIsBss(specs: seq<Spec>, n: nat, ls: seq<Load>)
    requires n <= |specs|
  {
    ls != [] && (n > 0 && specs[n - 1].d.nobits ==> ls[|ls| - 1].Bss())
  }

  // The segments made from the first `n` sections.
  ghost predicate SegmentsAt(start: nat, specs: seq<Spec>, n: nat)
    requires n <= |specs|
  {
    var hs := Run(start, specs, |specs|).headers;
    && |hs| == |specs|
    && var ls, s := Loads(start, hs, n), Run(start, specs, n);
       && SegmentsOk(ls, s.virt)
       && AllCovered(ls, hs, n)
       && (n == 0 || specs[n - 1].d.Loaded() ==> AtDistance(ls, s) && LastIsBss(specs, n, ls))
  }

  lemma SegmentsStart(start: nat, specs: seq<Spec>)
    ensures SegmentsAt(start, specs, 0)
  {
    RunHeaders(start, specs, |specs|);
  }

  lemma SegmentsNext(start: nat, specs: seq<Spec>, n: nat)
    requires n < |specs| && WellOrdered(specs) && SegmentsAt(start, specs, n)
    requires AllChecked(start, Run(start, specs, |specs|).headers)
    ensures SegmentsAt(start, specs, n + 1)
  {
    hide SegmentsOk, AtDistance, Covered, Place, Add, StartsPage, WellOrdered, RoundUp;
    var hs := Run(start, specs, |specs|).headers;
    var ls, s := Loads(start, hs, n), Run(start, specs, n);
    HeaderIs(start, specs, n, |specs|);
    assert StartsPage(ls, hs[n]);
    PlaceKeeps(s, specs[n].d, specs[n].size);
    if specs[n].d.Loaded() {
      LoadedBefore(specs, n);
      SegmentStep(start, specs, n, ls);
    } else {
      NotMapped(ls, hs[n]);
    }
  }

  lemma PlaceKeeps(s: State, d: Desc, size: nat)
    ensures Place(s, d, size).d == d && Place(s, d, size).size == size
    ensures !d.Loaded() ==> Step(s, d, size).virt == s.virt
  {
  }

  lemma LoadedBefore(specs: seq<Spec>, n: nat)
    requires n < |specs| && WellOrdered(specs) && specs[n].d.Loaded()
    ensures n == 0 || specs[n - 1].d.Loaded()
  {
  }

  lemma NotMapped(ls: seq<Load>, h: Header)
    requires ls != [] && !h.d.Loaded()
    ensures Add(ls, h) == ls
  {
  }

  lemma {:induction false} SegmentsUpTo(start: nat, specs: seq<Spec>, n: nat)
    requires n <= |specs| && WellOrdered(specs) && AllChecked(start, Run(start, specs, |specs|).headers)
    ensures SegmentsAt(start, specs, n)
  {
    hide SegmentsAt, AllChecked;
    if n == 0 {
      SegmentsStart(start, specs);
    } else {
      SegmentsUpTo(start, specs, n - 1);
      SegmentsNext(start, specs, n - 1);
    }
  }

  /**
   For sections in a sensible order: every segment's file offset and address agree modulo the page
   size, segments ascend in memory without overlap, and every loaded section is mapped by one of
   them at its own address.
   */
  lemma SegmentsAreRight(start: nat, specs: seq<Spec>)
    requires WellOrdered(specs) && AllChecked(start, Run(start, specs, |specs|).headers)
    ensures var s := Run(start, specs, |specs|); var ls := Loads(start, s.headers, |s.headers|);
      && (forall k :: 0 <= k < |ls| ==> ls[k].align == 4096 && ls[k].offset % ls[k].align == ls[k].vaddr % ls[k].align)
      && (forall k :: 0 <= k < |ls| - 1 ==> ls[k].vaddr + ls[k].memsz <= ls[k + 1].vaddr)
      && (forall i :: 0 <= i < |s.headers| && Mapped(s.headers[i]) ==> Covered(ls, s.headers[i]))
  {
    hide WellOrdered, AllChecked, Covered, Run, Loads;
    SegmentsUpTo(start, specs, |specs|);
    var s := Run(start, specs, |specs|);
    var ls := Loads(start, s.headers, |s.headers|);
    assert forall k :: 0 <= k < |ls| ==> Congruent(ls[k]);
  }

  // ---------- segments hold nothing but sections ----------

  // A segment begins with the file or with a section, whose permissions it has.
  ghost predicate Begins(l: Load, hs: seq<Header>, n: nat)
    requires n <= |hs|
  {
    || (l.offset == l.vaddr == 0 && l.access == R)
    || exists i :: 0 <= i < n && BeginsWith(l, hs[i])
  }

  ghost predicate BeginsWith(l: Load, h: Header) {
    Mapped(h) && l.vaddr == h.addr && l.offset == h.offset && l.access == h.d.access
  }

  // It ends with the headers or with a section; one without file contents is all there is of its segment.
  ghost predicate Ends(l: Load, start: nat, hs: seq<Header>, n: nat)
    requires n <= |hs|
  {
    || (l.offset == 0 && l.filesz == l.memsz == start)
    || exists i :: 0 <= i < n && EndsWith(l, hs[i])
  }

  ghost predicate EndsWith(l: Load, h: Header) {
    && Mapped(h)
    && if h.d.nobits then l.filesz == 0 && l.memsz == h.size && l.vaddr == h.addr
       else l.filesz == l.memsz && l.offset + l.filesz == h.offset + h.size
  }

  lemma BeginsStays(l: Load, hs: seq<Header>, n: nat)
    requires n < |hs| && Begins(l, hs, n)
    ensures Begins(l, hs, n + 1)
  {
    if i :| 0 <= i < n && BeginsWith(l, hs[i]) { assert i < n + 1; }
  }

  lemma EndsStays(l: Load, start: nat, hs: seq<Header>, n: nat)
    requires n < |hs| && Ends(l, start, hs, n)
    ensures Ends(l, start, hs, n + 1)
  {
    if i :| 0 <= i < n && EndsWith(l, hs[i]) { assert i < n + 1; }
  }

  ghost predicate Exact(l: Load, start: nat, hs: seq<Header>, n: nat)
    requires n <= |hs|
  {
    Begins(l, hs, n) && Ends(l, start, hs, n)
  }

  lemma ExactStays(l: Load, start: nat, hs: seq<Header>, n: nat)
    requires n < |hs| && Exact(l, start, hs, n)
    ensures Exact(l, start, hs, n + 1)
  {
    hide Begins, Ends;
    BeginsStays(l, hs, n);
    EndsStays(l, start, hs, n);
  }

  // Whatever a section does to the segments.
  lemma AddIsExact(was: seq<Load>, start: nat, hs: seq<Header>, n: nat, k: nat)
    requires was != [] && n < |hs| && k < |Add(was, hs[n])| && forall j :: 0 <= j < |was| ==> Exact(was[j], start, hs, n)
    ensures Exact(Add(was, hs[n])[k], start, hs, n + 1)
  {
    var h, last := hs[n], was[|was| - 1];
    hide Exact, Extend, LoadOf, Merges;
    ExactStays(last, start, hs, n);
    if k < |was| { ExactStays(was[k], start, hs, n); }
    if Mapped(h) && k == |Add(was, h)| - 1 {
      if Merges(last, LoadOf(h)) { MergedIsExact(last, start, hs, n); } else { NewIsExact(start, hs, n); }
    }
  }

  /** Every segment begins where a section or the file begins, and ends where one ends. */
  lemma {:induction false} LoadsAreSections(start: nat, hs: seq<Header>, n: nat, k: nat)
    requires n <= |hs| && k < |Loads(start, hs, n)|
    ensures Begins(Loads(start, hs, n)[k], hs, n) && Ends(Loads(start, hs, n)[k], start, hs, n)
    decreases n
  {
    if n == 0 {
      FirstIsExact(start, hs);
    } else {
      hide Begins, Ends, Add;
      var was := Loads(start, hs, n - 1);
      forall j | 0 <= j < |was|
        ensures Exact(was[j], start, hs, n - 1)
      {
        LoadsAreSections(start, hs, n - 1, j);
      }
      AddIsExact(was, start, hs, n - 1, k);
    }
  }

  lemma FirstIsExact(start: nat, hs: seq<Header>)
    ensures Begins(First(start), hs, 0) && Ends(First(start), start, hs, 0)
  {
  }

  lemma MergedIsExact(l: Load, start: nat, hs: seq<Header>, i: nat)
    requires i < |hs| && Mapped(hs[i]) && Merges(l, LoadOf(hs[i])) && Exact(l, start, hs, i + 1)
    ensures Exact(Extend(l, hs[i]), start, hs, i + 1)
  {
    var e := Extend(l, hs[i]);
    if j :| 0 <= j < i + 1 && BeginsWith(l, hs[j]) { assert BeginsWith(e, hs[j]); }
    assert EndsWith(e, hs[i]);
  }

  lemma NewIsExact(start: nat, hs: seq<Header>, i: nat)
    requires i < |hs| && Mapped(hs[i])
    ensures Exact(LoadOf(hs[i]), start, hs, i + 1)
  {
    assert BeginsWith(LoadOf(hs[i]), hs[i]) && EndsWith(LoadOf(hs[i]), hs[i]);
  }

  // ---------- where sections are ----------

  lemma PageMultiple(x: nat, a: pos)
    requires x % 4096 == 0 && (a == 1 || a == 4 || a == 8 || a == 4096)
    ensures x % a == 0
  {
    var q := x / 4096;
    assert x == 4096 * q;
    if a == 4 {
      MultipleHasNoRemainder(1024 * q, 4);
    } else if a == 8 {
      MultipleHasNoRemainder(512 * q, 8);
    }
  }

  lemma {:induction false} CursorsGrow(start: nat, specs: seq<Spec>, m: nat, n: nat)
    requires m <= n <= |specs|
    ensures Run(start, specs, m).file <= Run(start, specs, n).file
    ensures Run(start, specs, m).virt <= Run(start, specs, n).virt
    decreases n - m
  {
    hide RoundUp;
    if m < n { CursorsGrow(start, specs, m, n - 1); }
  }

  /**
   Sections are aligned in the file and in memory as they ask to be, start a page where the flags
   change, and follow each other without overlap; what is not loaded has no address and what has no
   contents no place in the file.
   */
  lemma SectionsInPlace(start: nat, specs: seq<Spec>, i: nat)
    requires i < |specs| && specs[i].d.Valid()
    ensures |Run(start, specs, |specs|).headers| == |specs|
    ensures var hs := Run(start, specs, |specs|).headers; var h, d := hs[i], specs[i].d;
      && h.d == d && h.size == specs[i].size
      && (if d.flags != NotLoaded then h.addr % d.align == 0 else h.addr == 0)
      && (if d.nobits then h.offset == 0 else h.offset % d.align == 0)
      && (i > 0 && specs[i - 1].d.flags != d.flags ==> h.addr % 4096 == 0 && h.offset % 4096 == 0)
  {
    hide RoundUp, Run;
    RunHeaders(start, specs, |specs|);
    HeaderIs(start, specs, i, |specs|);
    RunHeaders(start, specs, i);
    PlaceAligned(Run(start, specs, i), specs[i].d, specs[i].size);
  }

  lemma PlaceAligned(s: State, d: Desc, size: nat)
    requires d.Valid()
    ensures var h := Place(s, d, size);
      && h.d == d && h.size == size
      && (if d.flags != NotLoaded then h.addr % d.align == 0 else h.addr == 0)
      && (if d.nobits then h.offset == 0 else h.offset % d.align == 0)
      && (s.headers != [] && s.headers[|s.headers| - 1].d.flags != d.flags ==>
            h.addr % 4096 == 0 && h.offset % 4096 == 0)
  {
    var h := Place(s, d, size);
    hide RoundUp;
    if h.align == 4096 {
      PageMultiple(h.addr, d.align);
      PageMultiple(h.offset, d.align);
    }
  }

  // A section is behind everything before it and in front of everything after it.
  ghost predicate Between(s: State, h: Header, n: State) {
    && (!h.d.nobits ==> s.file <= h.offset && h.offset + h.size <= n.file)
    && (h.d.Loaded() ==> s.virt <= h.addr && h.addr + h.size <= n.virt)
  }

  lemma StepPasses(start: nat, specs: seq<Spec>, i: nat)
    requires i < |specs|
    ensures var s := Run(start, specs, i); var h := Place(s, specs[i].d, specs[i].size);
      h.d == specs[i].d && Between(s, h, Run(start, specs, i + 1))
  {
    hide RoundUp;
  }

  lemma SectionsApart(start: nat, specs: seq<Spec>, i: nat, j: nat)
    requires i < j < |specs|
    ensures |Run(start, specs, |specs|).headers| == |specs|
    ensures var hs := Run(start, specs, |specs|).headers;
      && (!specs[i].d.nobits && !specs[j].d.nobits ==> hs[i].offset + hs[i].size <= hs[j].offset)
      && (specs[i].d.Loaded() && specs[j].d.Loaded() ==> hs[i].addr + hs[i].size <= hs[j].addr)
  {
    hide RoundUp, Place, Run;
    HeaderIs(start, specs, i, |specs|);
    HeaderIs(start, specs, j, |specs|);
    StepPasses(start, specs, i);
    StepPasses(start, specs, j);
    CursorsGrow(start, specs, i + 1, j);
  }
}
