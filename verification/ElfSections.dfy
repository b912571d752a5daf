/**
 The section state machine of the ELF builder: a file cursor and a virtual address cursor advance in
 parallel, and program headers are merged from the sections afterwards.
 */
module ElfSections {
  import opened Align

  // Section flags: none, SHF_ALLOC, or SHF_ALLOC | SHF_EXECINSTR.
  datatype Flags = NotLoaded | Alloc | AllocExec

  // Segment permissions: read, read and execute, read and write.
  datatype Access = R | RX | RW

  datatype Desc = Desc(flags: Flags, nobits: bool, align: pos, access: Access) {
    predicate Loaded() { flags != NotLoaded }
    // Alignments in use; each divides the page size.
    predicate Valid() { (align == 1 || align == 4 || align == 8 || align == 4096) && (nobits ==> Loaded()) }
  }

  // A finished section: `align` is the alignment that was used for it.
  datatype Header = Header(d: Desc, align: pos, offset: nat, addr: nat, size: nat)

  datatype State = State(headers: seq<Header>, file: nat, virt: nat)

  // A change of flags starts a new page.
  function UsedAlign(hs: seq<Header>, d: Desc): pos {
    if hs != [] && hs[|hs| - 1].d.flags != d.flags then 4096 else d.align
  }

  function Place(s: State, d: Desc, size: nat): Header {
    var a := UsedAlign(s.headers, d);
    Header(d, a, if d.nobits then 0 else RoundUp(s.file, a), if d.Loaded() then RoundUp(s.virt, a) else 0, size)
  }

  /** One section from Start to End. */
  function Step(s: State, d: Desc, size: nat): State {
    var h := Place(s, d, size);
    State(s.headers + [h],
          if d.nobits then s.file else h.offset + size,
          if d.Loaded() then h.addr + size else s.virt)
  }

  datatype Spec = Spec(d: Desc, size: nat)

  function Run(start: nat, specs: seq<Spec>, n: nat): State
    requires n <= |specs|
  {
    if n == 0 then State([], start, start) else Step(Run(start, specs, n - 1), specs[n - 1].d, specs[n - 1].size)
  }

  // ---------- the builder ----------

  class Builder {
    var sections: seq<Header>
    var file: nat
    var virt: nat
    // The section being written, if any.
    var open: bool
    var current: Header

    ghost function S(): State
      reads this
    {
      State(sections, file, virt)
    }

    constructor (start: nat)
      ensures S() == State([], start, start) && !open
    {
      sections, file, virt, open := [], start, start, false;
      current := Header(Desc(NotLoaded, false, 1, R), 1, 0, 0, 0);
    }

    method Start(d: Desc)
      requires !open
      modifies this
      ensures open && sections == old(sections) && current == Place(old(S()), d, 0)
      ensures file == (if d.nobits then old(file) else current.offset)
      ensures virt == (if d.Loaded() then current.addr else old(virt))
    {
      open := true;
      var align := d.align;
      if sections != [] && sections[|sections| - 1].d.flags != d.flags {
        align := PAGE_SIZE;
      }
      var offset, addr := 0, 0;
      if !d.nobits {
        file := RoundUp(file, align);
        offset := file;
      }
      if d.Loaded() {
        virt := RoundUp(virt, align);
        addr := virt;
      }
      current := Header(d, align, offset, addr, 0);
    }

    method Write(n: nat)
      requires open && !current.d.nobits
      modifies this`file
      ensures file == old(file) + n
    {
      file := file + n;
    }

    // The size is what was written since Start; a section without file contents is told its size.
    method End(noBitsSize: nat)
      requires open && (!current.d.nobits ==> current.offset <= file)
      modifies this
      ensures !open && file == old(file)
      ensures var size := if old(current).d.nobits then noBitsSize else old(file) - old(current).offset;
        && sections == old(sections) + [old(current).(size := size)]
        && virt == old(virt) + if old(current).d.Loaded() then size else 0
    {
      open := false;
      var size := if current.d.nobits then noBitsSize else file - current.offset;
      if current.d.Loaded() {
        virt := virt + size;
      }
      sections := sections + [current.(size := size)];
    }

    /** A whole section is one step of the state machine. */
    method WriteSection(d: Desc, size: nat)
      requires !open
      modifies this
      ensures !open && S() == Step(old(S()), d, size)
    {
      hide RoundUp;
      Start(d);
      if !d.nobits {
        Write(size);
      }
      End(size);
    }
  }

  // ---------- the two cursors ----------

  predicate PageStart(specs: seq<Spec>, i: nat)
    requires 0 < i < |specs|
  {
    specs[i].d.align == 4096 || specs[i].d.flags != specs[i - 1].d.flags
  }

  /** Loaded sections come first, and one that follows a section without file contents starts a page. */
  ghost predicate WellOrdered(specs: seq<Spec>) {
    && (forall i :: 0 <= i < |specs| ==> specs[i].d.Valid() && (specs[i].d.nobits ==> specs[i].size > 0))
    && (forall i, j :: 0 <= i < j < |specs| && specs[j].d.Loaded() ==> specs[i].d.Loaded())
    && (forall i :: 0 < i < |specs| && specs[i - 1].d.nobits && specs[i].d.Loaded() ==> PageStart(specs, i))
  }

  lemma SamePad(x: nat, y: nat, a: pos)
    requires x % 4096 == y % 4096 && (a == 1 || a == 4 || a == 8 || a == 4096)
    ensures RoundUp(x, a) - x == RoundUp(y, a) - y && RoundUp(x, a) % 4096 == RoundUp(y, a) % 4096
  {
    SameRemainder(x, y, a);
    PadIs(x, a);
    PadIs(y, a);
    hide RoundUp;
    SameSum(x, y, RoundUp(x, a) - x);
  }

  lemma PadIs(x: nat, a: pos)
    ensures RoundUp(x, a) - x == if x % a == 0 then 0 else a - x % a
  {
  }

  lemma SameRemainder(x: nat, y: nat, a: pos)
    requires x % 4096 == y % 4096 && (a == 1 || a == 4 || a == 8 || a == 4096)
    ensures x % a == y % a
  {
    if a == 4 {
      BelowPage(x, 1024, 4);
      BelowPage(y, 1024, 4);
    } else if a == 8 {
      BelowPage(x, 512, 8);
      BelowPage(y, 512, 8);
    }
  }

  lemma BelowPage(x: nat, k: nat, a: pos)
    requires k * a == 4096
    ensures x % a == x % 4096 % a
  {
    var q, r := x / 4096, x % 4096;
    assert q * 4096 == (q * k) * a;
    MultipleHasNoRemainder(q * k, a);
    AddMultiple(q * 4096, r, a);
  }

  lemma {:induction false} RunHeaders(start: nat, specs: seq<Spec>, n: nat)
    requires n <= |specs|
    ensures |Run(start, specs, n).headers| == n
    ensures forall i :: 0 <= i < n ==>
      Run(start, specs, n).headers[i].d == specs[i].d && Run(start, specs, n).headers[i].size == specs[i].size
  {
    hide RoundUp;
    if n > 0 { RunHeaders(start, specs, n - 1); }
  }

  // Whether the cursors agree modulo the page size after `n` sections.
  predicate InStep(specs: seq<Spec>, n: nat)
    requires n <= |specs|
  {
    n == 0 || (specs[n - 1].d.Loaded() && !specs[n - 1].d.nobits)
  }

  // One section with contents, from cursors in step or onto a fresh page.
  lemma StepAligned(s: State, d: Desc, size: nat)
    requires d.Valid() && d.Loaded() && !d.nobits
    requires s.file % 4096 == s.virt % 4096 || UsedAlign(s.headers, d) == 4096
    ensures var h, n := Place(s, d, size), Step(s, d, size);
      && h.offset % 4096 == h.addr % 4096
      && n.virt - n.file == h.addr - h.offset && n.file % 4096 == n.virt % 4096
      && (s.file % 4096 == s.virt % 4096 ==> h.addr - h.offset == s.virt - s.file)
  {
    var a := UsedAlign(s.headers, d);
    if s.file % 4096 == s.virt % 4096 {
      SamePad(s.file, s.virt, a);
    }
    var h := Place(s, d, size);
    SameSum(h.offset, h.addr, size);
  }

  lemma SameSum(x: nat, y: nat, z: nat)
    requires x % 4096 == y % 4096
    ensures (x + z) % 4096 == (y + z) % 4096
  {
  }

  /** Both cursors agree modulo the page size after every loaded section with contents. */
  lemma {:induction false} CursorsInStep(start: nat, specs: seq<Spec>, n: nat)
    requires n <= |specs| && WellOrdered(specs) && InStep(specs, n)
    ensures var s := Run(start, specs, n); s.file % 4096 == s.virt % 4096
    decreases n, 0
  {
    if n > 0 {
      hide RoundUp, Place;
      ReadyFor(start, specs, n - 1);
      StepAligned(Run(start, specs, n - 1), specs[n - 1].d, specs[n - 1].size);
    }
  }

  // Before a loaded section with contents the cursors are in step or the section starts a page.
  lemma {:induction false} ReadyFor(start: nat, specs: seq<Spec>, n: nat)
    requires n < |specs| && WellOrdered(specs) && specs[n].d.Loaded()
    ensures var s := Run(start, specs, n);
      if InStep(specs, n) then s.file % 4096 == s.virt % 4096 else UsedAlign(s.headers, specs[n].d) == 4096
    decreases n, 1
  {
    RunHeaders(start, specs, n);
    if InStep(specs, n) {
      CursorsInStep(start, specs, n);
    } else {
      assert specs[n - 1].d.Loaded();
      assert PageStart(specs, n);
    }
  }
}