/**
 The code part of an oat file: the pass that assigns code offsets and the pass that writes code.

 The planning pass deduplicates methods in a map. The writing pass has no map; it decides whether a
 method still has to be emitted by comparing the stored code offset with its own cursor.
 */
module OatCode {
  import opened Align

  type Ref = nat

  datatype Isa = Arm | Arm64 | Thumb2 | X86 | X86_64 | Mips | Mips64

  function CodeAlignment(isa: Isa): pos {
    match isa
    case Arm => 8
    case Thumb2 => 8
    case Mips => 8
    case Mips64 => 8
    case Arm64 => 16
    case X86 => 16
    case X86_64 => 16
  }

  // Thumb code is entered with the low address bit set.
  function CodeDelta(isa: Isa): (d: nat)
    ensures d <= 1 && (d == 1 <==> isa == Thumb2)
  {
    if isa == Thumb2 then 1 else 0
  }

  const HEADER_SIZE: nat := 24

  // What two methods must share to share code: the method itself in debuggable code, else all the
  // arrays the code depends on.
  datatype Key = ByRef(ref: Ref) | ByData(code: Ptr, vmap: Ptr, info: Ptr, patches: Ptr)

  /**
   What the code passes are given: the size of the code behind a key, its patched bytes at a
   location, and the thunks the relative patcher decides to place at each of its calls.
   */
  datatype Linker = Linker(isa: Isa, size: Key -> pos, patched: (Key, nat) -> seq<byte>,
                           thunks: nat -> seq<seq<byte>>) {
    // Patching rewrites code in place.
    ghost predicate Valid() {
      forall k, at :: |patched(k, at)| == size(k)
    }
  }

  datatype MethodHeader =
    MethodHeader(vmapOffset: nat, infoOffset: nat, frameSize: nat, coreMask: nat, fpMask: nat, codeSize: nat)

  function HeaderBytes(h: MethodHeader): (b: seq<byte>)
    ensures |b| == HEADER_SIZE
  {
    Word(h.vmapOffset) + Word(h.infoOffset) + Word(h.frameSize) + Word(h.coreMask) + Word(h.fpMask) + Word(h.codeSize)
  }

  // Padding that aligns the code, not the header in front of it.
  function CodePadding(isa: Isa, offset: nat): (n: nat)
    ensures (offset + n + HEADER_SIZE) % CodeAlignment(isa) == 0
    ensures RoundUp(offset, CodeAlignment(isa)) <= offset + n + HEADER_SIZE && n < CodeAlignment(isa)
  {
    RoundUpMonotone(offset, offset + HEADER_SIZE, CodeAlignment(isa));
    RoundUp(offset + HEADER_SIZE, CodeAlignment(isa)) - (offset + HEADER_SIZE)
  }

  // ---------- thunks ----------

  datatype Thunk = Thunk(at: nat, code: seq<byte>)

  // Each thunk reserved at one call goes to the next aligned offset.
  function ReserveEnd(isa: Isa, offset: nat, codes: seq<seq<byte>>): (end: nat)
    ensures end >= offset
    decreases |codes|
  {
    if codes == [] then offset else
      ReserveEnd(isa, RoundUp(offset, CodeAlignment(isa)) + |codes[0]|, codes[1..])
  }

  function Reserved(isa: Isa, offset: nat, codes: seq<seq<byte>>): seq<Thunk>
    decreases |codes|
  {
    if codes == [] then [] else
      var at := RoundUp(offset, CodeAlignment(isa));
      [Thunk(at, codes[0])] + Reserved(isa, at + |codes[0]|, codes[1..])
  }

  ghost predicate Beyond(thunks: seq<Thunk>, offset: nat) {
    forall t :: t in thunks ==> offset <= t.at
  }

  lemma {:induction false} ReservedBeyond(isa: Isa, offset: nat, codes: seq<seq<byte>>)
    ensures Beyond(Reserved(isa, offset, codes), offset)
    decreases |codes|
  {
    if codes != [] {
      ReservedBeyond(isa, RoundUp(offset, CodeAlignment(isa)) + |codes[0]|, codes[1..]);
    }
  }

  datatype Output = Output(out: seq<byte>, pending: seq<Thunk>) {
    // The oat data written so far starts at relative offset zero.
    function Offset(): nat { |out| }
  }

  // Writes the pending thunks whose reserved place is the next aligned offset.
  function WriteThunks(isa: Isa, w: Output): Output
    decreases |w.pending|
  {
    var at := RoundUp(w.Offset(), CodeAlignment(isa));
    if w.pending != [] && w.pending[0].at == at then
      WriteThunks(isa, Output(w.out + Zeros(at - w.Offset()) + w.pending[0].code, w.pending[1..]))
    else
      w
  }

  lemma {:induction false} ThunksAppend(isa: Isa, w: Output)
    ensures w.out <= WriteThunks(isa, w).out
    decreases |w.pending|
  {
    var at := RoundUp(w.Offset(), CodeAlignment(isa));
    if w.pending != [] && w.pending[0].at == at {
      ThunksAppend(isa, Output(w.out + Zeros(at - w.Offset()) + w.pending[0].code, w.pending[1..]));
    }
  }

  lemma WriteOneThunk(isa: Isa, w: Output, code: seq<byte>, rest: seq<Thunk>)
    requires var at := RoundUp(w.Offset(), CodeAlignment(isa)); w.pending == [Thunk(at, code)] + rest
    ensures var at := RoundUp(w.Offset(), CodeAlignment(isa));
      WriteThunks(isa, w) == WriteThunks(isa, Output(w.out + Zeros(at - w.Offset()) + code, rest))
  {
    assert w.pending[1..] == rest;
  }

  lemma NoThunkHere(isa: Isa, w: Output)
    requires w.pending != [] ==> w.pending[0].at > RoundUp(w.Offset(), CodeAlignment(isa))
    ensures WriteThunks(isa, w) == w
  {
  }

  lemma ReserveOne(isa: Isa, offset: nat, codes: seq<seq<byte>>, rest: seq<Thunk>)
    requires codes != []
    ensures var at := RoundUp(offset, CodeAlignment(isa));
      && Reserved(isa, offset, codes) + rest ==
           [Thunk(at, codes[0])] + (Reserved(isa, at + |codes[0]|, codes[1..]) + rest)
      && ReserveEnd(isa, offset, codes) == ReserveEnd(isa, at + |codes[0]|, codes[1..])
  {
  }

  /** Thunks reserved in one call are the ones written at the same cursor, when later ones lie further on. */
  lemma {:induction false} ThunksLandWhereReserved(isa: Isa, w: Output, codes: seq<seq<byte>>, rest: seq<Thunk>)
    requires w.pending == Reserved(isa, w.Offset(), codes) + rest
    requires rest != [] ==> rest[0].at > RoundUp(ReserveEnd(isa, w.Offset(), codes), CodeAlignment(isa))
    ensures WriteThunks(isa, w).Offset() == ReserveEnd(isa, w.Offset(), codes)
    ensures WriteThunks(isa, w).pending == rest
    decreases |codes|
  {
    hide RoundUp, WriteThunks;
    if codes == [] {
      assert w.pending == rest;
      NoThunkHere(isa, w);
    } else {
      var at := RoundUp(w.Offset(), CodeAlignment(isa));
      ReserveOne(isa, w.Offset(), codes, rest);
      var more := Reserved(isa, at + |codes[0]|, codes[1..]) + rest;
      WriteOneThunk(isa, w, codes[0], more);
      var n := Output(w.out + Zeros(at - w.Offset()) + codes[0], more);
      assert n.Offset() == at + |codes[0]|;
      ThunksLandWhereReserved(isa, n, codes[1..], rest);
    }
  }

  // ---------- planning ----------

  datatype Plan = Plan(offset: nat, dedupe: map<Key, nat>, offsets: seq<nat>, calls: nat, reserved: seq<Thunk>)

  // Where code planned at cursor `s.offset` starts, header excluded.
  function FreshCode(l: Linker, s: Plan): (at: nat)
    ensures at >= s.offset + HEADER_SIZE
    ensures at % CodeAlignment(l.isa) == 0
    ensures RoundUp(ReserveEnd(l.isa, s.offset, l.thunks(s.calls)), CodeAlignment(l.isa)) <= at
  {
    var o := ReserveEnd(l.isa, s.offset, l.thunks(s.calls));
    o + CodePadding(l.isa, o) + HEADER_SIZE
  }

  function NewThunks(l: Linker, s: Plan): seq<Thunk> {
    Reserved(l.isa, s.offset, l.thunks(s.calls))
  }

  function PlanNew(l: Linker, s: Plan, k: Key): Plan {
    var at := FreshCode(l, s);
    var codeOffset := at + CodeDelta(l.isa);
    Plan(at + l.size(k), s.dedupe[k := codeOffset], s.offsets + [codeOffset], s.calls + 1, s.reserved + NewThunks(l, s))
  }

  function PlanStep(l: Linker, s: Plan, k: Key): Plan {
    if k in s.dedupe then s.(offsets := s.offsets + [s.dedupe[k]]) else PlanNew(l, s, k)
  }

  /** The planning state after the first `i` methods. */
  function PlanAt(l: Linker, ks: seq<Key>, start: nat, i: nat): Plan
    requires i <= |ks|
  {
    if i == 0 then Plan(start, map[], [], 0, []) else PlanStep(l, PlanAt(l, ks, start, i - 1), ks[i - 1])
  }

  // The thunks still needed are placed after the last class.
  function PlanAll(l: Linker, ks: seq<Key>, start: nat, anyClass: bool): Plan {
    var s := PlanAt(l, ks, start, |ks|);
    if anyClass then
      s.(offset := ReserveEnd(l.isa, s.offset, l.thunks(s.calls)), reserved := s.reserved + NewThunks(l, s))
    else
      s
  }

  ghost predicate Placed(l: Linker, k: Key, codeOffset: nat, end: nat) {
    && HEADER_SIZE + CodeDelta(l.isa) <= codeOffset
    && codeOffset - CodeDelta(l.isa) + l.size(k) <= end
    && (codeOffset - CodeDelta(l.isa)) % CodeAlignment(l.isa) == 0
  }

  /** The keys planned so far are those seen so far; each lies below the cursor with all of its code. */
  ghost predicate PlanOk(l: Linker, ks: seq<Key>, s: Plan, i: nat)
    requires i <= |ks|
  {
    && |s.offsets| == i
    && (forall k :: k in s.dedupe <==> k in ks[..i])
    && (forall j :: 0 <= j < i ==> ks[j] in s.dedupe && s.offsets[j] == s.dedupe[ks[j]])
    && (forall k :: k in s.dedupe ==> Placed(l, k, s.dedupe[k], s.offset))
  }

  lemma PlanStepOk(l: Linker, ks: seq<Key>, s: Plan, i: nat)
    requires i < |ks| && PlanOk(l, ks, s, i)
    ensures PlanOk(l, ks, PlanStep(l, s, ks[i]), i + 1)
  {
    assert ks[..i + 1] == ks[..i] + [ks[i]];
    if ks[i] !in s.dedupe {
      FreshIsPlaced(l, s, ks[i]);
      hide Placed, FreshCode;
      var n := PlanNew(l, s, ks[i]);
      forall k | k in n.dedupe
        ensures Placed(l, k, n.dedupe[k], n.offset)
      {
        if k != ks[i] {
          PlacedBelow(l, k, s.dedupe[k], s.offset, n.offset);
        }
      }
    }
  }

  lemma FreshIsPlaced(l: Linker, s: Plan, k: Key)
    ensures var n := PlanNew(l, s, k); Placed(l, k, n.dedupe[k], n.offset) && s.offset < n.offset
  {
  }

  // The two sides of the write pass's comparison: known code lies below the cursor, new code above it.
  lemma SeenBelow(l: Linker, ks: seq<Key>, start: nat, i: nat)
    requires i < |ks| && ks[i] in PlanAt(l, ks, start, i).dedupe
    ensures PlanAt(l, ks, start, i).dedupe[ks[i]] <= PlanAt(l, ks, start, i).offset
  {
    hide PlanAt;
    PlanIsOk(l, ks, start, i);
    var s := PlanAt(l, ks, start, i);
    assert Placed(l, ks[i], s.dedupe[ks[i]], s.offset);
  }

  lemma FreshBeyond(l: Linker, s: Plan, k: Key)
    ensures k in PlanNew(l, s, k).dedupe && PlanNew(l, s, k).dedupe[k] > s.offset
  {
  }

  lemma PlacedBelow(l: Linker, k: Key, codeOffset: nat, end: nat, more: nat)
    requires Placed(l, k, codeOffset, end) && end <= more
    ensures Placed(l, k, codeOffset, more)
  {
  }

  lemma {:induction false} PlanIsOk(l: Linker, ks: seq<Key>, start: nat, i: nat)
    requires i <= |ks|
    ensures PlanOk(l, ks, PlanAt(l, ks, start, i), i)
  {
    if i > 0 {
      hide PlanOk;
      PlanIsOk(l, ks, start, i - 1);
      PlanStepOk(l, ks, PlanAt(l, ks, start, i - 1), i - 1);
    }
  }

  /** Planning only ever appends, and later thunks lie beyond the cursor. */
  ghost predicate Extends(a: Plan, b: Plan) {
    && a.offset <= b.offset
    && a.offsets <= b.offsets
    && a.reserved <= b.reserved
    && Beyond(b.reserved[|a.reserved|..], a.offset)
  }

  lemma ExtendsBy(a: Plan, m: Plan, b: Plan, thunks: seq<Thunk>)
    requires Extends(a, m)
    requires m.offset <= b.offset && m.offsets <= b.offsets
    requires b.reserved == m.reserved + thunks && Beyond(thunks, m.offset)
    ensures Extends(a, b)
  {
    assert b.reserved[|a.reserved|..] == m.reserved[|a.reserved|..] + thunks;
  }

  lemma ExtendsStep(l: Linker, a: Plan, m: Plan, k: Key)
    requires Extends(a, m)
    ensures Extends(a, PlanStep(l, m, k))
  {
    if k !in m.dedupe {
      ReservedBeyond(l.isa, m.offset, l.thunks(m.calls));
      ExtendsBy(a, m, PlanNew(l, m, k), NewThunks(l, m));
    } else {
      ExtendsBy(a, m, PlanStep(l, m, k), []);
    }
  }

  lemma {:induction false} PlanGrows(l: Linker, ks: seq<Key>, start: nat, i: nat, j: nat)
    requires i <= j <= |ks|
    ensures Extends(PlanAt(l, ks, start, i), PlanAt(l, ks, start, j))
    decreases j - i
  {
    if i < j {
      hide Extends;
      PlanGrows(l, ks, start, i, j - 1);
      ExtendsStep(l, PlanAt(l, ks, start, i), PlanAt(l, ks, start, j - 1), ks[j - 1]);
    }
  }

  lemma PlanAllExtends(l: Linker, ks: seq<Key>, start: nat, anyClass: bool, i: nat)
    requires i <= |ks|
    ensures Extends(PlanAt(l, ks, start, i), PlanAll(l, ks, start, anyClass))
    ensures |PlanAll(l, ks, start, anyClass).offsets| == |ks|
  {
    PlanGrows(l, ks, start, i, |ks|);
    PlanIsOk(l, ks, start, |ks|);
    var s := PlanAt(l, ks, start, |ks|);
    if anyClass {
      ReservedBeyond(l.isa, s.offset, l.thunks(s.calls));
      ExtendsBy(PlanAt(l, ks, start, i), s, PlanAll(l, ks, start, anyClass), NewThunks(l, s));
    }
  }

  // ---------- writing ----------

  function EmitCode(l: Linker, w: Output, k: Key, h: MethodHeader): Output {
    var t := WriteThunks(l.isa, w);
    var front := t.out + Zeros(CodePadding(l.isa, t.Offset())) + HeaderBytes(h);
    t.(out := front + l.patched(k, |front|))
  }

  function WriteStep(l: Linker, w: Output, k: Key, codeOffset: nat, h: MethodHeader): Output {
    if codeOffset > w.Offset() then EmitCode(l, w, k, h) else w
  }

  /** The output after the first `i` methods. */
  function WriteAt(l: Linker, ks: seq<Key>, offsets: seq<nat>, headers: seq<MethodHeader>, w: Output, i: nat): Output
    requires i <= |ks| == |offsets| == |headers|
  {
    if i == 0 then w else
      WriteStep(l, WriteAt(l, ks, offsets, headers, w, i - 1), ks[i - 1], offsets[i - 1], headers[i - 1])
  }

  function WriteAll(l: Linker, ks: seq<Key>, t: Plan, headers: seq<MethodHeader>, before: seq<byte>,
                    anyClass: bool): Output
    requires |ks| == |t.offsets| == |headers|
  {
    var w := WriteAt(l, ks, t.offsets, headers, Output(before, t.reserved), |ks|);
    if anyClass then WriteThunks(l.isa, w) else w
  }

  /** Header and code, as the runtime finds them from a code offset. */
  ghost predicate CodeAt(l: Linker, out: seq<byte>, k: Key, codeOffset: nat, h: MethodHeader) {
    var at := codeOffset - CodeDelta(l.isa);
    && HEADER_SIZE <= at && at + l.size(k) <= |out|
    && out[at - HEADER_SIZE..at] == HeaderBytes(h)
    && out[at..at + l.size(k)] == l.patched(k, at)
  }

  lemma CodeAtPersists(l: Linker, out: seq<byte>, more: seq<byte>, k: Key, codeOffset: nat, h: MethodHeader)
    requires CodeAt(l, out, k, codeOffset, h) && out <= more
    ensures CodeAt(l, more, k, codeOffset, h)
  {
    var at := codeOffset - CodeDelta(l.isa);
    assert more[at - HEADER_SIZE..at] == out[at - HEADER_SIZE..at];
    assert more[at..at + l.size(k)] == out[at..at + l.size(k)];
  }

  lemma CodeAtEnd(l: Linker, front: seq<byte>, h: MethodHeader, k: Key)
    requires l.Valid()
    ensures var all := front + HeaderBytes(h) + l.patched(k, |front| + HEADER_SIZE);
      CodeAt(l, all, k, |front| + HEADER_SIZE + CodeDelta(l.isa), h)
  {
    var all := front + HeaderBytes(h) + l.patched(k, |front| + HEADER_SIZE);
    assert all[|front|..|front| + HEADER_SIZE] == HeaderBytes(h);
    assert all[|front| + HEADER_SIZE..] == l.patched(k, |front| + HEADER_SIZE);
  }

  lemma EmittedWherePlanned(l: Linker, s: Plan, w: Output, k: Key, h: MethodHeader, rest: seq<Thunk>)
    requires l.Valid() && w.Offset() == s.offset
    requires w.pending == NewThunks(l, s) + rest
    requires rest != [] ==> rest[0].at >= PlanNew(l, s, k).offset
    ensures var n, e := PlanNew(l, s, k), EmitCode(l, w, k, h);
      && e.Offset() == n.offset && e.pending == rest
      && w.out <= e.out
      && CodeAt(l, e.out, k, n.dedupe[k], h)
  {
    hide WriteThunks, RoundUp, CodeAt;
    ThunksLandWhereReserved(l.isa, w, l.thunks(s.calls), rest);
    ThunksAppend(l.isa, w);
    var u := WriteThunks(l.isa, w);
    CodeAtEnd(l, u.out + Zeros(CodePadding(l.isa, u.Offset())), h, k);
  }

  // ---------- the two passes agree ----------

  /** The first method with the key of method `j`: the one whose header and code are kept. */
  ghost function First(ks: seq<Key>, j: nat): (f: nat)
    requires j < |ks|
    ensures f <= j && ks[f] == ks[j]
    ensures forall i :: 0 <= i < f ==> ks[i] != ks[j]
  {
    FirstExists(ks, j, 0);
    var f :| 0 <= f <= j && ks[f] == ks[j] && forall i :: 0 <= i < f ==> ks[i] != ks[j];
    f
  }

  lemma FirstExists(ks: seq<Key>, j: nat, from: nat)
    requires from <= j < |ks| && forall i :: 0 <= i < from ==> ks[i] != ks[j]
    ensures exists f :: 0 <= f <= j && ks[f] == ks[j] && forall i :: 0 <= i < f ==> ks[i] != ks[j]
    decreases j - from
  {
    if ks[from] != ks[j] {
      FirstExists(ks, j, from + 1);
    }
  }

  lemma OffsetsOfPlan(l: Linker, ks: seq<Key>, start: nat, anyClass: bool, i: nat)
    requires i < |ks|
    ensures var s, t := PlanAt(l, ks, start, i), PlanAll(l, ks, start, anyClass);
      && |t.offsets| == |ks|
      && (ks[i] in s.dedupe <==> First(ks, i) != i)
      && t.offsets[i] == if ks[i] in s.dedupe then s.dedupe[ks[i]] else PlanNew(l, s, ks[i]).dedupe[ks[i]]
  {
    hide First, PlanAll, PlanNew, Beyond, Placed;
    var s := PlanAt(l, ks, start, i);
    PlanIsOk(l, ks, start, i);
    assert ks[i] in s.dedupe <==> First(ks, i) != i;
    assert PlanAt(l, ks, start, i + 1) == PlanStep(l, s, ks[i]);
    PlanIsOk(l, ks, start, i + 1);
    PlanAllExtends(l, ks, start, anyClass, i + 1);
  }

  lemma SameKeySameOffset(l: Linker, ks: seq<Key>, start: nat, anyClass: bool, i: nat, j: nat)
    requires i < |ks| && j < |ks| && ks[i] == ks[j]
    ensures |PlanAll(l, ks, start, anyClass).offsets| == |ks|
    ensures PlanAll(l, ks, start, anyClass).offsets[i] == PlanAll(l, ks, start, anyClass).offsets[j]
  {
    PlanIsOk(l, ks, start, |ks|);
  }

  /** Cursor, pending thunks and prefix of the writer, in step with planning state `s` of the plan `t`. */
  ghost predicate InStep(t: Plan, s: Plan, before: seq<byte>, w: Output) {
    && |s.reserved| <= |t.reserved|
    && w.Offset() == s.offset
    && w.pending == t.reserved[|s.reserved|..]
    && before <= w.out
  }

  lemma CursorInStep(t: Plan, s: Plan, before: seq<byte>, w: Output)
    requires InStep(t, s, before, w)
    ensures w.Offset() == s.offset
  {
  }

  lemma InStepSame(t: Plan, s: Plan, n: Plan, before: seq<byte>, w: Output)
    requires InStep(t, s, before, w) && s.offset == n.offset && s.reserved == n.reserved
    ensures InStep(t, n, before, w)
  {
  }

  lemma SimulateNew(l: Linker, t: Plan, s: Plan, before: seq<byte>, w: Output, k: Key, h: MethodHeader)
    requires l.Valid()
    requires InStep(t, s, before, w) && Extends(PlanNew(l, s, k), t)
    ensures var n, e := PlanNew(l, s, k), EmitCode(l, w, k, h);
      InStep(t, n, before, e) && w.out <= e.out && CodeAt(l, e.out, k, n.dedupe[k], h)
  {
    var n := PlanNew(l, s, k);
    var rest := t.reserved[|n.reserved|..];
    assert w.pending == NewThunks(l, s) + rest;
    assert rest != [] ==> rest[0] in rest;
    EmittedWherePlanned(l, s, w, k, h, rest);
  }

  lemma SimulateStep(l: Linker, ks: seq<Key>, start: nat, anyClass: bool, i: nat, before: seq<byte>, w: Output,
                     h: MethodHeader)
    requires l.Valid() && i < |ks|
    requires InStep(PlanAll(l, ks, start, anyClass), PlanAt(l, ks, start, i), before, w)
    ensures |PlanAll(l, ks, start, anyClass).offsets| == |ks|
    ensures var t := PlanAll(l, ks, start, anyClass);
      var n := WriteStep(l, w, ks[i], t.offsets[i], h);
      && InStep(t, PlanAt(l, ks, start, i + 1), before, n)
      && w.out <= n.out
      && (t.offsets[i] > w.Offset() <==> First(ks, i) == i)
      && (First(ks, i) == i ==> CodeAt(l, n.out, ks[i], t.offsets[i], h))
  {
    hide PlanAll, CodeAt, EmitCode, First, InStep, PlanNew, PlanOk, Placed, l.Valid;
    var t, s := PlanAll(l, ks, start, anyClass), PlanAt(l, ks, start, i);
    CursorInStep(t, s, before, w);
    OffsetsOfPlan(l, ks, start, anyClass, i);
    if ks[i] in s.dedupe {
      SeenBelow(l, ks, start, i);
      InStepSame(t, s, PlanStep(l, s, ks[i]), before, w);
    } else {
      PlanAllExtends(l, ks, start, anyClass, i + 1);
      SimulateNew(l, t, s, before, w, ks[i], h);
      FreshBeyond(l, s, ks[i]);
    }
  }

  /** Each of the first `i` methods finds its code, and the header of the first method with its key. */
  ghost predicate Located(l: Linker, ks: seq<Key>, offsets: seq<nat>, headers: seq<MethodHeader>, out: seq<byte>,
                          i: nat)
    requires i <= |ks| == |offsets| == |headers|
  {
    forall j :: 0 <= j < i ==> CodeAt(l, out, ks[j], offsets[j], headers[First(ks, j)])
  }

  lemma LocatedPersists(l: Linker, ks: seq<Key>, offsets: seq<nat>, headers: seq<MethodHeader>, out: seq<byte>,
                        more: seq<byte>, i: nat)
    requires i <= |ks| == |offsets| == |headers|
    requires Located(l, ks, offsets, headers, out, i) && out <= more
    ensures Located(l, ks, offsets, headers, more, i)
  {
    hide CodeAt, First;
    forall j | 0 <= j < i
      ensures CodeAt(l, more, ks[j], offsets[j], headers[First(ks, j)])
    {
      CodeAtPersists(l, out, more, ks[j], offsets[j], headers[First(ks, j)]);
    }
  }

  lemma LocatedNext(l: Linker, ks: seq<Key>, offsets: seq<nat>, headers: seq<MethodHeader>, out: seq<byte>, i: nat,
                    f: nat)
    requires i < |ks| == |headers| == |offsets|
    requires f == First(ks, i) && offsets[f] == offsets[i]
    requires Located(l, ks, offsets, headers, out, i)
    requires f == i ==> CodeAt(l, out, ks[i], offsets[i], headers[i])
    ensures Located(l, ks, offsets, headers, out, i + 1)
  {
    hide CodeAt;
    assert First(ks, f) == f;
  }

  ghost predicate Following(l: Linker, ks: seq<Key>, t: Plan, s: Plan, headers: seq<MethodHeader>, before: seq<byte>,
                            w: Output, i: nat)
    requires i <= |ks| == |t.offsets| == |headers|
  {
    InStep(t, s, before, w) && Located(l, ks, t.offsets, headers, w.out, i)
  }

  lemma FollowStep(l: Linker, ks: seq<Key>, headers: seq<MethodHeader>, start: nat, before: seq<byte>, anyClass: bool,
                   t: Plan, i: nat, w: Output)
    requires t == PlanAll(l, ks, start, anyClass)
    requires l.Valid() && i < |ks| == |headers| == |t.offsets|
    requires Following(l, ks, t, PlanAt(l, ks, start, i), headers, before, w, i)
    ensures Following(l, ks, t, PlanAt(l, ks, start, i + 1), headers, before,
      WriteStep(l, w, ks[i], t.offsets[i], headers[i]), i + 1)
  {
    hide Located, InStep, PlanAll, PlanAt, WriteStep, CodeAt;
    SimulateStep(l, ks, start, anyClass, i, before, w, headers[i]);
    var n := WriteStep(l, w, ks[i], t.offsets[i], headers[i]);
    LocatedPersists(l, ks, t.offsets, headers, w.out, n.out, i);
    SameKeySameOffset(l, ks, start, anyClass, First(ks, i), i);
    LocatedNext(l, ks, t.offsets, headers, n.out, i, First(ks, i));
  }

  lemma PlanCovers(l: Linker, ks: seq<Key>, start: nat, anyClass: bool)
    ensures |PlanAll(l, ks, start, anyClass).offsets| == |ks|
  {
    PlanIsOk(l, ks, start, |ks|);
  }

  lemma FollowStart(l: Linker, ks: seq<Key>, headers: seq<MethodHeader>, before: seq<byte>, t: Plan)
    requires |ks| == |headers| == |t.offsets|
    ensures Following(l, ks, t, PlanAt(l, ks, |before|, 0), headers, before, Output(before, t.reserved), 0)
  {
  }

  lemma {:induction false} WriteFollowsPlan(l: Linker, ks: seq<Key>, headers: seq<MethodHeader>, before: seq<byte>,
                                            anyClass: bool, t: Plan, i: nat)
    requires l.Valid() && i <= |ks| == |headers|
    requires t == PlanAll(l, ks, |before|, anyClass)
    ensures |t.offsets| == |ks|
    ensures Following(l, ks, t, PlanAt(l, ks, |before|, i), headers, before,
      WriteAt(l, ks, t.offsets, headers, Output(before, t.reserved), i), i)
  {
    hide Following, PlanAll, PlanAt, WriteStep;
    PlanCovers(l, ks, |before|, anyClass);
    if i == 0 {
      FollowStart(l, ks, headers, before, t);
    } else {
      WriteFollowsPlan(l, ks, headers, before, anyClass, t, i - 1);
      FollowStep(l, ks, headers, |before|, before, anyClass, t, i - 1,
        WriteAt(l, ks, t.offsets, headers, Output(before, t.reserved), i - 1));
    }
  }

  // ---------- results ----------

  /** The code pass ends where it was planned to end, with every method in its place and no thunk left over. */
  lemma CodePassRefinesPlan(l: Linker, ks: seq<Key>, headers: seq<MethodHeader>, before: seq<byte>, anyClass: bool,
                            t: Plan)
    requires l.Valid() && |ks| == |headers|
    requires !anyClass ==> ks == []
    requires t == PlanAll(l, ks, |before|, anyClass)
    ensures |t.offsets| == |ks|
    ensures var w := WriteAll(l, ks, t, headers, before, anyClass);
      && w.Offset() == t.offset && w.pending == [] && before <= w.out
      && Located(l, ks, t.offsets, headers, w.out, |ks|)
  {
    WriteFollowsPlan(l, ks, headers, before, anyClass, t, |ks|);
    var s := PlanAt(l, ks, |before|, |ks|);
    var w := WriteAt(l, ks, t.offsets, headers, Output(before, t.reserved), |ks|);
    if anyClass {
      assert w.pending == NewThunks(l, s) + [];
      ThunksLandWhereReserved(l.isa, w, l.thunks(s.calls), []);
      ThunksAppend(l.isa, w);
      hide Located, WriteThunks, WriteAt, PlanAt;
      LocatedPersists(l, ks, t.offsets, headers, w.out, WriteThunks(l.isa, w).out, |ks|);
    }
  }

  /** The writing pass emits a method exactly when no earlier method has its key. */
  lemma EmittedExactlyOnce(l: Linker, ks: seq<Key>, headers: seq<MethodHeader>, before: seq<byte>, anyClass: bool,
                           t: Plan, i: nat)
    requires l.Valid() && i < |ks| == |headers|
    requires t == PlanAll(l, ks, |before|, anyClass)
    ensures |t.offsets| == |ks|
    ensures var w := WriteAt(l, ks, t.offsets, headers, Output(before, t.reserved), i);
      t.offsets[i] > w.Offset() <==> (forall j :: 0 <= j < i ==> ks[j] != ks[i])
  {
    WriteFollowsPlan(l, ks, headers, before, anyClass, t, i);
    hide WriteAt, PlanAll, PlanAt, Located;
    SimulateStep(l, ks, |before|, anyClass, i, before,
      WriteAt(l, ks, t.offsets, headers, Output(before, t.reserved), i), headers[i]);
  }

  /** Methods with different keys occupy disjoint ranges, headers included, and all code is aligned. */
  lemma DifferentKeysDisjoint(l: Linker, ks: seq<Key>, start: nat, anyClass: bool, i: nat, j: nat)
    requires i < |ks| && j < |ks| && ks[i] != ks[j]
    ensures |PlanAll(l, ks, start, anyClass).offsets| == |ks|
    ensures var o, d := PlanAll(l, ks, start, anyClass).offsets, CodeDelta(l.isa);
      && (o[i] + l.size(ks[i]) <= o[j] - HEADER_SIZE || o[j] + l.size(ks[j]) <= o[i] - HEADER_SIZE)
      && start + HEADER_SIZE <= o[i] - d && (o[i] - d) % CodeAlignment(l.isa) == 0
  {
    hide PlanAll, PlanAt;
    FirstRange(l, ks, start, anyClass, i);
    FirstRange(l, ks, start, anyClass, j);
    CursorGrows(l, ks, start, 0, First(ks, i));
    StartsAt(l, ks, start);
    if First(ks, i) < First(ks, j) {
      CursorGrows(l, ks, start, First(ks, i) + 1, First(ks, j));
    } else {
      CursorGrows(l, ks, start, First(ks, j) + 1, First(ks, i));
    }
  }

  lemma StartsAt(l: Linker, ks: seq<Key>, start: nat)
    ensures PlanAt(l, ks, start, 0).offset == start
  {
  }

  lemma CursorGrows(l: Linker, ks: seq<Key>, start: nat, i: nat, j: nat)
    requires i <= j <= |ks|
    ensures PlanAt(l, ks, start, i).offset <= PlanAt(l, ks, start, j).offset
  {
    PlanGrows(l, ks, start, i, j);
  }

  // The code kept for the key of `i` lies between the cursors around the first method with that key.
  lemma FirstRange(l: Linker, ks: seq<Key>, start: nat, anyClass: bool, i: nat)
    requires i < |ks|
    ensures |PlanAll(l, ks, start, anyClass).offsets| == |ks|
    ensures var o, d, f := PlanAll(l, ks, start, anyClass).offsets, CodeDelta(l.isa), First(ks, i);
      && PlanAt(l, ks, start, f).offset + HEADER_SIZE <= o[i] - d
      && o[i] - d + l.size(ks[i]) == PlanAt(l, ks, start, f + 1).offset
      && (o[i] - d) % CodeAlignment(l.isa) == 0
  {
    var f := First(ks, i);
    assert First(ks, f) == f;
    SameKeySameOffset(l, ks, start, anyClass, f, i);
    OffsetsOfPlan(l, ks, start, anyClass, f);
    hide PlanAll;
    assert PlanAt(l, ks, start, f + 1) == PlanNew(l, PlanAt(l, ks, start, f), ks[f]);
  }

  /** All code lies between the start and the planned end. */
  lemma CodeInRange(l: Linker, ks: seq<Key>, start: nat, anyClass: bool, i: nat)
    requires i < |ks|
    ensures |PlanAll(l, ks, start, anyClass).offsets| == |ks|
    ensures var t, d := PlanAll(l, ks, start, anyClass), CodeDelta(l.isa);
      start + HEADER_SIZE + d <= t.offsets[i] && t.offsets[i] - d + l.size(ks[i]) <= t.offset
  {
    FirstRange(l, ks, start, anyClass, i);
    CursorGrows(l, ks, start, 0, First(ks, i));
    StartsAt(l, ks, start);
    PlanAllExtends(l, ks, start, anyClass, First(ks, i) + 1);
    hide PlanAll, PlanAt, First;
  }
}
