/**
 The visitors of the oat writer: loops over classes and their methods with a running offset, a
 dedupe map and an index into the vectors of the current class, which counts compiled methods only.
 */
module OatPasses {
  import opened Align
  import opened Flatten
  import opened OatCode
  import opened OatFile
  import T = OatTables
  import C = OatClasses

  // ---------- indexing ----------

  /** Entry `k` of class `c` holds `vals[Base(c) + k]` for the first `n` compiled methods, else its initial value. */
  ghost predicate Filled<R, V>(rs: seq<seq<R>>, vecs: seq<seq<V>>, init: V, vals: seq<V>, n: nat) {
    && |vecs| == |rs| && |vals| == Base(rs, |rs|)
    && (forall c :: 0 <= c < |rs| ==> |vecs[c]| == |rs[c]|)
    && (forall c, k :: 0 <= c < |rs| && 0 <= k < |rs[c]| ==> EntryIs(rs, vecs, init, vals, n, c, k))
  }

  ghost predicate EntryIs<R, V>(rs: seq<seq<R>>, vecs: seq<seq<V>>, init: V, vals: seq<V>, n: nat, c: nat, k: nat)
    requires c < |vecs| == |rs|
  {
    && k < |vecs[c]|
    && if Base(rs, c) + k < n then Base(rs, c) + k < |vals| && vecs[c][k] == vals[Base(rs, c) + k]
         else vecs[c][k] == init
  }

  // The vectors of a class are sized when the class is created.
  function Sized<R, V>(rs: seq<seq<R>>, init: V): (vecs: seq<seq<V>>) {
    seq(|rs|, c requires 0 <= c < |rs| => seq(|rs[c]|, _ => init))
  }

  lemma FillNone<R, V>(rs: seq<seq<R>>, init: V, vals: seq<V>)
    requires |vals| == Base(rs, |rs|)
    ensures Filled(rs, Sized(rs, init), init, vals, 0)
  {
  }

  /** The running index of a class is the rank of the current method among its compiled ones. */
  lemma RankIsIndex(p: Program, c: nat, m: nat)
    requires c < |p.Classes()| && m < |p.Methods(p.Classes()[c])| && p.HasCode(p.Methods(p.Classes()[c])[m])
    ensures var k := C.Rank(p.Flags(p.Classes()[c]), m);
      && k < |p.ClassRefs()[c]| && Base(p.ClassRefs(), c) + k < |p.Refs()|
      && p.Refs()[Base(p.ClassRefs(), c) + k] == p.Methods(p.Classes()[c])[m]
  {
    var n := Index(p, c, m);
    CompiledAt(p, p.Classes()[c], m, |p.Methods(p.Classes()[c])|);
  }

  // Index and base while walking over one class.
  lemma RankStep(p: Program, c: nat, m: nat)
    requires c < |p.Classes()| && m < |p.Methods(p.Classes()[c])|
    ensures var f := p.Flags(p.Classes()[c]);
      && C.Rank(f, 0) == 0
      && C.Rank(f, m + 1) == C.Rank(f, m) + if p.HasCode(p.Methods(p.Classes()[c])[m]) then 1 else 0
  {
  }

  lemma NextBase(p: Program, c: nat)
    requires c < |p.Classes()|
    ensures BaseOf(p, c + 1) == BaseOf(p, c) + C.Rank(p.Flags(p.Classes()[c]), |p.Methods(p.Classes()[c])|)
    ensures C.Rank(p.Flags(p.Classes()[c]), 0) == 0
  {
  }

  lemma FillOne<R, V>(rs: seq<seq<R>>, vecs: seq<seq<V>>, init: V, vals: seq<V>, c: nat, k: nat, v: V)
    requires c < |rs| && k < |rs[c]| && Filled(rs, vecs, init, vals, Base(rs, c) + k)
    requires Base(rs, c) + k < |vals| && v == vals[Base(rs, c) + k]
    ensures Filled(rs, vecs[c := vecs[c][k := v]], init, vals, Base(rs, c) + k + 1)
  {
    hide Concat, Base;
    var now, n, next := vecs[c := vecs[c][k := v]], Base(rs, c) + k, Base(rs, c) + k + 1;
    forall a, b | 0 <= a < |rs| && 0 <= b < |rs[a]|
      ensures EntryIs(rs, now, init, vals, next, a, b)
    {
      OneIndex(rs, c, k, a, b);
      assert EntryIs(rs, vecs, init, vals, n, a, b);
    }
  }

  // Leaving an entry at its initial value counts as filling it with that value.
  lemma FillSkip<R, V>(rs: seq<seq<R>>, vecs: seq<seq<V>>, init: V, vals: seq<V>, c: nat, k: nat)
    requires c < |rs| && k < |rs[c]| && Filled(rs, vecs, init, vals, Base(rs, c) + k)
    requires Base(rs, c) + k < |vals| && init == vals[Base(rs, c) + k]
    ensures Filled(rs, vecs, init, vals, Base(rs, c) + k + 1)
  {
    assert EntryIs(rs, vecs, init, vals, Base(rs, c) + k, c, k);
    assert vecs[c][k := init] == vecs[c];
    assert vecs[c := vecs[c][k := init]] == vecs;
    FillOne(rs, vecs, init, vals, c, k, init);
  }

  // Different positions have different indexes.
  lemma OneIndex<V>(rs: seq<seq<V>>, c: nat, k: nat, c': nat, k': nat)
    requires c < |rs| && c' < |rs| && k < |rs[c]| && k' < |rs[c']|
    ensures Base(rs, c) + k == Base(rs, c') + k' ==> c == c' && k == k'
  {
    if c < c' {
      ConcatGrows(rs, c + 1, c');
    } else if c' < c {
      ConcatGrows(rs, c' + 1, c);
    }
  }

  // ---------- vmap tables and method infos ----------

  datatype Which = Vmap | Info

  function Table(p: Program, which: Which, r: Ref): Ptr {
    if which == Vmap then p.Method(r).vmap else p.Method(r).info
  }

  function Tables(p: Program, which: Which): (ts: seq<Ptr>)
    ensures |ts| == |p.Refs()|
    ensures forall i :: 0 <= i < |ts| ==> ts[i] == Table(p, which, p.Refs()[i])
  {
    if which == Vmap then p.Vmaps() else p.Infos()
  }

  function StoredAll(offsets: seq<nat>): (fs: seq<nat>)
    ensures |fs| == |offsets|
  {
    seq<nat>(|offsets|, i requires 0 <= i < |offsets| => T.Stored(offsets[i]))
  }

  lemma TableStep(m: T.Storage, ts: seq<Ptr>, start: nat, n: nat)
    requires n < |ts|
    ensures |T.PlanAt(m, ts, start, |ts|).offsets| == |ts|
    ensures var s, f := T.PlanAt(m, ts, start, n), T.PlanAt(m, ts, start, |ts|).offsets;
      && T.PlanAt(m, ts, start, n + 1) == T.PlanStep(m, s, ts[n])
      && f[n] == if m(ts[n]) == [] then 0 else if ts[n] in s.dedupe then s.dedupe[ts[n]] else s.offset
  {
    T.PlanGrows(m, ts, start, n + 1, |ts|);
    T.PlanIsOk(m, ts, start, n);
    T.CoversAll(m, ts, start);
  }

  // The visitor's state after the first `n` compiled methods.
  ghost predicate TablesAt(p: Program, which: Which, start: nat, n: nat, offset: nat, dedupe: map<Ptr, nat>,
                           fields: seq<seq<nat>>) {
    && n <= |p.Refs()|
    && var ts := Tables(p, which);
       var s := T.PlanAt(p.storage, ts, start, n);
       && offset == s.offset && dedupe == s.dedupe
       && Filled(p.ClassRefs(), fields, 0, StoredAll(T.PlanAt(p.storage, ts, start, |ts|).offsets), n)
  }

  method VisitInitTable(p: Program, which: Which, ghost start: nat, c: nat, m: nat, index: nat,
                        offset0: nat, dedupe0: map<Ptr, nat>, fields0: seq<seq<nat>>)
    returns (offset: nat, dedupe: map<Ptr, nat>, fields: seq<seq<nat>>)
    requires c < |p.Classes()| && m < |p.Methods(p.Classes()[c])| && p.HasCode(p.Methods(p.Classes()[c])[m])
    requires index == C.Rank(p.Flags(p.Classes()[c]), m)
    requires TablesAt(p, which, start, BaseOf(p, c) + index, offset0, dedupe0, fields0)
    ensures TablesAt(p, which, start, BaseOf(p, c) + index + 1, offset, dedupe, fields)
  {
    hide T.PlanAt, Filled, StoredAll, T.Stored, Table, Concat;
    ghost var rs, ts, n := p.ClassRefs(), Tables(p, which), BaseOf(p, c) + index;
    ghost var vals := StoredAll(T.PlanAt(p.storage, ts, start, |ts|).offsets);
    RankIsIndex(p, c, m);
    TableStep(p.storage, ts, start, n);
    StoredAt(p, which, start, n);
    FilledSizes(rs, fields0, 0, vals, n);
    offset, dedupe, fields := offset0, dedupe0, fields0;
    var t := Table(p, which, p.Methods(p.Classes()[c])[m]);
    if p.storage(t) != [] {
      var at := offset;
      if t in dedupe {
        at := dedupe[t];
      } else {
        dedupe := dedupe[t := offset];
        offset := offset + |p.storage(t)|;
      }
      FillOne(rs, fields, 0, vals, c, index, T.Stored(at));
      var vec: seq<nat> := fields[c];
      fields := fields[c := vec[index := T.Stored(at)]];
    } else {
      FillSkip(rs, fields, 0, vals, c, index);
    }
  }

  lemma TablesStart(p: Program, which: Which, start: nat)
    ensures TablesAt(p, which, start, 0, start, map[], Sized<Ref, nat>(p.ClassRefs(), 0))
  {
    StoredSize(p, which, start);
    FillNone<Ref, nat>(p.ClassRefs(), 0, StoredAll(T.PlanAt(p.storage, Tables(p, which), start, |p.Refs()|).offsets));
    hide Filled;
  }

  /** InitMapMethodVisitor and InitMethodInfoVisitor over all classes. */
  method InitTables(p: Program, which: Which, start: nat) returns (offset: nat, fields: seq<seq<nat>>)
    ensures var plan := T.PlanAt(p.storage, Tables(p, which), start, |p.Refs()|);
      offset == plan.offset && Filled(p.ClassRefs(), fields, 0, StoredAll(plan.offsets), |p.Refs()|)
  {
    hide TablesAt, T.PlanAt, Filled, C.Rank, BaseOf, Concat;
    var dedupe: map<Ptr, nat> := map[];
    offset, fields := start, Sized<Ref, nat>(p.ClassRefs(), 0);
    TablesStart(p, which, start);
    var classes := p.Classes();
    for c := 0 to |classes|
      invariant TablesAt(p, which, start, BaseOf(p, c), offset, dedupe, fields)
    {
      NextBase(p, c);
      var index := 0;
      var ms := p.Methods(classes[c]);
      for m := 0 to |ms|
        invariant index == C.Rank(p.Flags(classes[c]), m)
        invariant TablesAt(p, which, start, BaseOf(p, c) + index, offset, dedupe, fields)
      {
        if p.HasCode(ms[m]) {
          offset, dedupe, fields := VisitInitTable(p, which, start, c, m, index, offset, dedupe, fields);
          index := index + 1;
        }
        RankStep(p, c, m);
      }
    }
    TablesEnd(p, which, start, offset, dedupe, fields);
  }

  lemma TablesEnd(p: Program, which: Which, start: nat, offset: nat, dedupe: map<Ptr, nat>, fields: seq<seq<nat>>)
    requires TablesAt(p, which, start, |p.Refs()|, offset, dedupe, fields)
    ensures var plan := T.PlanAt(p.storage, Tables(p, which), start, |p.Refs()|);
      offset == plan.offset && Filled(p.ClassRefs(), fields, 0, StoredAll(plan.offsets), |p.Refs()|)
  {
  }

  // How many compiled methods precede class `c`.
  ghost function BaseOf(p: Program, c: nat): (n: nat)
    requires c <= |p.Classes()|
    ensures n <= |p.Refs()|
    ensures c == 0 ==> n == 0
    ensures c == |p.Classes()| ==> n == |p.Refs()|
  {
    ConcatGrows(p.ClassRefs(), c, |p.ClassRefs()|);
    Base(p.ClassRefs(), c)
  }

  lemma FilledSizes<R, V>(rs: seq<seq<R>>, vecs: seq<seq<V>>, init: V, vals: seq<V>, n: nat)
    requires Filled(rs, vecs, init, vals, n)
    ensures |vecs| == |rs| && forall c :: 0 <= c < |rs| ==> |vecs[c]| == |rs[c]|
  {
  }

  lemma StoredSize(p: Program, which: Which, start: nat)
    ensures |StoredAll(T.PlanAt(p.storage, Tables(p, which), start, |Tables(p, which)|).offsets)| == |p.Refs()|
  {
    T.CoversAll(p.storage, Tables(p, which), start);
  }

  lemma StoredAt(p: Program, which: Which, start: nat, n: nat)
    requires n < |p.Refs()|
    ensures var f := T.PlanAt(p.storage, Tables(p, which), start, |p.Refs()|).offsets;
      |f| == |p.Refs()| && StoredAll(f)[n] == T.Stored(f[n]) && T.Stored(0) == 0
  {
    T.CoversAll(p.storage, Tables(p, which), start);
  }

  /** The header field and code offset of one method give back its table offset. */
  function RecoveredAll(p: Program, which: Which, headers: seq<MethodHeader>, offsets: seq<nat>): (os: seq<nat>)
    requires |headers| == |offsets|
    ensures |os| == |offsets|
  {
    seq<nat>(|offsets|, i requires 0 <= i < |offsets| => RecoveredOffset(p, Field(which, headers[i]), offsets[i]))
  }

  function Field(which: Which, h: MethodHeader): nat { if which == Vmap then h.vmapOffset else h.infoOffset }

  // The values that a filled vector holds, in traversal order.
  lemma FilledAt<R, V>(rs: seq<seq<R>>, vecs: seq<seq<V>>, init: V, vals: seq<V>, c: nat, k: nat)
    requires Filled(rs, vecs, init, vals, Base(rs, |rs|)) && c < |rs| && k < |rs[c]|
    ensures |vecs| == |rs| && k < |vecs[c]| && Base(rs, c) + k < |vals| && vecs[c][k] == vals[Base(rs, c) + k]
  {
    ConcatGrows(rs, c + 1, |rs|);
    assert EntryIs(rs, vecs, init, vals, Base(rs, |rs|), c, k);
  }

  /** The visitors that write vmap tables and method infos: a table is written when its offset is the cursor. */
  method WriteTablePass(p: Program, which: Which, headers: seq<seq<MethodHeader>>, offsets: seq<seq<nat>>,
                        before: seq<byte>,
                        ghost hs: seq<MethodHeader>, ghost os: seq<nat>)
    returns (out: seq<byte>)
    requires |hs| == |os| == |p.Refs()| && before != []
    requires exists h :: Filled(p.ClassRefs(), headers, h, hs, |p.Refs()|)
    requires Filled(p.ClassRefs(), offsets, 0, os, |p.Refs()|)
    ensures out == T.WriteAt(p.storage, Tables(p, which), RecoveredAll(p, which, hs, os), before, |p.Refs()|)
    ensures out != []
  {
    hide T.WriteAt, Filled, C.Rank, BaseOf, Concat, RecoveredOffset;
    ghost var ts, re := Tables(p, which), RecoveredAll(p, which, hs, os);
    ghost var h :| Filled(p.ClassRefs(), headers, h, hs, |p.Refs()|);
    out := before;
    TableWriteStart(p.storage, ts, re, before);
    var classes := p.Classes();
    for c := 0 to |classes|
      invariant out == T.WriteAt(p.storage, ts, re, before, BaseOf(p, c)) && out != []
    {
      NextBase(p, c);
      var index := 0;
      var ms := p.Methods(classes[c]);
      for m := 0 to |ms|
        invariant index == C.Rank(p.Flags(classes[c]), m) && BaseOf(p, c) + index <= |ts|
        invariant out == T.WriteAt(p.storage, ts, re, before, BaseOf(p, c) + index) && out != []
      {
        if p.HasCode(ms[m]) {
          RankIsIndex(p, c, m);
          BaseIs(p, c);
          FilledAt(p.ClassRefs(), headers, h, hs, c, index);
          FilledAt(p.ClassRefs(), offsets, 0, os, c, index);
          TableWriteStep(p.storage, ts, re, before, BaseOf(p, c) + index);
          var field := Field(which, headers[c][index]);
          var codeOffset := offsets[c][index];
          index := index + 1;
          if field != 0 {
            var at := RecoveredOffset(p, field, codeOffset);
            NonZeroField(p, field, codeOffset);
            if at == |out| {
              out := out + p.storage(Table(p, which, ms[m]));
            }
          } else {
            NonZeroField(p, field, codeOffset);
          }
        }
        RankStep(p, c, m);
      }
    }
  }

  lemma NonZeroField(p: Program, field: nat, codeOffset: nat)
    ensures field == 0 ==> RecoveredOffset(p, field, codeOffset) == 0
  {
  }

  lemma BaseIs(p: Program, c: nat)
    requires c <= |p.Classes()|
    ensures BaseOf(p, c) == Base(p.ClassRefs(), c)
    ensures |p.Refs()| == Base(p.ClassRefs(), |p.ClassRefs()|)
  {
  }

  lemma TableWriteStart(m: T.Storage, ts: seq<Ptr>, re: seq<nat>, before: seq<byte>)
    requires |ts| == |re|
    ensures T.WriteAt(m, ts, re, before, 0) == before
  {
  }

  lemma TableWriteStep(m: T.Storage, ts: seq<Ptr>, re: seq<nat>, before: seq<byte>, n: nat)
    requires n < |ts| == |re|
    ensures T.WriteAt(m, ts, re, before, n + 1) == T.WriteStep(m, T.WriteAt(m, ts, re, before, n), ts[n], re[n])
  {
  }

  // ---------- code ----------

  /** Reserves the thunks the patcher asks for at one call, each at the next aligned offset. */
  method ReserveSpace(isa: Isa, codes: seq<seq<byte>>, start: nat, reserved0: seq<Thunk>)
    returns (offset: nat, reserved: seq<Thunk>)
    ensures offset == ReserveEnd(isa, start, codes)
    ensures reserved == reserved0 + Reserved(isa, start, codes)
  {
    offset, reserved := start, reserved0;
    for i := 0 to |codes|
      invariant ReserveEnd(isa, offset, codes[i..]) == ReserveEnd(isa, start, codes)
      invariant reserved + Reserved(isa, offset, codes[i..]) == reserved0 + Reserved(isa, start, codes)
    {
      hide RoundUp;
      assert codes[i..][1..] == codes[i + 1..];
      var at := RoundUp(offset, CodeAlignment(isa));
      ghost var rest := Reserved(isa, at + |codes[i]|, codes[i + 1..]);
      assert reserved + ([Thunk(at, codes[i])] + rest) == (reserved + [Thunk(at, codes[i])]) + rest;
      reserved := reserved + [Thunk(at, codes[i])];
      offset := at + |codes[i]|;
    }
  }

  /** Writes the pending thunks that belong at the cursor. */
  method WritePendingThunks(isa: Isa, w: Output) returns (out: seq<byte>, pending: seq<Thunk>)
    ensures Output(out, pending) == WriteThunks(isa, w)
  {
    hide RoundUp;
    out, pending := w.out, w.pending;
    var at := RoundUp(|out|, CodeAlignment(isa));
    while pending != [] && pending[0].at == at
      invariant at == RoundUp(|out|, CodeAlignment(isa))
      invariant WriteThunks(isa, Output(out, pending)) == WriteThunks(isa, w)
      decreases |pending|
    {
      out := out + Zeros(at - |out|) + pending[0].code;
      pending := pending[1..];
      at := RoundUp(|out|, CodeAlignment(isa));
    }
  }

  const NO_HEADER: MethodHeader := MethodHeader(0, 0, 0, 0, 0, 0)

  // The code visitor's state after the first `n` compiled methods.
  ghost predicate CodePlannedAt(p: Program, l: Layout, n: nat, s: Plan, offsets: seq<seq<nat>>,
                                headers: seq<seq<MethodHeader>>)
    requires Complete(p, l)
  {
    && n <= |p.Refs()|
    && s == PlanAt(p.CodeLinker(), p.Keys(), l.codeAt, n)
    && Filled(p.ClassRefs(), offsets, 0, l.code.offsets, n)
    && Filled(p.ClassRefs(), headers, NO_HEADER, Headers(p, l), n)
  }

  lemma CodeStep(p: Program, l: Layout, n: nat)
    requires Complete(p, l) && l.code == PlanAll(p.CodeLinker(), p.Keys(), l.codeAt, p.AnyOatClass()) && n < |p.Refs()|
    ensures var s, k := PlanAt(p.CodeLinker(), p.Keys(), l.codeAt, n), p.KeyOf(p.Refs()[n]);
      && PlanAt(p.CodeLinker(), p.Keys(), l.codeAt, n + 1) == PlanStep(p.CodeLinker(), s, k)
      && l.code.offsets[n] == if k in s.dedupe then s.dedupe[k] else FreshCode(p.CodeLinker(), s) + CodeDelta(p.isa)
  {
    hide PlanAll, FreshCode, First;
    OffsetsOfPlan(p.CodeLinker(), p.Keys(), l.codeAt, p.AnyOatClass(), n);
  }

  lemma SizeBehindKey(p: Program, r: Ref)
    requires p.HasCode(r)
    ensures p.CodeLinker().size(p.KeyOf(r)) == |p.storage(p.Method(r).code)|
  {
    var k := p.KeyOf(r);
    assert p.CodeOf(k) == p.Method(r).code;
    assert p.CodeLinker().size(k) == if p.storage(p.CodeOf(k)) == [] then 1 else |p.storage(p.CodeOf(k))|;
  }

  /** Gives one method its code offset: that of an earlier method with its key, or a fresh place after the thunks. */
  method PlaceCode(p: Program, r: Ref, s0: Plan) returns (s: Plan, codeOffset: nat)
    requires p.HasCode(r)
    ensures s == PlanStep(p.CodeLinker(), s0, p.KeyOf(r))
    ensures codeOffset ==
      if p.KeyOf(r) in s0.dedupe then s0.dedupe[p.KeyOf(r)] else FreshCode(p.CodeLinker(), s0) + CodeDelta(p.isa)
  {
    SizeBehindKey(p, r);
    hide RoundUp, CodePadding;
    var key := p.KeyOf(r);
    s := s0;
    if key in s.dedupe {
      codeOffset := s.dedupe[key];
    } else {
      var offset, reserved := ReserveSpace(p.isa, p.thunks(s.calls), s.offset, s.reserved);
      var code := offset + CodePadding(p.isa, offset) + HEADER_SIZE;
      codeOffset := code + CodeDelta(p.isa);
      s := Plan(code + |p.storage(p.Method(r).code)|, s.dedupe[key := codeOffset], s.offsets, s.calls + 1, reserved);
    }
    s := s.(offsets := s.offsets + [codeOffset]);
  }

  ghost predicate FieldsStored(p: Program, l: Layout, vmapFields: seq<seq<nat>>, infoFields: seq<seq<nat>>) {
    && Complete(p, l) && l.code == PlanAll(p.CodeLinker(), p.Keys(), l.codeAt, p.AnyOatClass())
    && Filled(p.ClassRefs(), vmapFields, 0, StoredAll(l.vmaps.offsets), |p.Refs()|)
    && Filled(p.ClassRefs(), infoFields, 0, StoredAll(l.infos.offsets), |p.Refs()|)
  }

  lemma StoredFieldsAt(p: Program, l: Layout, vmapFields: seq<seq<nat>>, infoFields: seq<seq<nat>>, c: nat, k: nat)
    requires FieldsStored(p, l, vmapFields, infoFields) && c < |p.ClassRefs()| && k < |p.ClassRefs()[c]|
    ensures |vmapFields| == |infoFields| == |p.ClassRefs()| && k < |vmapFields[c]| && k < |infoFields[c]|
    ensures var n := Base(p.ClassRefs(), c) + k;
      && n < |p.Refs()|
      && vmapFields[c][k] == T.Stored(l.vmaps.offsets[n]) && infoFields[c][k] == T.Stored(l.infos.offsets[n])
  {
    hide Filled, PlanAll, T.Stored, Concat;
    BaseIs(p, c);
    FilledAt(p.ClassRefs(), vmapFields, 0, StoredAll(l.vmaps.offsets), c, k);
    FilledAt(p.ClassRefs(), infoFields, 0, StoredAll(l.infos.offsets), c, k);
  }

  lemma HeadersAt(p: Program, l: Layout, n: nat)
    requires Complete(p, l) && n < |p.Refs()|
    ensures Headers(p, l)[n] == HeaderOf(p, p.Refs()[n], l.vmaps.offsets[n], l.infos.offsets[n], l.code.offsets[n])
  {
  }

  /** One visit of InitCodeMethodVisitor: places the code unless its key was seen, and completes the header. */
  method VisitInitCode(p: Program, ghost l: Layout, c: nat, m: nat, index: nat,
                       vmapFields: seq<seq<nat>>, infoFields: seq<seq<nat>>,
                       s0: Plan, offsets0: seq<seq<nat>>, headers0: seq<seq<MethodHeader>>)
    returns (s: Plan, offsets: seq<seq<nat>>, headers: seq<seq<MethodHeader>>)
    requires FieldsStored(p, l, vmapFields, infoFields)
    requires c < |p.Classes()| && m < |p.Methods(p.Classes()[c])| && p.HasCode(p.Methods(p.Classes()[c])[m])
    requires index == C.Rank(p.Flags(p.Classes()[c]), m)
    requires CodePlannedAt(p, l, BaseOf(p, c) + index, s0, offsets0, headers0)
    ensures CodePlannedAt(p, l, BaseOf(p, c) + index + 1, s, offsets, headers)
  {
    hide PlanAll, PlanAt, PlanStep, FreshCode, Filled, C.Rank, Concat, T.Rebased, T.Stored, T.Wrap32, Headers;
    ghost var rs, n := p.ClassRefs(), BaseOf(p, c) + index;
    RankIsIndex(p, c, m);
    BaseIs(p, c);
    CodeStep(p, l, n);
    HeadersAt(p, l, n);
    StoredFieldsAt(p, l, vmapFields, infoFields, c, index);
    FilledSizes(rs, offsets0, 0, l.code.offsets, n);
    FilledSizes(rs, headers0, NO_HEADER, Headers(p, l), n);
    var r := p.Methods(p.Classes()[c])[m];
    var codeOffset: nat;
    s, codeOffset := PlaceCode(p, r, s0);
    var at := T.Wrap32(codeOffset - CodeDelta(p.isa));
    var h := MethodHeader(T.Rebased(vmapFields[c][index], at), T.Rebased(infoFields[c][index], at),
                          p.Method(r).frameSize, p.Method(r).coreMask, p.Method(r).fpMask,
                            |p.storage(p.Method(r).code)|);
    FillOne(rs, offsets0, 0, l.code.offsets, c, index, codeOffset);
    FillOne(rs, headers0, NO_HEADER, Headers(p, l), c, index, h);
    var vec: seq<nat> := offsets0[c];
    offsets := offsets0[c := vec[index := codeOffset]];
    headers := headers0[c := headers0[c][index := h]];
  }

  // Without compilation no method is visited.
  lemma NoMethods(p: Program)
    requires !p.anyCompilation
    ensures p.Refs() == []
  {
    NoMethodsNoRefs(p, |p.ClassRefs()|);
  }

  lemma CodeStart(p: Program, l: Layout)
    requires Complete(p, l)
    ensures CodePlannedAt(p, l, 0, Plan(l.codeAt, map[], [], 0, []), Sized<Ref, nat>(p.ClassRefs(), 0),
      Sized(p.ClassRefs(), NO_HEADER))
  {
    FillNone<Ref, nat>(p.ClassRefs(), 0, l.code.offsets);
    FillNone(p.ClassRefs(), NO_HEADER, Headers(p, l));
    hide Filled;
  }

  // The plan once all methods are visited and, after the last class, the remaining thunks are reserved.
  lemma CodeEnd(p: Program, l: Layout, s: Plan, offsets: seq<seq<nat>>, headers: seq<seq<MethodHeader>>)
    requires Complete(p, l) && l.code == PlanAll(p.CodeLinker(), p.Keys(), l.codeAt, p.AnyOatClass())
    requires CodePlannedAt(p, l, |p.Refs()|, s, offsets, headers)
    ensures p.AnyOatClass() ==> l.code == s.(offset := ReserveEnd(p.isa, s.offset, p.thunks(s.calls)),
                                             reserved := s.reserved + Reserved(p.isa, s.offset, p.thunks(s.calls)))
    ensures !p.AnyOatClass() ==> l.code == s
    ensures Filled(p.ClassRefs(), offsets, 0, l.code.offsets, |p.Refs()|)
    ensures Filled(p.ClassRefs(), headers, NO_HEADER, Headers(p, l), |p.Refs()|)
  {
    hide Filled, PlanAt, Headers;
  }

  /** InitCodeMethodVisitor over all classes. */
  method InitCode(p: Program, ghost l: Layout, start: nat, vmapFields: seq<seq<nat>>, infoFields: seq<seq<nat>>)
    returns (s: Plan, offsets: seq<seq<nat>>, headers: seq<seq<MethodHeader>>)
    requires FieldsStored(p, l, vmapFields, infoFields) && start == l.codeAt
    ensures s == l.code
    ensures Filled(p.ClassRefs(), offsets, 0, l.code.offsets, |p.Refs()|)
    ensures Filled(p.ClassRefs(), headers, NO_HEADER, Headers(p, l), |p.Refs()|)
  {
    hide CodePlannedAt, FieldsStored, Filled, C.Rank, BaseOf, Concat, PlanAll, Headers, Reserved, ReserveEnd;
    s, offsets, headers := Plan(start, map[], [], 0, []), Sized<Ref, nat>(p.ClassRefs(), 0),
      Sized(p.ClassRefs(), NO_HEADER);
    FieldsAreComplete(p, l, vmapFields, infoFields);
    CodeStart(p, l);
    if !p.anyCompilation {
      NoMethods(p);
      CodeEnd(p, l, s, offsets, headers);
      return;
    }
    var classes := p.Classes();
    ghost var planned := s;
    for c := 0 to |classes|
      invariant CodePlannedAt(p, l, BaseOf(p, c), planned, offsets, headers)
      invariant s == if c == 0 || c < |classes| then planned else l.code
    {
      NextBase(p, c);
      var index := 0;
      var ms := p.Methods(classes[c]);
      for m := 0 to |ms|
        invariant index == C.Rank(p.Flags(classes[c]), m)
        invariant CodePlannedAt(p, l, BaseOf(p, c) + index, s, offsets, headers)
      {
        if p.HasCode(ms[m]) {
          s, offsets, headers := VisitInitCode(p, l, c, m, index, vmapFields, infoFields, s, offsets, headers);
          index := index + 1;
        }
        RankStep(p, c, m);
      }
      planned := s;
      if c + 1 == |classes| {
        CodeEnd(p, l, s, offsets, headers);
        var end, reserved := ReserveSpace(p.isa, p.thunks(s.calls), s.offset, s.reserved);
        s := s.(offset := end, reserved := reserved);
      }
    }
    CodeEnd(p, l, planned, offsets, headers);
  }

  lemma FieldsAreComplete(p: Program, l: Layout, vmapFields: seq<seq<nat>>, infoFields: seq<seq<nat>>)
    requires FieldsStored(p, l, vmapFields, infoFields)
    ensures Complete(p, l) && l.code == PlanAll(p.CodeLinker(), p.Keys(), l.codeAt, p.AnyOatClass())
  {
    hide Filled, PlanAll;
  }

  lemma PatchedBehindKey(p: Program, r: Ref, at: nat)
    requires p.HasCode(r)
    ensures p.CodeLinker().patched(p.KeyOf(r), at) == p.patched(p.Method(r).code, p.Method(r).patches, at)
  {
    var k := p.KeyOf(r);
    assert p.CodeOf(k) == p.Method(r).code && p.PatchesOf(k) == p.Method(r).patches;
    assert p.CodeLinker().patched(k, at) == p.CodeBytes(k, at);
  }

  /** One visit of WriteCodeMethodVisitor: the code is written only if it lies beyond the cursor. */
  method VisitWriteCode(p: Program, r: Ref, w: Output, codeOffset: nat, h: MethodHeader)
    returns (out: seq<byte>, pending: seq<Thunk>)
    requires p.HasCode(r)
    ensures Output(out, pending) == WriteStep(p.CodeLinker(), w, p.KeyOf(r), codeOffset, h)
  {
    hide RoundUp, CodePadding, HeaderBytes, WriteThunks;
    out, pending := w.out, w.pending;
    if codeOffset > |out| {
      out, pending := WritePendingThunks(p.isa, w);
      out := out + Zeros(CodePadding(p.isa, |out|));
      out := out + HeaderBytes(h);
      PatchedBehindKey(p, r, |out|);
      out := out + p.patched(p.Method(r).code, p.Method(r).patches, |out|);
    }
  }

  lemma CodeWriteStep(p: Program, os: seq<nat>, hs: seq<MethodHeader>, w: Output, n: nat)
    requires n < |p.Refs()| == |os| == |hs|
    ensures WriteAt(p.CodeLinker(), p.Keys(), os, hs, w, 0) == w
    ensures WriteAt(p.CodeLinker(), p.Keys(), os, hs, w, n + 1)
      == WriteStep(p.CodeLinker(), WriteAt(p.CodeLinker(), p.Keys(), os, hs, w, n), p.KeyOf(p.Refs()[n]), os[n], hs[n])
  {
    hide WriteStep;
  }

  /** WriteCodeMethodVisitor over all classes: no map, only the stored offsets and the cursor. */
  method WriteCodePass(p: Program, headers: seq<seq<MethodHeader>>, offsets: seq<seq<nat>>, before: seq<byte>,
                       reserved: seq<Thunk>,
                       ghost t: Plan, ghost hs: seq<MethodHeader>)
    returns (out: seq<byte>)
    requires |hs| == |t.offsets| == |p.Refs()| && t.reserved == reserved
    requires Filled(p.ClassRefs(), headers, NO_HEADER, hs, |p.Refs()|)
    requires Filled(p.ClassRefs(), offsets, 0, t.offsets, |p.Refs()|)
    ensures out == WriteAll(p.CodeLinker(), p.Keys(), t, hs, before, p.AnyOatClass()).out
  {
    hide WriteAt, WriteStep, WriteThunks, Filled, C.Rank, BaseOf, Concat;
    ghost var start := Output(before, reserved);
    var pending := reserved;
    out := before;
    if !p.anyCompilation {
      NoMethods(p);
      WriteNothing(p, t.offsets, hs, start);
      return;
    }
    var classes := p.Classes();
    WriteNothing(p, t.offsets, hs, start);
    ghost var done := start;
    for c := 0 to |classes|
      invariant done == WriteAt(p.CodeLinker(), p.Keys(), t.offsets, hs, start, BaseOf(p, c))
      invariant Output(out, pending) == if c == 0 || c < |classes| then done else WriteThunks(p.isa, done)
    {
      NextBase(p, c);
      var index := 0;
      var ms := p.Methods(classes[c]);
      for m := 0 to |ms|
        invariant index == C.Rank(p.Flags(classes[c]), m) && BaseOf(p, c) + index <= |hs|
        invariant Output(out, pending) == WriteAt(p.CodeLinker(), p.Keys(), t.offsets, hs, start, BaseOf(p, c) + index)
      {
        if p.HasCode(ms[m]) {
          RankIsIndex(p, c, m);
          BaseIs(p, c);
          FilledAt(p.ClassRefs(), headers, NO_HEADER, hs, c, index);
          FilledAt(p.ClassRefs(), offsets, 0, t.offsets, c, index);
          CodeWriteStep(p, t.offsets, hs, start, BaseOf(p, c) + index);
          out, pending := VisitWriteCode(p, ms[m], Output(out, pending), offsets[c][index], headers[c][index]);
          index := index + 1;
        }
        RankStep(p, c, m);
      }
      done := Output(out, pending);
      if c + 1 == |classes| {
        out, pending := WritePendingThunks(p.isa, Output(out, pending));
      }
    }
  }

  lemma WriteNothing(p: Program, os: seq<nat>, hs: seq<MethodHeader>, w: Output)
    requires |p.Refs()| == |os| == |hs|
    ensures WriteAt(p.CodeLinker(), p.Keys(), os, hs, w, 0) == w
  {
  }
}
