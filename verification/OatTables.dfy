/**
 The vmap tables and method infos of an oat file.

 Both are laid out by the same pair of passes. Planning deduplicates tables by data pointer and
 leaves `0 - offset` in the method header. The code pass turns that into a distance below the code.
 Writing recovers the offset from the distance and emits a table when the offset equals the cursor.
 */
module OatTables {
  import opened Align

  type Storage = Ptr -> seq<byte>

  function Wrap32(x: int): (r: nat)
    ensures r < U32
  {
    x % U32
  }

  lemma WrapSmall(x: nat)
    requires x < U32
    ensures Wrap32(x) == x
  {
  }

  // ---------- the header field through three passes ----------

  // InitMap: the code offset is not known yet.
  function Stored(offset: nat): nat { Wrap32(0 - offset) }

  // InitCode: `codeOffset` excludes the Thumb bit.
  function Rebased(stored: nat, codeOffset: nat): nat {
    if stored != 0 then Wrap32(stored + codeOffset) else 0
  }

  // WriteMap.
  function Recovered(field: nat, codeOffset: nat): nat {
    if field != 0 then Wrap32(codeOffset - field) else 0
  }

  /** The field ends as the distance from table to code, and the write pass gets the offset back. */
  lemma FieldRoundTrip(offset: nat, codeOffset: nat)
    requires 0 < offset < codeOffset < U32
    ensures var field := Rebased(Stored(offset), codeOffset);
      0 < field < codeOffset && field == codeOffset - offset && Recovered(field, codeOffset) == offset
  {
  }

  /** A method without a table keeps a zero field. */
  lemma NoTableNoField(codeOffset: nat)
    ensures Rebased(Stored(0), codeOffset) == 0 && Recovered(0, codeOffset) == 0
  {
  }

  // ---------- planning ----------

  datatype Plan = Plan(offset: nat, dedupe: map<Ptr, nat>, offsets: seq<nat>)

  function PlanStep(m: Storage, s: Plan, t: Ptr): Plan {
    if m(t) == [] then s.(offsets := s.offsets + [0])
    else if t in s.dedupe then s.(offsets := s.offsets + [s.dedupe[t]])
    else Plan(s.offset + |m(t)|, s.dedupe[t := s.offset], s.offsets + [s.offset])
  }

  /** The planning state after the tables of the first `i` methods. */
  function PlanAt(m: Storage, ts: seq<Ptr>, start: nat, i: nat): Plan
    requires i <= |ts|
  {
    if i == 0 then Plan(start, map[], []) else PlanStep(m, PlanAt(m, ts, start, i - 1), ts[i - 1])
  }

  ghost predicate Seen(m: Storage, ts: seq<Ptr>, t: Ptr, i: nat)
    requires i <= |ts|
  {
    m(t) != [] && t in ts[..i]
  }

  ghost predicate PlanOk(m: Storage, ts: seq<Ptr>, start: nat, s: Plan, i: nat)
    requires i <= |ts|
  {
    && |s.offsets| == i
    && start <= s.offset
    && (forall t :: t in s.dedupe <==> Seen(m, ts, t, i))
    && (forall j :: 0 <= j < i ==>
          if m(ts[j]) == [] then s.offsets[j] == 0 else ts[j] in s.dedupe && s.offsets[j] == s.dedupe[ts[j]])
    && (forall t :: t in s.dedupe ==> start <= s.dedupe[t] && s.dedupe[t] + |m(t)| <= s.offset)
  }

  lemma PlanStepOk(m: Storage, ts: seq<Ptr>, start: nat, s: Plan, i: nat)
    requires i < |ts| && PlanOk(m, ts, start, s, i)
    ensures PlanOk(m, ts, start, PlanStep(m, s, ts[i]), i + 1)
  {
    assert ts[..i + 1] == ts[..i] + [ts[i]];
    var n := PlanStep(m, s, ts[i]);
    forall t
      ensures t in n.dedupe <==> Seen(m, ts, t, i + 1)
    {
      assert t in s.dedupe <==> Seen(m, ts, t, i);
    }
  }

  lemma {:induction false} PlanIsOk(m: Storage, ts: seq<Ptr>, start: nat, i: nat)
    requires i <= |ts|
    ensures PlanOk(m, ts, start, PlanAt(m, ts, start, i), i)
  {
    if i > 0 {
      hide PlanOk;
      PlanIsOk(m, ts, start, i - 1);
      PlanStepOk(m, ts, start, PlanAt(m, ts, start, i - 1), i - 1);
    }
  }

  lemma {:induction false} PlanGrows(m: Storage, ts: seq<Ptr>, start: nat, i: nat, j: nat)
    requires i <= j <= |ts|
    ensures PlanAt(m, ts, start, i).offset <= PlanAt(m, ts, start, j).offset
    ensures PlanAt(m, ts, start, i).offsets <= PlanAt(m, ts, start, j).offsets
    decreases j - i
  {
    if i < j {
      PlanGrows(m, ts, start, i, j - 1);
    }
  }

  // ---------- writing ----------

  function WriteStep(m: Storage, out: seq<byte>, t: Ptr, offset: nat): seq<byte> {
    if offset != 0 && offset == |out| then out + m(t) else out
  }

  /** The output after the tables of the first `i` methods, from their recovered offsets. */
  function WriteAt(m: Storage, ts: seq<Ptr>, offsets: seq<nat>, before: seq<byte>, i: nat): seq<byte>
    requires i <= |ts| == |offsets|
  {
    if i == 0 then before else WriteStep(m, WriteAt(m, ts, offsets, before, i - 1), ts[i - 1], offsets[i - 1])
  }

  ghost predicate TableAt(m: Storage, out: seq<byte>, t: Ptr, offset: nat) {
    offset + |m(t)| <= |out| && out[offset..offset + |m(t)|] == m(t)
  }

  lemma TableAtPersists(m: Storage, out: seq<byte>, more: seq<byte>, t: Ptr, offset: nat)
    requires TableAt(m, out, t, offset) && out <= more
    ensures TableAt(m, more, t, offset)
  {
    assert more[offset..offset + |m(t)|] == out[offset..offset + |m(t)|];
  }

  /** The tables planned so far are in place and the cursor is the planned one. */
  ghost predicate Following(m: Storage, s: Plan, before: seq<byte>, out: seq<byte>) {
    && |out| == s.offset
    && before <= out
    && forall t :: t in s.dedupe ==> TableAt(m, out, t, s.dedupe[t])
  }

  lemma FollowStep(m: Storage, ts: seq<Ptr>, s: Plan, before: seq<byte>, out: seq<byte>, i: nat)
    requires 0 < |before| && i < |ts| && PlanOk(m, ts, |before|, s, i) && Following(m, s, before, out)
    ensures var n := PlanStep(m, s, ts[i]);
      && |n.offsets| == i + 1
      && Following(m, n, before, WriteStep(m, out, ts[i], n.offsets[i]))
      && (n.offsets[i] != 0 && n.offsets[i] == |out| <==> m(ts[i]) != [] && ts[i] !in ts[..i])
  {
    var n := PlanStep(m, s, ts[i]);
    assert ts[i] in s.dedupe <==> Seen(m, ts, ts[i], i);
    if m(ts[i]) != [] && ts[i] !in s.dedupe {
      var more := out + m(ts[i]);
      assert TableAt(m, more, ts[i], |out|);
      forall t | t in s.dedupe
        ensures TableAt(m, more, t, s.dedupe[t])
      {
        TableAtPersists(m, out, more, t, s.dedupe[t]);
      }
    }
  }

  lemma {:induction false} WriteFollowsPlan(m: Storage, ts: seq<Ptr>, before: seq<byte>, offsets: seq<nat>, i: nat)
    requires 0 < |before| && i <= |ts| && offsets == PlanAt(m, ts, |before|, |ts|).offsets
    ensures |offsets| == |ts|
    ensures Following(m, PlanAt(m, ts, |before|, i), before, WriteAt(m, ts, offsets, before, i))
  {
    hide PlanOk, Following, PlanStep, WriteStep;
    CoversAll(m, ts, |before|);
    if i == 0 {
      FollowStart(m, ts, before);
    } else {
      WriteFollowsPlan(m, ts, before, offsets, i - 1);
      PlanIsOk(m, ts, |before|, i - 1);
      FollowStep(m, ts, PlanAt(m, ts, |before|, i - 1), before, WriteAt(m, ts, offsets, before, i - 1), i - 1);
      PlanGrows(m, ts, |before|, i, |ts|);
    }
  }

  lemma FollowStart(m: Storage, ts: seq<Ptr>, before: seq<byte>)
    ensures Following(m, PlanAt(m, ts, |before|, 0), before, before)
  {
  }

  lemma CoversAll(m: Storage, ts: seq<Ptr>, start: nat)
    ensures |PlanAt(m, ts, start, |ts|).offsets| == |ts|
  {
    PlanIsOk(m, ts, start, |ts|);
  }

  // ---------- results ----------

  ghost predicate AllTablesAt(m: Storage, ts: seq<Ptr>, offsets: seq<nat>, out: seq<byte>)
    requires |ts| == |offsets|
  {
    forall j :: 0 <= j < |ts| ==>
      if m(ts[j]) == [] then offsets[j] == 0 else offsets[j] > 0 && TableAt(m, out, ts[j], offsets[j])
  }

  /** The table pass ends where it was planned to end and every method's offset holds its own table. */
  lemma TablePassRefinesPlan(m: Storage, ts: seq<Ptr>, before: seq<byte>, plan: Plan)
    requires 0 < |before| && plan == PlanAt(m, ts, |before|, |ts|)
    ensures |plan.offsets| == |ts|
    ensures var out := WriteAt(m, ts, plan.offsets, before, |ts|);
      |out| == plan.offset && before <= out && AllTablesAt(m, ts, plan.offsets, out)
    ensures forall j :: 0 <= j < |ts| ==> plan.offsets[j] + |m(ts[j])| <= plan.offset
  {
    WriteFollowsPlan(m, ts, before, plan.offsets, |ts|);
    PlanIsOk(m, ts, |before|, |ts|);
    hide WriteAt, PlanAt;
  }

  /** `map_offset == offset_` holds exactly at the first method with each table. */
  lemma WrittenAtFirstOccurrence(m: Storage, ts: seq<Ptr>, before: seq<byte>, offsets: seq<nat>, i: nat)
    requires 0 < |before| && i < |ts| && offsets == PlanAt(m, ts, |before|, |ts|).offsets
    ensures |offsets| == |ts|
    ensures offsets[i] != 0 && offsets[i] == |WriteAt(m, ts, offsets, before, i)| <==>
      m(ts[i]) != [] && ts[i] !in ts[..i]
  {
    WriteFollowsPlan(m, ts, before, offsets, i);
    PlanIsOk(m, ts, |before|, i);
    FollowStep(m, ts, PlanAt(m, ts, |before|, i), before, WriteAt(m, ts, offsets, before, i), i);
    PlanGrows(m, ts, |before|, i + 1, |ts|);
  }
}
