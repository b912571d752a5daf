/**
 Making the direct-mapped method and field caches of a dex cache deterministic: every slot ends up
 with the lowest index that maps to it, belongs to a kept class and can be looked up.
 */
module DexCachePreload {
  import opened Wrappers
  import opened Align

  type Member = nat
  type ClassRef = nat

  const INVALID_CLASS: nat := 0xffff

  // A cleared slot has no object; its index then does not matter.
  datatype Slot = Slot(index: nat, resolved: Option<Member>)

  datatype Entry = Entry(index: nat, member: Member)

  // `classIdx[i]` is the referenced class of member id `i`.
  datatype Ids = Ids(classIdx: seq<nat>, cacheSize: pos, resolved: nat -> Option<ClassRef>, keep: ClassRef -> bool,
                     find: (ClassRef, nat) -> Option<Member>)
  {
    predicate Valid() { forall c :: c in classIdx ==> c != INVALID_CLASS }

    function SlotOf(i: nat): nat { i % cacheSize }

    function Slots(): nat { if |classIdx| < cacheSize then |classIdx| else cacheSize }

    // The class a type index refers to, unless it is to be pruned.
    function KeptClass(idx: nat): Option<ClassRef> {
      if resolved(idx).Some? && keep(resolved(idx).value) then resolved(idx) else None
    }

    function Lookup(i: nat): Option<Member>
      requires i < |classIdx|
    {
      var c := KeptClass(classIdx[i]);
      if c.Some? then find(c.value, i) else None
    }
  }

  function Content(s: Slot): Option<Entry> {
    if s.resolved.Some? then Some(Entry(s.index, s.resolved.value)) else None
  }

  /** Among the ids below `n` that map to `slot`, the lowest one that can be looked up in a kept class. */
  function Lowest(ids: Ids, slot: nat, n: nat): Option<Entry>
    requires n <= |ids.classIdx|
  {
    if n == 0 then None
    else if Lowest(ids, slot, n - 1).Some? then Lowest(ids, slot, n - 1)
    else if ids.SlotOf(n - 1) == slot && ids.Lookup(n - 1).Some? then Some(Entry(n - 1, ids.Lookup(n - 1).value))
    else None
  }

  /** `Lowest` is what its name says. */
  lemma {:induction false} LowestIsLowest(ids: Ids, slot: nat, n: nat)
    requires n <= |ids.classIdx|
    ensures var e := Lowest(ids, slot, n);
      if e.Some? then
        && e.value.index < n && ids.SlotOf(e.value.index) == slot && ids.Lookup(e.value.index) == Some(e.value.member)
        && forall i :: 0 <= i < e.value.index && ids.SlotOf(i) == slot ==> ids.Lookup(i).None?
      else
        forall i :: 0 <= i < n && ids.SlotOf(i) == slot ==> ids.Lookup(i).None?
  {
    if n > 0 {
      LowestIsLowest(ids, slot, n - 1);
    }
  }

  /** A slot that held `was`, once the ids below `n` have been processed. */
  function After(ids: Ids, was: Option<Entry>, slot: nat, n: nat): Option<Entry>
    requires n <= |ids.classIdx| && (was.Some? ==> was.value.index < |ids.classIdx|)
  {
    if was.None? then Lowest(ids, slot, n) else
      var stored := was.value.index;
      var below := Lowest(ids, slot, if n < stored then n else stored);
      if below.Some? then below
      else if n <= stored || ids.KeptClass(ids.classIdx[stored]).Some? then was
      else Lowest(ids, slot, n)
  }

  // A filled slot holds an index that maps to it.
  ghost predicate Placed(ids: Ids, was: seq<Slot>) {
    && |was| == ids.Slots()
    && forall s :: 0 <= s < |was| && was[s].resolved.Some? ==>
         was[s].index < |ids.classIdx| && ids.SlotOf(was[s].index) == s
  }

  // An index that maps to another slot, so that no query takes a cleared slot for an answer.
  function InvalidIndexForSlot(slot: nat): (i: nat)
    ensures forall size: pos :: 1 < size && slot < size ==> i % size != slot
  {
    if slot == 0 then 1 else 0
  }

  lemma SlotInRange(ids: Ids, i: nat)
    requires i < |ids.classIdx|
    ensures ids.SlotOf(i) < ids.Slots()
  {
  }

  /** There are exactly as many slots as ids can map to. */
  lemma SlotsAreUsed(ids: Ids, slot: nat)
    ensures slot < ids.Slots() <==> exists i: nat :: i < |ids.classIdx| && ids.SlotOf(i) == slot
  {
    if slot < ids.Slots() { assert ids.SlotOf(slot) == slot; }
    forall i: nat | i < |ids.classIdx|
      ensures ids.SlotOf(i) < ids.Slots()
    {
      SlotInRange(ids, i);
    }
  }

  // Ids of other slots leave a slot alone.
  lemma OtherSlot(ids: Ids, was: Option<Entry>, slot: nat, i: nat)
    requires i < |ids.classIdx| && ids.SlotOf(i) != slot
    requires was.Some? ==> was.value.index < |ids.classIdx| && ids.SlotOf(was.value.index) == slot
    ensures After(ids, was, slot, i + 1) == After(ids, was, slot, i)
  {
  }

  // One step for the slot of id `i`.
  lemma ThisSlot(ids: Ids, was: Option<Entry>, i: nat)
    requires i < |ids.classIdx|
    requires was.Some? ==> was.value.index < |ids.classIdx|
    ensures var slot := ids.SlotOf(i);
      var now, next, kept := After(ids, was, slot, i), After(ids, was, slot, i + 1), ids.KeptClass(ids.classIdx[i]);
      && (now.Some? && i > now.value.index ==> next == now)
      && (now.None? || i < now.value.index ==>
            next == if ids.Lookup(i).Some? then Some(Entry(i, ids.Lookup(i).value)) else now)
      && (now.Some? && i == now.value.index ==> next == if kept.Some? then now else None)
  {
    var slot := ids.SlotOf(i);
    LowestIsLowest(ids, slot, i);
    if was.Some? && was.value.index <= i {
      LowestIsLowest(ids, slot, was.value.index);
      SameLowest(ids, slot, was.value.index, i);
    }
  }

  lemma {:induction false} SameLowest(ids: Ids, slot: nat, m: nat, n: nat)
    requires m <= n <= |ids.classIdx|
    ensures Lowest(ids, slot, m).Some? ==> Lowest(ids, slot, n) == Lowest(ids, slot, m)
    decreases n - m
  {
    if m < n { SameLowest(ids, slot, m, n - 1); }
  }

  ghost predicate AllAfter(ids: Ids, was: seq<Slot>, now: seq<Slot>, n: nat)
    requires Placed(ids, was) && n <= |ids.classIdx|
  {
    |now| == |was| && forall s :: 0 <= s < |was| ==> Content(now[s]) == After(ids, Content(was[s]), s, n)
  }

  lemma StepAll(ids: Ids, was: seq<Slot>, now: seq<Slot>, i: nat, next: Slot)
    requires Placed(ids, was) && i < |ids.classIdx| && AllAfter(ids, was, now, i)
    requires ids.SlotOf(i) < |was| && Content(next) == After(ids, Content(was[ids.SlotOf(i)]), ids.SlotOf(i), i + 1)
    ensures AllAfter(ids, was, now[ids.SlotOf(i) := next], i + 1)
  {
    hide After, Lowest;
    forall s | 0 <= s < |was|
      ensures Content(now[ids.SlotOf(i) := next][s]) == After(ids, Content(was[s]), s, i + 1)
    {
      if s != ids.SlotOf(i) {
        PlacedContent(ids, was, s);
        OtherSlot(ids, Content(was[s]), s, i);
      }
    }
  }

  lemma PlacedContent(ids: Ids, was: seq<Slot>, s: nat)
    requires Placed(ids, was) && s < |was|
    ensures var c := Content(was[s]); c.Some? ==> c.value.index < |ids.classIdx| && ids.SlotOf(c.value.index) == s
  {
  }

  // A filled slot belongs to a class that is resolved and kept.
  ghost predicate SlotIsKept(ids: Ids, x: Slot, slot: nat) {
    && x.index < |ids.classIdx| && x.index % ids.cacheSize == slot
    && ids.resolved(ids.classIdx[x.index]).Some? && ids.keep(ids.resolved(ids.classIdx[x.index]).value)
  }

  /** The loop over all method ids, and that over all field ids. */
  method PruneAndPreload(ids: Ids, slots: array<Slot>)
    requires ids.Valid() && Placed(ids, slots[..])
    modifies slots
    ensures forall s :: 0 <= s < slots.Length ==>
      Content(slots[s]) == After(ids, Content(old(slots[s])), s, |ids.classIdx|)
    ensures forall s :: 0 <= s < slots.Length && slots[s].resolved.Some? ==> SlotIsKept(ids, slots[s], s)
    ensures forall s :: 0 <= s < slots.Length && slots[s].resolved.None? ==>
      slots[s] == old(slots[s]) || slots[s].index == if s == 0 then 1 else 0
  {
    ghost var was := slots[..];
    var lastClassIdx := INVALID_CLASS;
    var lastClass: Option<ClassRef> := None;
    assert AllAfter(ids, was, slots[..], 0);
    for i := 0 to |ids.classIdx|
      invariant slots.Length == |was| && AllAfter(ids, was, slots[..], i)
      invariant forall s :: 0 <= s < |was| && slots[s].resolved.None? ==>
        slots[s] == was[s] || slots[s].index == if s == 0 then 1 else 0
      invariant lastClassIdx != INVALID_CLASS ==> lastClass == ids.KeptClass(lastClassIdx)
    {
      hide After, Lowest, Placed;
      assert ids.classIdx[i] in ids.classIdx;
      var slot := ids.SlotOf(i);
      SlotInRange(ids, i);
      SlotCount(ids, was);
      PlacedContent(ids, was, slot);
      ThisSlot(ids, Content(was[slot]), i);
      ghost var now := slots[..];
      var pair := slots[slot];
      assert pair == now[slot];
      if pair.resolved.Some? && i > pair.index {
        StepAll(ids, was, now, i, pair);
        assert now[slot := pair] == now;
        continue;
      }
      if ids.classIdx[i] != lastClassIdx {
        lastClassIdx := ids.classIdx[i];
        lastClass := ids.resolved(lastClassIdx);
        if lastClass.Some? && !ids.keep(lastClass.value) {
          lastClass := None;
        }
      }
      var next := pair;
      if pair.resolved.None? || i < pair.index {
        if lastClass.Some? {
          var member := ids.find(lastClass.value, i);
          if member.Some? {
            next := Slot(i, member);
            slots[slot] := next;
          }
        }
      } else {
        if lastClass.None? {
          next := Slot(InvalidIndexForSlot(slot), None);
          slots[slot] := next;
        }
      }
      StepAll(ids, was, now, i, next);
      assert slots[..] == now[slot := next];
    }
    forall s | 0 <= s < slots.Length && slots[s].resolved.Some?
      ensures SlotIsKept(ids, slots[s], s)
    {
      hide After, Lowest;
      assert Content(slots[..][s]) == After(ids, Content(was[s]), s, |ids.classIdx|);
      PlacedContent(ids, was, s);
      OnlyKeptClasses(ids, Content(was[s]), s);
    }
  }

  lemma SlotCount(ids: Ids, was: seq<Slot>)
    requires Placed(ids, was)
    ensures |was| == ids.Slots()
  {
  }

  // ---------- determinism ----------

  /** An entry the slot started with agrees with what a lookup would give. */
  ghost predicate Agrees(ids: Ids, was: Option<Entry>) {
    was.Some? && was.value.index < |ids.classIdx| && ids.KeptClass(ids.classIdx[was.value.index]).Some?
    ==> ids.Lookup(was.value.index) == Some(was.value.member)
  }

  /** Whatever a slot held, in the end it holds an id of the slot whose class is resolved and kept. */
  lemma OnlyKeptClasses(ids: Ids, was: Option<Entry>, slot: nat)
    requires was.Some? ==> was.value.index < |ids.classIdx| && ids.SlotOf(was.value.index) == slot
    ensures var e := After(ids, was, slot, |ids.classIdx|);
      e.Some? ==>
        && e.value.index < |ids.classIdx| && e.value.index % ids.cacheSize == slot
        && ids.resolved(ids.classIdx[e.value.index]).Some?
        && ids.keep(ids.resolved(ids.classIdx[e.value.index]).value)
  {
    LowestIsLowest(ids, slot, |ids.classIdx|);
    if was.Some? {
      LowestIsLowest(ids, slot, was.value.index);
    }
  }

  // Id `i` has a resolved and kept class in which lookup finds member `m`.
  ghost predicate Finds(ids: Ids, i: nat, m: Member)
    requires i < |ids.classIdx|
  {
    var c := ids.resolved(ids.classIdx[i]);
    c.Some? && ids.keep(c.value) && ids.find(c.value, i) == Some(m)
  }

  /**
   For agreeing entries a slot ends up with a member that lookup finds for its index, in a resolved and
   kept class, and no lower index of the slot has such a member; it ends up empty only if none has.
   */
  lemma LowestMember(ids: Ids, was: Option<Entry>, slot: nat)
    requires was.Some? ==> was.value.index < |ids.classIdx| && ids.SlotOf(was.value.index) == slot
    requires Agrees(ids, was)
    ensures var e := After(ids, was, slot, |ids.classIdx|);
      if e.Some? then
        && e.value.index < |ids.classIdx| && e.value.index % ids.cacheSize == slot
        && Finds(ids, e.value.index, e.value.member)
        && forall i: nat, m: Member :: i < e.value.index && i % ids.cacheSize == slot ==> !Finds(ids, i, m)
      else
        forall i: nat, m: Member :: i < |ids.classIdx| && i % ids.cacheSize == slot ==> !Finds(ids, i, m)
  {
    Deterministic(ids, was, slot);
    LowestIsLowest(ids, slot, |ids.classIdx|);
    assert forall i: nat, m: Member :: i < |ids.classIdx| && Finds(ids, i, m) ==> ids.Lookup(i) == Some(m);
  }

  /** Given agreeing entries, the final slot does not depend on what it held before. */
  lemma Deterministic(ids: Ids, was: Option<Entry>, slot: nat)
    requires was.Some? ==> was.value.index < |ids.classIdx| && ids.SlotOf(was.value.index) == slot
    requires Agrees(ids, was)
    ensures After(ids, was, slot, |ids.classIdx|) == Lowest(ids, slot, |ids.classIdx|)
  {
    OnlyIfAgrees(ids, was, slot);
  }

  /**
   Exactly when the slot ends up as promised: unless a lower id takes its place, an entry that
   survives must be what the lookup finds.
   */
  lemma OnlyIfAgrees(ids: Ids, was: Option<Entry>, slot: nat)
    requires was.Some? ==> was.value.index < |ids.classIdx| && ids.SlotOf(was.value.index) == slot
    ensures After(ids, was, slot, |ids.classIdx|) == Lowest(ids, slot, |ids.classIdx|)
      <==> (was.Some? && Lowest(ids, slot, was.value.index).None? && ids.KeptClass(ids.classIdx[was.value.index]).Some?
            ==> ids.Lookup(was.value.index) == Some(was.value.member))
  {
    if was.Some? {
      var stored, n := was.value.index, |ids.classIdx|;
      SameLowest(ids, slot, stored, n);
      SameLowest(ids, slot, stored + 1, n);
      LowestIsLowest(ids, slot, n);
    }
  }

  /**
   The condition is needed: an entry that lookup would not have put there stays. Whether a runtime ever
   holds such an entry is not known.
   */
  lemma StaleEntryStays(ids: Ids)
    requires ids == Ids([0], 1, (i: nat) => Some(5), (c: ClassRef) => true, (c: ClassRef, i: nat) => Some(7))
    ensures Lowest(ids, 0, 1) == Some(Entry(0, 7))
    ensures After(ids, Some(Entry(0, 8)), 0, 1) == Some(Entry(0, 8))
  {
    assert Lowest(ids, 0, 0) == None;
    assert ids.SlotOf(0) == 0;
  }
}
