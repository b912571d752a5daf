/**
 Copying the objects into the images: every reference becomes the address its target will have, and
 identity hash codes move from the side table back into the lock words of the copies.
 */
module ImageCopy {
  import opened Wrappers
  import opened Align
  import opened ImageBins
  import opened ImageLayout
  import I = ImageClosure

  // What is written at the address of an object. Null is address zero.
  datatype Copy = Copy(kind: I.Kind, refs: seq<nat>, lock: word)

  // The objects to copy, with their references as the walk left them, and the laid out images.
  datatype Source = Source(
    h: I.Heap, refs: map<I.Id, seq<I.Ref>>, bootAddress: I.Id -> nat,
    infos: seq<ImageInfo>, lockWords: map<nat, word>, imageOf: map<nat, nat>, saved: map<nat, nat>,
    marks: bool)

  // How the source was laid out: by which assignments, starting from which lock words.
  datatype Plan = Plan(base: nat, t: Target, es: seq<Event>, was: map<nat, word>)

  /** Everything a reference may lead to has an address. */
  ghost predicate Placed(s: Source, r: I.Ref) {
    r.Null? || r.value in s.h.inBoot || r.value in s.imageOf
  }

  ghost predicate LaidOut(s: Source, p: Plan) {
    && p.base > 0 && p.t.Valid()
    && EventsOk(p.es, |s.infos|)
    && Located(p.base, p.t, p.es, s.infos, |s.infos|)
    && OffsetsStored(p.t, p.es, s.lockWords, s.imageOf)
    && HashesSaved(p.was, s.lockWords, s.imageOf, s.saved)
  }

  // Boot objects lie elsewhere: below or above the new images, and not at null.
  ghost predicate BootApart(s: Source, p: Plan) {
    && s.h.inBoot !! s.imageOf.Keys
    && (forall o :: o in s.h.inBoot ==> s.bootAddress(o) != 0)
    && (forall o :: o in s.h.inBoot ==>
          s.bootAddress(o) < p.base || p.base + ImageStart(p.t, p.es, |s.infos|) <= s.bootAddress(o))
    && (forall a, b :: a in s.h.inBoot && b in s.h.inBoot && s.bootAddress(a) == s.bootAddress(b) ==> a == b)
  }

  // The graph to copy is closed.
  ghost predicate Closed(s: Source) {
    && s.imageOf.Keys <= s.refs.Keys && s.imageOf.Keys <= s.h.kind.Keys
    && (forall o, k :: o in s.imageOf && 0 <= k < |s.refs[o]| ==> Placed(s, s.refs[o][k]))
  }

  // ---------- addresses ----------

  ghost predicate Addressable(s: Source) {
    forall o :: o in s.imageOf ==> o in s.lockWords && s.imageOf[o] < |s.infos|
  }

  /** The address a reference has in the image; null and boot references are unchanged. */
  function GetImageAddress(s: Source, r: I.Ref): nat
    requires Placed(s, r)
    requires Addressable(s)
  {
    if r.Null? then 0
    else if r.value in s.h.inBoot then s.bootAddress(r.value)
    else s.infos[s.imageOf[r.value]].begin + ForwardingAddress(s.lockWords[r.value])
  }

  lemma Ready(s: Source, p: Plan)
    requires LaidOut(s, p)
    ensures Addressable(s)
  {
    hide Offset, HashesSaved, Located;
    forall o | o in s.imageOf
      ensures o in s.lockWords && s.imageOf[o] < |s.infos|
    {
      var n :| 0 <= n < |p.es| && p.es[n].Object? && p.es[n].id == o;
      assert OffsetStored(p.t, p.es, n, s.lockWords, s.imageOf);
      assert p.es[n] in p.es;
    }
  }

  lemma ObjectAddress(s: Source, p: Plan, o: nat) returns (n: nat)
    requires LaidOut(s, p) && o in s.imageOf && o !in s.h.inBoot
    ensures n < |p.es| && p.es[n].Object? && p.es[n].id == o && p.es[n].WellFormed()
    ensures Addressable(s)
    ensures GetImageAddress(s, I.To(o)) == Address(p.base, p.t, p.es, n)
    ensures p.es[n].image < |s.infos|
  {
    hide Offset, HashesSaved, ForwardingAddress, FromForwardingAddress;
    Ready(s, p);
    n :| 0 <= n < |p.es| && p.es[n].Object? && p.es[n].id == o;
    assert p.es[n] in p.es;
    assert OffsetStored(p.t, p.es, n, s.lockWords, s.imageOf);
    EventsWellFormed(p.es, |s.infos|);
    ObjectsBeforeNatives(p.t, p.es, n);
    ForwardingRoundTrip(Offset(p.t, p.es, n));
  }

  lemma EventsWellFormed(es: seq<Event>, images: nat)
    requires EventsOk(es, images)
    ensures forall e :: e in es ==> e.WellFormed() && e.image < images
  {
  }

  lemma InsideAllImages(base: nat, t: Target, es: seq<Event>, n: nat, images: nat)
    requires n < |es| && es[n].WellFormed() && es[n].image < images
    ensures base <= Address(base, t, es, n)
    ensures Address(base, t, es, n) + es[n].Delta() <= base + ImageStart(t, es, images)
  {
    hide Offset, ImageSize;
    InsideImage(t, es, n);
    ImagesAscend(t, es, es[n].image, images);
  }

  /** Different targets have different addresses, over all images, the boot image and null. */
  lemma AddressesInjective(s: Source, p: Plan, a: I.Ref, b: I.Ref)
    requires LaidOut(s, p) && BootApart(s, p) && Placed(s, a) && Placed(s, b)
    ensures Addressable(s)
    ensures GetImageAddress(s, a) == GetImageAddress(s, b) <==> a == b
  {
    hide LaidOut, Address, ForwardingAddress;
    Ready(s, p);
    if a != b && a.To? && a.value in s.imageOf {
      InImages(s, p, a.value);
      if b.To? && b.value in s.imageOf {
        TwoObjects(s, p, a.value, b.value);
      }
    } else if a != b && b.To? && b.value in s.imageOf {
      InImages(s, p, b.value);
    }
  }

  lemma InImages(s: Source, p: Plan, o: nat)
    requires LaidOut(s, p) && o in s.imageOf && o !in s.h.inBoot
    ensures Addressable(s)
    ensures 0 < p.base <= GetImageAddress(s, I.To(o)) < p.base + ImageStart(p.t, p.es, |s.infos|)
  {
    hide Offset, ImageStart, Address, GetImageAddress;
    var n := ObjectAddress(s, p, o);
    InsideAllImages(p.base, p.t, p.es, n, |s.infos|);
  }

  lemma TwoObjects(s: Source, p: Plan, a: nat, b: nat)
    requires LaidOut(s, p) && a in s.imageOf && a !in s.h.inBoot && b in s.imageOf && b !in s.h.inBoot && a != b
    ensures Addressable(s)
    ensures GetImageAddress(s, I.To(a)) != GetImageAddress(s, I.To(b))
  {
    hide Address, LaidOut, GetImageAddress;
    var m := ObjectAddress(s, p, a);
    var n := ObjectAddress(s, p, b);
    if m < n {
      AddressesDisjoint(p.base, p.t, p.es, m, n);
    } else {
      AddressesDisjoint(p.base, p.t, p.es, n, m);
    }
  }

  // ---------- copying ----------

  function CopiedRefs(s: Source, rs: seq<I.Ref>): (to: seq<nat>)
    requires forall k :: 0 <= k < |rs| ==> Placed(s, rs[k])
    requires Addressable(s)
    ensures |to| == |rs|
  {
    seq<nat>(|rs|, k requires 0 <= k < |rs| => GetImageAddress(s, rs[k]))
  }

  // Under a read barrier that treats image objects as marked, copies carry the mark bit.
  function LockOf(s: Source, o: nat): word
    requires HashesFit(s)
  {
    var w := if o in s.saved then FromHashCode(s.saved[o]) else DEFAULT_LOCK;
    if s.marks then SetMarkBit(w) else w
  }

  function CopyOf(s: Source, o: nat): Copy
    requires Addressable(s) && Closed(s) && HashesFit(s) && o in s.imageOf
  {
    Copy(s.h.kind[o], CopiedRefs(s, s.refs[o]), LockOf(s, o))
  }

  ghost predicate HashesFit(s: Source) {
    forall o :: o in s.saved ==> s.saved[o] <= MAX_HASH
  }

  lemma SavedFit(s: Source, p: Plan)
    requires LaidOut(s, p)
    ensures HashesFit(s)
  {
    hide OffsetsStored, Located, EventsOk, StateOf;
  }

  method CopyAndFixupObject(s: Source, o: nat) returns (c: Copy)
    requires Addressable(s) && Closed(s) && HashesFit(s) && o in s.imageOf
    ensures c == CopyOf(s, o)
  {
    hide GetImageAddress, FromHashCode, Addressable, SetMarkBit;
    c := Copy(s.h.kind[o], [], if o in s.saved then FromHashCode(s.saved[o]) else DEFAULT_LOCK);
    if s.marks {
      c := c.(lock := SetMarkBit(c.lock));
    }
    var refs: seq<nat> := [];
    for k := 0 to |s.refs[o]|
      invariant |refs| == k
      invariant forall i :: 0 <= i < k ==> Placed(s, s.refs[o][i]) && refs[i] == GetImageAddress(s, s.refs[o][i])
    {
      refs := refs + [GetImageAddress(s, s.refs[o][k])];
    }
    assert refs == CopiedRefs(s, s.refs[o]);
    c := c.(refs := refs);
  }

  // The copies made so far, each at the address of its original.
  ghost predicate CopiedSoFar(s: Source, memory: map<nat, Copy>, done: set<nat>)
    requires Addressable(s) && Closed(s) && HashesFit(s) && done <= s.imageOf.Keys
  {
    && (forall o :: o in done ==>
          GetImageAddress(s, I.To(o)) in memory && memory[GetImageAddress(s, I.To(o))] == CopyOf(s, o))
    && (forall a :: a in memory ==> exists o :: o in done && GetImageAddress(s, I.To(o)) == a)
  }

  lemma CopyOne(s: Source, p: Plan, memory: map<nat, Copy>, done: set<nat>, o: nat)
    requires LaidOut(s, p) && s.h.inBoot !! s.imageOf.Keys && Addressable(s) && Closed(s) && HashesFit(s)
    requires done <= s.imageOf.Keys
    requires CopiedSoFar(s, memory, done) && o in s.imageOf && o !in done
    ensures CopiedSoFar(s, memory[GetImageAddress(s, I.To(o)) := CopyOf(s, o)], done + {o})
  {
    hide GetImageAddress, CopyOf, LaidOut, Closed, Addressable, HashesFit;
    var at := GetImageAddress(s, I.To(o));
    var now := memory[at := CopyOf(s, o)];
    forall q | q in done + {o}
      ensures GetImageAddress(s, I.To(q)) in now && now[GetImageAddress(s, I.To(q))] == CopyOf(s, q)
    {
      if q != o {
        TwoObjects(s, p, q, o);
      }
    }
    forall a | a in now
      ensures exists q :: q in done + {o} && GetImageAddress(s, I.To(q)) == a
    {
      if a == at {
        assert o in done + {o};
      } else {
        var q :| q in done && GetImageAddress(s, I.To(q)) == a;
        assert q in done + {o};
      }
    }
  }

  /** Copies every object and puts the saved hash codes back into the originals. */
  method CopyAndFixupObjects(s: Source, ghost p: Plan) returns (memory: map<nat, Copy>, lockWords: map<nat, word>)
    requires LaidOut(s, p) && s.h.inBoot !! s.imageOf.Keys && Addressable(s) && Closed(s) && HashesFit(s)
    ensures CopiedSoFar(s, memory, s.imageOf.Keys)
    ensures lockWords.Keys == s.lockWords.Keys + s.saved.Keys
    ensures forall o :: o in lockWords ==>
      lockWords[o] == if o in s.saved then FromHashCode(s.saved[o]) else s.lockWords[o]
  {
    hide CopiedSoFar, CopyOf, LaidOut, Closed, GetImageAddress, HashesFit, Addressable, FromHashCode;
    memory := map[];
    var todo := s.imageOf.Keys;
    assert CopiedSoFar(s, memory, s.imageOf.Keys - todo) by { NothingCopied(s); }
    while todo != {}
      invariant todo <= s.imageOf.Keys && CopiedSoFar(s, memory, s.imageOf.Keys - todo)
      decreases todo
    {
      var o :| o in todo;
      CopyOne(s, p, memory, s.imageOf.Keys - todo, o);
      assert s.imageOf.Keys - todo + {o} == s.imageOf.Keys - (todo - {o});
      var c := CopyAndFixupObject(s, o);
      memory := memory[GetImageAddress(s, I.To(o)) := c];
      todo := todo - {o};
    }
    assert s.imageOf.Keys - {} == s.imageOf.Keys;
    lockWords := RestoreHashes(s);
  }

  lemma NothingCopied(s: Source)
    requires Addressable(s) && Closed(s) && HashesFit(s)
    ensures CopiedSoFar(s, map[], s.imageOf.Keys - s.imageOf.Keys)
  {
  }

  method RestoreHashes(s: Source) returns (lockWords: map<nat, word>)
    requires HashesFit(s)
    ensures lockWords.Keys == s.lockWords.Keys + s.saved.Keys
    ensures forall o :: o in lockWords ==>
      lockWords[o] == if o in s.saved then FromHashCode(s.saved[o]) else s.lockWords[o]
  {
    hide FromHashCode;
    lockWords := s.lockWords;
    var todo := s.saved.Keys;
    while todo != {}
      invariant todo <= s.saved.Keys
      invariant lockWords.Keys == s.lockWords.Keys + (s.saved.Keys - todo)
      invariant forall o :: o in lockWords ==>
        lockWords[o] == if o in s.saved.Keys - todo then FromHashCode(s.saved[o]) else s.lockWords[o]
      decreases todo
    {
      var o :| o in todo;
      lockWords := lockWords[o := FromHashCode(s.saved[o])];
      todo := todo - {o};
    }
  }

  // ---------- results ----------

  /**
   The copied graph is the original one: a field of the copy of `o` holds the address of `r` exactly
   when the field of `o` refers to `r`, for null, boot image and image objects alike.
   */
  lemma CopyIsIsomorphic(s: Source, p: Plan, memory: map<nat, Copy>, o: nat, k: nat, r: I.Ref)
    requires LaidOut(s, p) && BootApart(s, p) && Addressable(s) && Closed(s) && HashesFit(s)
    requires CopiedSoFar(s, memory, s.imageOf.Keys) && o in s.imageOf && k < |s.refs[o]| && Placed(s, r)
    ensures var at := GetImageAddress(s, I.To(o));
      && at in memory && memory[at].kind == s.h.kind[o] && |memory[at].refs| == |s.refs[o]|
      && (memory[at].refs[k] == GetImageAddress(s, r) <==> s.refs[o][k] == r)
  {
    hide GetImageAddress, LaidOut, BootApart, Addressable, HashesFit;
    AddressesInjective(s, p, s.refs[o][k], r);
  }

  /**
   What a copied field holds: zero for null, the old address for an object of the boot image, and
   otherwise the place in the new images where the copy of the referent is found.
   */
  lemma CopiedField(s: Source, memory: map<nat, Copy>, o: nat, k: nat)
    requires Addressable(s) && Closed(s) && HashesFit(s) && s.h.inBoot !! s.imageOf.Keys
    requires CopiedSoFar(s, memory, s.imageOf.Keys) && o in s.imageOf && k < |s.refs[o]|
    ensures var at := s.infos[s.imageOf[o]].begin + ForwardingAddress(s.lockWords[o]);
      at in memory && k < |memory[at].refs|
    ensures var field := memory[s.infos[s.imageOf[o]].begin + ForwardingAddress(s.lockWords[o])].refs[k];
      match s.refs[o][k]
      case Null => field == 0
      case To(r) =>
        if r in s.h.inBoot then field == s.bootAddress(r)
        else
          && r in s.imageOf && r in s.h.kind
          && field == s.infos[s.imageOf[r]].begin + ForwardingAddress(s.lockWords[r])
          && field in memory && memory[field].kind == s.h.kind[r]
  {
    hide ForwardingAddress, HashesFit, LockOf;
    assert o !in s.h.inBoot && Placed(s, s.refs[o][k]);
    assert GetImageAddress(s, I.To(o)) == s.infos[s.imageOf[o]].begin + ForwardingAddress(s.lockWords[o]);
    var r := s.refs[o][k];
    if r.To? && r.value !in s.h.inBoot {
      assert GetImageAddress(s, r) == s.infos[s.imageOf[r.value]].begin + ForwardingAddress(s.lockWords[r.value]);
      assert r == I.To(r.value) && r.value in s.imageOf.Keys;
    }
  }

  /** The copy has the original's identity hash, or an unlocked word if it had none, and the mark bit if asked for. */
  lemma HashIsKept(s: Source, p: Plan, o: nat)
    requires LaidOut(s, p) && Addressable(s) && Closed(s) && HashesFit(s) && o in s.imageOf
    ensures o in p.was
    ensures var lock := CopyOf(s, o).lock;
      && (if StateOf(p.was[o]) == HashCode then StateOf(lock) == HashCode && GetHashCode(lock) == GetHashCode(p.was[o])
          else StateOf(lock) == Unlocked)
      && (if s.marks then IsMarked(lock) else !IsMarked(lock) && (o !in s.saved ==> lock == DEFAULT_LOCK))
  {
    assert StateOf(DEFAULT_LOCK) == Unlocked && !IsMarked(DEFAULT_LOCK);
    hide OffsetsStored, Located, EventsOk, GetImageAddress, StateOf, GetHashCode, FromHashCode, CopiedRefs, SetMarkBit,
         IsMarked;
    var w := if o in s.saved then FromHashCode(s.saved[o]) else DEFAULT_LOCK;
    if o in s.saved {
      HashRoundTrip(s.saved[o]);
    }
    MarkKeeps(w);
  }

  /** What the walk leaves behind is closed, so all of it can be copied. */
  lemma WalkIsClosed(s: Source, w: I.State)
    requires s.h.Valid() && I.Inv(s.h, w, None) && w.stack == [] && s.imageOf == w.slots && s.refs == w.refs
    ensures Closed(s)
  {
    hide I.Inv;
    WalkSlots(s.h, w);
    forall o, k | o in s.imageOf && 0 <= k < |s.refs[o]|
      ensures Placed(s, s.refs[o][k])
    {
      I.InvTables(s.h, w, None);
      I.ClosedUnderReferences(s.h, w, o, k);
    }
  }

  lemma WalkSlots(h: I.Heap, w: I.State)
    requires h.Valid() && I.Inv(h, w, None)
    ensures w.slots.Keys <= w.refs.Keys && w.slots.Keys <= h.kind.Keys
  {
  }
}