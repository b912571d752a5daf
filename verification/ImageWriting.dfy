/** The image writer from heap to memory: the walk, the layout of what it found, and the copy. */
module ImageWriting {
  import opened Wrappers
  import opened Align
  import opened ImageBins
  import opened ImageLayout
  import opened ImageNatives
  import opened ImageCopy
  import I = ImageClosure

  // How objects look to the layout, and where the boot image's objects are.
  datatype Objects = Objects(describe: I.Id -> Description, size: I.Id -> pos, parts: I.Id -> ClassParts,
                             bootAddress: I.Id -> nat)

  // What to write: where the walk starts, the runtime's methods and the room for dex caches.
  datatype Request = Request(
    files: seq<I.DexStrings>, roots: seq<I.Ref>, image: nat, runtime: seq<RuntimeMethodInfo>, caches: seq<CacheSpace>)
  {
    ghost predicate Valid(h: I.Heap) {
      && image < h.images && I.KnownRefs(h, roots) && Distinct(runtime)
      && (forall f :: f in files ==> f.image < h.images && I.KnownRefs(h, f.strings))
      && (forall c :: c in caches ==> c.image < h.images)
    }

    function Roots(): seq<I.Root> { I.Roots(files, roots, image) }
  }

  // Monitors have been deflated and nothing is locked.
  ghost predicate Unheld(h: I.Heap, lockWords: map<nat, word>) {
    forall o :: o in h.kind && o !in h.inBoot ==>
      o in lockWords && (StateOf(lockWords[o]) == Unlocked || StateOf(lockWords[o]) == HashCode)
  }

  // The layout has been told about the first `n` objects of the walk.
  ghost predicate ToldAbout(w: I.State, n: nat, imageOf: map<nat, nat>) {
    && n <= |w.order|
    && (forall o :: o in imageOf <==> o in w.order[..n])
    && (forall o :: o in imageOf && o in w.slots ==> imageOf[o] == w.slots[o])
  }

  // The layout's index holds exactly the objects it was told about.
  lemma StoredIndex(es: seq<Event>, lockWords: map<nat, word>, imageOf: map<nat, nat>, o: nat)
    requires SlotsStored(es, lockWords, imageOf)
    ensures o in imageOf <==> exists m :: 0 <= m < |es| && es[m].Object? && es[m].id == o
    ensures forall m :: 0 <= m < |es| && es[m].Object? && es[m].id == o ==> o in imageOf && imageOf[o] == es[m].image
  {
    hide Index, Pack, FromForwardingAddress;
    forall m | 0 <= m < |es| && es[m].Object? && es[m].id == o
      ensures o in imageOf && imageOf[o] == es[m].image
    {
      assert SlotStored(es, m, lockWords, imageOf);
    }
  }

  lemma ToldNext(w: I.State, n: nat, es: seq<Event>, e: Event, words: map<nat, word>, was: map<nat, nat>,
                 words': map<nat, word>, now: map<nat, nat>)
    requires ToldAbout(w, n, was) && n < |w.order| && e.Object? && e.id == w.order[n] && e.id in w.slots
    requires e.image == w.slots[e.id]
    requires SlotsStored(es, words, was) && SlotsStored(es + [e], words', now)
    ensures ToldAbout(w, n + 1, now)
  {
    hide SlotsStored;
    var more := es + [e];
    assert w.order[..n + 1] == w.order[..n] + [w.order[n]];
    forall o
      ensures o in now <==> o in w.order[..n + 1]
      ensures o in now && o in w.slots ==> now[o] == w.slots[o]
    {
      StoredIndex(es, words, was, o);
      StoredIndex(more, words', now, o);
      if o in now {
        var m :| 0 <= m < |more| && more[m].Object? && more[m].id == o;
        if m < |es| { assert more[m] == es[m]; }
      }
      if o in was {
        var m :| 0 <= m < |es| && es[m].Object? && es[m].id == o;
        assert more[m] == es[m];
      }
      assert more[|es|] == e;
    }
  }

  // The native data of a class goes in front of the class.
  ghost function AddObject(p: pos, es: seq<Event>, o: I.Id, image: nat, objects: Objects): (all: seq<Event>)
    ensures es <= all
  {
    AddClass(p, es, o, image, objects.parts(o)) + [Object(o, image, BinFor(objects.describe(o)), objects.size(o))]
  }

  ghost function AddObjects(p: pos, es: seq<Event>, w: I.State, objects: Objects, n: nat): (all: seq<Event>)
    requires n <= |w.order| && forall o :: o in w.order ==> o in w.slots
    ensures es <= all
  {
    if n == 0 then es else
      AddObject(p, AddObjects(p, es, w, objects, n - 1), w.order[n - 1], w.slots[w.order[n - 1]], objects)
  }

  /** Everything that is assigned for the objects of a walk, in order. */
  ghost function Assignments(p: pos, q: Request, w: I.State, objects: Objects): (es: seq<Event>)
    requires forall o :: o in w.order ==> o in w.slots
  {
    AddCaches(p, AddObjects(p, AddRuntime(p, q.runtime, q.image, |q.runtime|), w, objects, |w.order|), q.caches,
      |q.caches|)
  }

  lemma NotTold(h: I.Heap, w: I.State, n: nat, was: map<nat, word>, now: map<nat, word>, imageOf: map<nat, nat>,
                saved: map<nat, nat>)
    requires I.Inv(h, w, None) && n < |w.order| && ToldAbout(w, n, imageOf) && Unheld(h, was)
    requires HashesSaved(was, now, imageOf, saved)
    ensures var o := w.order[n];
      && o in w.slots && w.slots[o] < h.images && o !in imageOf
      && o in now && (StateOf(now[o]) == Unlocked || StateOf(now[o]) == HashCode)
  {
    hide StateOf, I.TablesOk, I.StringsOk, I.StackOk, I.RefsOk;
  }

  ghost function Seen(order: seq<I.Id>, n: nat): set<I.Id>
    requires n <= |order|
  {
    set o | o in order[..n]
  }

  lemma SeenNext(h: I.Heap, w: I.State, n: nat)
    requires I.Inv(h, w, None) && n < |w.order|
    ensures w.order[n] !in Seen(w.order, n) && Seen(w.order, n + 1) == Seen(w.order, n) + {w.order[n]}
  {
    hide I.TablesOk, I.StringsOk, I.StackOk, I.RefsOk;
    assert w.order[..n + 1] == w.order[..n] + [w.order[n]];
  }

  /** One object of the walk: its native data, if it is a class, and then the object itself. */
  method LayOutObject(l: Layouter, h: I.Heap, objects: Objects, o: I.Id, image: nat, ghost w: I.State, ghost n: nat)
    requires l.Valid() && l.images == h.images && Unheld(h, l.was) && I.Inv(h, w, None)
    requires n < |w.order| && o == w.order[n] && o in w.slots && image == w.slots[o]
    requires ToldAbout(w, n, l.imageOf) && OwnersIn(l.es, Owners(Seen(w.order, n), 0))
    modifies l
    ensures l.Valid() && l.es == AddObject(l.t.pointerSize, old(l.es), o, image, objects)
    ensures ToldAbout(w, n + 1, l.imageOf) && OwnersIn(l.es, Owners(Seen(w.order, n + 1), 0))
  {
    hide I.Inv, InfosOk, EventsOk, SlotsStored, HashesSaved, NativesStored, WholePieces, ToldAbout, Unheld, BinFor,
         OwnersIn, AddClass,
         Seen, ClearOf;
    ghost var p, start := l.t.pointerSize, l.es;
    SeenNext(h, w, n);
    NotTold(h, w, n, l.was, l.lockWords, l.imageOf, l.savedHash);
    UnseenIsClear(l.es, Owners(Seen(w.order, n), 0), o);
    AssignClass(l, o, image, objects.parts(o));
    ghost var who := Owners(Seen(w.order, n + 1), 0);
    SeenMore(start, Owners(Seen(w.order, n), 0), who);
    ClassOwned(p, start, o, image, objects.parts(o), who);
    ghost var es, words, was := l.es, l.lockWords, l.imageOf;
    var bin := l.AssignImageBinSlot(o, image, objects.describe(o), objects.size(o));
    ghost var e := Object(o, image, bin, objects.size(o));
    OneOwner(es, who, e);
    ToldNext(w, n, es, e, words, was, l.lockWords, l.imageOf);
  }

  /** Lays out the runtime's methods, the objects of the walk in the order they were found in, and the dex caches. */
  method LayOut(l: Layouter, h: I.Heap, q: Request, objects: Objects, order: seq<I.Id>, slots: map<I.Id, nat>,
                ghost w: I.State)
    requires l.Valid() && l.es == [] && l.images == h.images && Unheld(h, l.was) && q.Valid(h)
    requires I.Inv(h, w, None) && order == w.order && slots == w.slots
    modifies l
    ensures l.Valid() && ToldAbout(w, |w.order|, l.imageOf)
    ensures (forall o :: o in w.order ==> o in w.slots) && l.es == Assignments(l.t.pointerSize, q, w, objects)
  {
    hide I.Inv, InfosOk, EventsOk, SlotsStored, HashesSaved, NativesStored, WholePieces, ToldAbout, Unheld, OwnersIn,
         AddObject,
         AddRuntimeMethod, Distinct;
    WalkHasSlots(h, w);
    ghost var p := l.t.pointerSize;
    assert ToldAbout(w, 0, l.imageOf) by { ToldNothing(w, l.lockWords, l.imageOf); }
    AssignRuntime(l, q.runtime, q.image);
    ghost var runtime := l.es;
    RuntimeKnown(p, q.runtime, q.image, |q.runtime|, 0);
    SeenMore(runtime, Owners({}, 0), Owners(Seen(w.order, 0), 0));
    for n := 0 to |order|
      invariant l.Valid() && ToldAbout(w, n, l.imageOf) && l.es == AddObjects(p, runtime, w, objects, n)
      invariant OwnersIn(l.es, Owners(Seen(w.order, n), 0))
    {
      LayOutObject(l, h, objects, order[n], slots[order[n]], w, n);
    }
    AssignCaches(l, q.caches, Seen(w.order, |order|));
  }

  lemma WalkHasSlots(h: I.Heap, w: I.State)
    requires I.Inv(h, w, None)
    ensures forall o :: o in w.order ==> o in w.slots
  {
  }

  lemma ToldNothing(w: I.State, lockWords: map<nat, word>, imageOf: map<nat, nat>)
    requires SlotsStored([], lockWords, imageOf)
    ensures ToldAbout(w, 0, imageOf)
  {
  }

  lemma AllTold(h: I.Heap, w: I.State, imageOf: map<nat, nat>)
    requires I.Inv(h, w, None) && ToldAbout(w, |w.order|, imageOf)
    ensures imageOf == w.slots && h.inBoot !! imageOf.Keys
  {
    assert w.order[..|w.order|] == w.order;
    hide I.TablesOk, I.StringsOk, I.StackOk, I.RefsOk;
    assert forall o :: o in imageOf <==> o in w.slots;
  }

  // What the walk leaves: everything settled, and slots exactly for what the roots reach.
  ghost predicate Walked(h: I.Heap, roots: seq<I.Root>, w: I.State) {
    && I.Inv(h, w, None) && w.stack == [] && I.Justified(h, w, roots) && I.AllSettled(h, w, roots)
    && (forall o :: o in w.slots <==> I.Reachable(h, roots, o))
  }

  lemma AllWalked(h: I.Heap, roots: seq<I.Root>, w: I.State)
    requires h.Valid() && I.Inv(h, w, None) && w.stack == [] && I.Justified(h, w, roots) && I.AllSettled(h, w, roots)
    ensures Walked(h, roots, w)
  {
    hide I.Inv, I.Justified, I.Reachable, I.AllSettled;
    forall o
      ensures o in w.slots <==> I.Reachable(h, roots, o)
    {
      I.SlotIffReachable(h, w, roots, o);
    }
  }

  /**
   The whole job. Exactly when no mirror bin overflows, everything reachable from the roots, and nothing
   else, ends up in memory, laid out and copied, and native data has its place in the images.
   */
  method WriteImages(h: I.Heap, q: Request, t: Target, base: nat, lockWords: map<nat, word>, objects: Objects,
                     marks: bool)
    returns (ok: bool, memory: map<nat, Copy>, natives: map<NativeId, Relocation>, ghost s: Source, ghost w: I.State)
    requires h.Valid() && q.Valid(h) && t.Valid() && base > 0 && Unheld(h, lockWords)
    ensures Walked(h, q.Roots(), w)
    ensures ok <==> AllFit(Assignments(t.pointerSize, q, w, objects), h.images)
    ensures ok ==>
      s.h == h && s.refs == w.refs && s.imageOf == w.slots && s.bootAddress == objects.bootAddress && s.marks == marks
    ensures ok ==> var es := Assignments(t.pointerSize, q, w, objects);
      LaidOut(s, Plan(base, t, es, lockWords)) && NativesMoved(t, es, natives) && WholePieces(t, es)
    ensures ok ==> Addressable(s) && Closed(s) && HashesFit(s) && CopiedSoFar(s, memory, s.imageOf.Keys)
  {
    hide I.Inv, InfosOk, EventsOk, SlotsStored, HashesSaved, NativesStored, WholePieces, ToldAbout, Unheld,
         OffsetsStored, Located,
         Addressable, Closed, HashesFit, CopiedSoFar, I.Justified, I.AllSettled, Walked, AllFit, Assignments,
           NativesMoved;
    var walker := new I.Walker(h);
    walker.AssignAll(q.files, q.roots, q.image);
    w := walker.S();
    AllWalked(h, q.Roots(), w);
    WalkHasSlots(h, w);
    var l := new Layouter(t, base, h.images, lockWords);
    LayOut(l, h, q, objects, walker.order, walker.slots, w);
    memory, natives, s := map[], map[], Source(h, w.refs, objects.bootAddress, [], map[], map[], map[], marks);
    ok := l.HasRoom();
    if ok {
      AllTold(h, w, l.imageOf);
      l.CalculateOffsets();
      l.UnbinObjects();
      var source := Source(h, walker.refs, objects.bootAddress, l.infos, l.lockWords, l.imageOf, l.savedHash, marks);
      s := source;
      ghost var p := Plan(base, t, l.es, lockWords);
      Ready(s, p);
      SavedFit(s, p);
      WalkIsClosed(s, w);
      l.UpdateNatives();
      natives := l.natives;
      var restored;
      memory, restored := CopyAndFixupObjects(source, p);
    }
  }

  // ---------- what the image says about classes ----------

  lemma {:induction false} ObjectsGrow(p: pos, es: seq<Event>, w: I.State, objects: Objects, m: nat, n: nat)
    requires m <= n <= |w.order| && forall o :: o in w.order ==> o in w.slots
    ensures AddObjects(p, es, w, objects, m) <= AddObjects(p, es, w, objects, n)
    decreases n - m
  {
    hide AddObject;
    if m < n { ObjectsGrow(p, es, w, objects, m, n - 1); }
  }

  lemma IndexInWalk(h: I.Heap, w: I.State, o: I.Id) returns (i: nat)
    requires I.Inv(h, w, None) && o in w.slots
    ensures i < |w.order| && w.order[i] == o
  {
    hide I.TablesOk, I.StringsOk, I.StackOk, I.RefsOk;
    i :| 0 <= i < |w.order| && w.order[i] == o;
  }

  // The native data of object `i` of the walk is among the assignments.
  lemma ClassIsAssigned(p: pos, q: Request, w: I.State, objects: Objects, i: nat)
    requires i < |w.order| && forall o :: o in w.order ==> o in w.slots
    ensures var o, runtime := w.order[i], AddRuntime(p, q.runtime, q.image, |q.runtime|);
      AddClass(p, AddObjects(p, runtime, w, objects, i), o, w.slots[o], objects.parts(o)) <=
        Assignments(p, q, w, objects)
  {
    hide AddClass, AddRuntime;
    var runtime := AddRuntime(p, q.runtime, q.image, |q.runtime|);
    ObjectsGrow(p, runtime, w, objects, i + 1, |w.order|);
  }

  /**
   For every class that the walk found, element `k` of each of its arrays lies in the class's image,
   behind the array's header and `k` elements.
   */
  lemma ElementsInPlace(t: Target, q: Request, h: I.Heap, w: I.State, objects: Objects, natives: map<NativeId,
                        Relocation>, o: I.Id, part: Part, k: nat)
    requires I.Inv(h, w, None) && o in w.slots && objects.parts(o).ClassParts?
    requires (forall x :: x in w.order ==> x in w.slots)
    requires NativesMoved(t, Assignments(t.pointerSize, q, w, objects), natives)
    requires var s := ShapeOf(objects.parts(o), part); s.Shape? && k < s.count
    ensures ArrayOf(o, part) in natives && ElementOf(o, part, k) in natives
    ensures var s, a, e := ShapeOf(objects.parts(o), part), natives[ArrayOf(o, part)], natives[ElementOf(o, part, k)];
      && e.image == a.image == w.slots[o] && e.bin == a.bin == BinTypeForNative(s.array_)
      && e.offset == a.offset + NativeSize(t.pointerSize, s.array_) + k * NativeSize(t.pointerSize, s.element)
  {
    hide I.Inv, NativesMoved, AddClass, ShapeOf, NativeSize, SameBin, ArrayAt, AddRuntime, AddObjects, Assignments;
    var p, image, c := t.pointerSize, w.slots[o], objects.parts(o);
    var i := IndexInWalk(h, w, o);
    ClassIsAssigned(p, q, w, objects, i);
    var before := AddObjects(p, AddRuntime(p, q.runtime, q.image, |q.runtime|), w, objects, i);
    var m := PartIsThere(p, before, o, image, c, part, Assignments(p, q, w, objects));
    ShapesKeepBin(c, part);
    ElementsFollow(t, Assignments(p, q, w, objects), natives, m, o, part, image, ShapeOf(c, part), k);
  }

  // Every method of a class has its place in the method array, among the clean or the dirty ones.
  lemma MethodsInPlace(t: Target, q: Request, h: I.Heap, w: I.State, objects: Objects,
                       natives: map<NativeId, Relocation>, o: I.Id, k: nat)
    requires I.Inv(h, w, None) && o in w.slots && objects.parts(o).ClassParts? && k < |objects.parts(o).dirty|
    requires (forall x :: x in w.order ==> x in w.slots)
    requires NativesMoved(t, Assignments(t.pointerSize, q, w, objects), natives)
    ensures ArrayOf(o, Methods) in natives && ElementOf(o, Methods, k) in natives
    ensures var a, e, size := natives[ArrayOf(o, Methods)], natives[ElementOf(o, Methods, k)], t.pointerSize;
      && e.image == a.image == w.slots[o]
      && e.offset == a.offset + RoundUp(4, size) + k * (RoundUp(20, size) + 3 * size)
      && (e.bin == METHOD_DIRTY <==> exists i :: 0 <= i < |objects.parts(o).dirty| && objects.parts(o).dirty[i])
      && (e.bin == METHOD_CLEAN <==> forall i :: 0 <= i < |objects.parts(o).dirty| ==> !objects.parts(o).dirty[i])
  {
    hide I.Inv, NativesMoved, Assignments, RoundUp;
    ElementsInPlace(t, q, h, w, objects, natives, o, Methods, k);
  }

  // So has every field.
  lemma FieldsInPlace(t: Target, q: Request, h: I.Heap, w: I.State, objects: Objects,
                      natives: map<NativeId, Relocation>, o: I.Id, part: Part, k: nat)
    requires I.Inv(h, w, None) && o in w.slots && objects.parts(o).ClassParts? && part != Methods
    requires var f := if part == StaticFields then objects.parts(o).statics else objects.parts(o).instances;
      f.Fields? && k < f.count
    requires (forall x :: x in w.order ==> x in w.slots)
    requires NativesMoved(t, Assignments(t.pointerSize, q, w, objects), natives)
    ensures ArrayOf(o, part) in natives && ElementOf(o, part, k) in natives
    ensures var a, e := natives[ArrayOf(o, part)], natives[ElementOf(o, part, k)];
      e.image == a.image == w.slots[o] && e.offset == a.offset + 4 + 16 * k && e.bin == a.bin == ART_FIELD
  {
    hide I.Inv, NativesMoved, Assignments;
    ElementsInPlace(t, q, h, w, objects, natives, o, part, k);
  }

  // ---------- what classes hold live ----------

  ghost predicate KnownObjects(w: I.State, objects: Objects, v: Tables) {
    forall i :: 0 <= i < |w.order| ==> KnownClass(objects.parts(w.order[i]), v)
  }

  lemma {:induction false} ObjectsLive(p: pos, es: seq<Event>, w: I.State, objects: Objects, n: nat, v: Tables)
    requires n <= |w.order| && (forall o :: o in w.order ==> o in w.slots) && AllLive(es, v)
    requires KnownObjects(w, objects, v)
    ensures AllLive(AddObjects(p, es, w, objects, n), v)
  {
    hide AllLive, AddClass, KnownClass;
    if n > 0 {
      ObjectsLive(p, es, w, objects, n - 1, v);
      var was, o := AddObjects(p, es, w, objects, n - 1), w.order[n - 1];
      assert KnownClass(objects.parts(o), v);
      ClassLive(p, was, o, w.slots[o], objects.parts(o), v);
      OtherLive(AddClass(p, was, o, w.slots[o], objects.parts(o)), v,
                Object(o, w.slots[o], BinFor(objects.describe(o)), objects.size(o)));
    }
  }

  lemma AllAreLive(p: pos, q: Request, w: I.State, objects: Objects, v: Tables)
    requires (forall o :: o in w.order ==> o in w.slots) && KnownObjects(w, objects, v) && KnownAll(q.runtime, v)
    ensures AllLive(Assignments(p, q, w, objects), v)
  {
    hide AllLive, AddObjects, AddRuntime, AddCaches, KnownObjects, KnownAll;
    var runtime := AddRuntime(p, q.runtime, q.image, |q.runtime|);
    RuntimeLive(p, q.runtime, q.image, |q.runtime|, v);
    ObjectsLive(p, runtime, w, objects, |w.order|, v);
    CachesLive(p, AddObjects(p, runtime, w, objects, |w.order|), q.caches, |q.caches|, v);
  }

  lemma MovedHasPlace(t: Target, es: seq<Event>, natives: map<NativeId, Relocation>, ptr: NativeId)
    requires NativesMoved(t, es, natives) && Assigned(es, ptr)
    ensures ptr in natives
  {
    hide Offset;
    var n :| 0 <= n < |es| && es[n].Native? && es[n].ptr == ptr;
    assert NativeAt(t, es, n, natives, true);
  }

  /**
   For every class that the walk found: its interface method table has a place, so has every runtime
   method in it, and so has every conflict table of those.
   */
  lemma HeldInPlace(t: Target, q: Request, h: I.Heap, w: I.State, objects: Objects, natives: map<NativeId, Relocation>,
                    v: Tables, o: I.Id, k: nat)
    requires I.Inv(h, w, None) && o in w.slots && (forall x :: x in w.order ==> x in w.slots)
    requires KnownObjects(w, objects, v) && KnownAll(q.runtime, v)
    requires NativesMoved(t, Assignments(t.pointerSize, q, w, objects), natives)
    requires objects.parts(o).ClassParts? && objects.parts(o).imt.Imt?
    ensures var imt := objects.parts(o).imt;
      && ImTableId(imt.n) in natives
      && (k < |imt.methods| ==>
            && RuntimeMethodId(imt.methods[k].n) in natives
            && (imt.methods[k].conflicts.Conflicts? ==> ConflictTableId(imt.methods[k].conflicts.n) in natives))
  {
    hide I.Inv, NativesMoved, AddClass, AddRuntime, AddObjects, Assignments, AllLive, Assigned, KnownAll;
    var p, c := t.pointerSize, objects.parts(o);
    var all := Assignments(p, q, w, objects);
    var i := IndexInWalk(h, w, o);
    assert KnownClass(c, v);
    AllAreLive(p, q, w, objects, v);
    ImtIsAssigned(p, q, w, objects, v, i);
    MovedHasPlace(t, all, natives, ImTableId(c.imt.n));
    if k < |c.imt.methods| {
      LiveMethod(all, v, c.imt.n, k);
      MovedHasPlace(t, all, natives, RuntimeMethodId(c.imt.methods[k].n));
      assert Known(c.imt.methods[k], v) by { KnownMember(c.imt.methods, v, k); }
      if c.imt.methods[k].conflicts.Conflicts? {
        LiveConflict(all, v, c.imt.methods[k].n);
        MovedHasPlace(t, all, natives, ConflictTableId(c.imt.methods[k].conflicts.n));
      }
    }
  }

  lemma KnownMember(ms: seq<RuntimeMethodInfo>, v: Tables, k: nat)
    requires KnownAll(ms, v) && k < |ms|
    ensures Known(ms[k], v)
  {
  }

  lemma LiveMethod(es: seq<Event>, v: Tables, n: nat, k: nat)
    requires AllLive(es, v) && Assigned(es, ImTableId(n)) && k < |v.imt(n)|
    ensures Assigned(es, RuntimeMethodId(v.imt(n)[k].n))
  {
    hide Assigned, ConflictsLive;
    assert ImtLive(es, v, n);
  }

  lemma LiveConflict(es: seq<Event>, v: Tables, m: nat)
    requires AllLive(es, v) && Assigned(es, RuntimeMethodId(m)) && v.conflicts(m).Conflicts?
    ensures Assigned(es, ConflictTableId(v.conflicts(m).n))
  {
    hide Assigned, ImtLive;
  }

  lemma ImtIsAssigned(p: pos, q: Request, w: I.State, objects: Objects, v: Tables, i: nat)
    requires i < |w.order| && (forall o :: o in w.order ==> o in w.slots)
    requires KnownObjects(w, objects, v) && KnownAll(q.runtime, v)
    requires objects.parts(w.order[i]).ClassParts? && objects.parts(w.order[i]).imt.Imt?
    ensures Assigned(Assignments(p, q, w, objects), ImTableId(objects.parts(w.order[i]).imt.n))
  {
    hide AddClass, AddRuntime, AddObjects, Assignments, AllLive, Assigned, KnownAll;
    var runtime := AddRuntime(p, q.runtime, q.image, |q.runtime|);
    var o := w.order[i];
    assert KnownClass(objects.parts(o), v);
    RuntimeLive(p, q.runtime, q.image, |q.runtime|, v);
    ObjectsLive(p, runtime, w, objects, i, v);
    ClassLive(p, AddObjects(p, runtime, w, objects, i), o, w.slots[o], objects.parts(o), v);
    ClassIsAssigned(p, q, w, objects, i);
    AssignedStays(AddClass(p, AddObjects(p, runtime, w, objects, i), o, w.slots[o], objects.parts(o)),
                  Assignments(p, q, w, objects), ImTableId(objects.parts(o).imt.n));
  }

  /** Every dex file's cache arrays have a place in the file's image, as large as they need. */
  lemma CachesInPlace(t: Target, q: Request, w: I.State, objects: Objects, natives: map<NativeId, Relocation>, k: nat)
    requires (forall o :: o in w.order ==> o in w.slots) && k < |q.caches|
    requires NativesMoved(t, Assignments(t.pointerSize, q, w, objects), natives)
    ensures DexCacheArraysId(k) in natives && natives[DexCacheArraysId(k)].image == q.caches[k].image
    ensures var es := Assignments(t.pointerSize, q, w, objects);
      exists n :: 0 <= n < |es| && es[n].WellFormed()
        && es[n] == PieceOf(t.pointerSize, DexCacheArraysId(k), q.caches[k].image, DexCacheArrays(q.caches[k].size))
        && natives[DexCacheArraysId(k)].offset == Offset(t, es, n)
  {
    hide Offset, AddObjects, AddRuntime, AddCaches;
    var p, es := t.pointerSize, Assignments(t.pointerSize, q, w, objects);
    var before := AddObjects(p, AddRuntime(p, q.runtime, q.image, |q.runtime|), w, objects, |w.order|);
    CacheIsThere(p, before, q.caches, |q.caches|, k);
    assert NativeAt(t, es, |before| + k, natives, true);
  }
}
