/**
 The native data of classes: field arrays, method arrays, interface method tables and what these hold
 live. Arrays are laid out element by element; tables and runtime methods may be shared.
 */
module ImageNatives {
  import opened Align
  import opened ImageBins
  import opened ImageLayout

  // A null array is no array; an empty one still has a header.
  datatype FieldList = NoFields | Fields(count: nat)

  datatype ConflictList = NoConflicts | Conflicts(n: nat, entries: nat)

  datatype RuntimeMethodInfo = RuntimeMethodInfo(n: nat, conflicts: ConflictList)

  // `methods` are the entries that are runtime methods. A table in the boot image is no table here.
  datatype ImtInfo = NoImt | Imt(n: nat, methods: seq<RuntimeMethodInfo>)

  // `dirty` says of every method whether it will be written to at run time.
  datatype ClassParts = NotClass | ClassParts(statics: FieldList, instances: FieldList, dirty: seq<bool>, imt: ImtInfo)

  datatype Shape = NoArray | Shape(array_: NativeType, element: NativeType, count: nat)

  function FieldShape(f: FieldList): Shape {
    if f.NoFields? then NoArray else Shape(FieldArray, Field, f.count)
  }

  /** One dirty method makes the whole array dirty. */
  function ShapeOf(c: ClassParts, part: Part): Shape
    requires c.ClassParts?
  {
    match part
    case StaticFields => FieldShape(c.statics)
    case InstanceFields => FieldShape(c.instances)
    case Methods => if c.dirty == [] then NoArray
      else Shape(MethodArray(true in c.dirty), Method(true in c.dirty), |c.dirty|)
  }

  // ---------- what is assigned, in order ----------

  ghost predicate Assigned(es: seq<Event>, ptr: NativeId) {
    exists n :: 0 <= n < |es| && es[n].Native? && es[n].ptr == ptr
  }

  ghost function TryAdd(p: pos, es: seq<Event>, ptr: NativeId, image: nat, ty: NativeType): seq<Event> {
    if Assigned(es, ptr) then es else es + [PieceOf(p, ptr, image, ty)]
  }

  ghost function Elements(p: pos, es: seq<Event>, o: nat, part: Part, image: nat, ty: NativeType,
                          k: nat): (all: seq<Event>)
    ensures es <= all && |all| == |es| + k
  {
    if k == 0 then es else
      Elements(p, es, o, part, image, ty, k - 1) + [PieceOf(p, ElementOf(o, part, k - 1), image, ty)]
  }

  ghost function AddArray(p: pos, es: seq<Event>, o: nat, part: Part, image: nat, s: Shape): (all: seq<Event>)
    ensures es <= all
  {
    if s.NoArray? then es
    else Elements(p, es + [PieceOf(p, ArrayOf(o, part), image, s.array_)], o, part, image, s.element, s.count)
  }

  ghost function AddArrays(p: pos, es: seq<Event>, o: nat, image: nat, c: ClassParts): (all: seq<Event>)
    requires c.ClassParts?
    ensures es <= all
  {
    var statics := AddArray(p, es, o, StaticFields, image, ShapeOf(c, StaticFields));
    var fields := AddArray(p, statics, o, InstanceFields, image, ShapeOf(c, InstanceFields));
    AddArray(p, fields, o, Methods, image, ShapeOf(c, Methods))
  }

  // A runtime method comes after the conflict table it holds live.
  ghost function AddRuntimeMethod(p: pos, es: seq<Event>, m: RuntimeMethodInfo, image: nat): (all: seq<Event>)
    ensures es <= all
  {
    var c := if m.conflicts.NoConflicts? then es
             else TryAdd(p, es, ConflictTableId(m.conflicts.n), image, ConflictTable(m.conflicts.entries));
    c + [PieceOf(p, RuntimeMethodId(m.n), image, RuntimeMethod)]
  }

  ghost function AddMissing(p: pos, es: seq<Event>, ms: seq<RuntimeMethodInfo>, image: nat, k: nat): (all: seq<Event>)
    requires k <= |ms|
    ensures es <= all
  {
    if k == 0 then es else
      var was := AddMissing(p, es, ms, image, k - 1);
      if Assigned(was, RuntimeMethodId(ms[k - 1].n)) then was else AddRuntimeMethod(p, was, ms[k - 1], image)
  }

  /** A table that is shared by several classes is gone through once. */
  ghost function AddImt(p: pos, es: seq<Event>, i: ImtInfo, image: nat): (all: seq<Event>)
    ensures es <= all
  {
    if i.NoImt? || Assigned(es, ImTableId(i.n)) then es
    else AddMissing(p, es + [PieceOf(p, ImTableId(i.n), image, ImTable)], i.methods, image, |i.methods|)
  }

  ghost function AddClass(p: pos, es: seq<Event>, o: nat, image: nat, c: ClassParts): (all: seq<Event>)
    ensures es <= all
  {
    if c.NotClass? then es else AddImt(p, AddArrays(p, es, o, image, c), c.imt, image)
  }

  // ---------- whose arrays are there ----------

  predicate OfPart(ptr: NativeId, o: nat, part: Part) {
    (ptr.ArrayOf? || ptr.ElementOf?) && ptr.owner == o && ptr.part == part
  }

  ghost predicate Clear(es: seq<Event>, o: nat, part: Part) {
    forall n :: 0 <= n < |es| && es[n].Native? ==> !OfPart(es[n].ptr, o, part)
  }

  ghost predicate ClearOf(es: seq<Event>, o: nat) {
    Clear(es, o, StaticFields) && Clear(es, o, InstanceFields) && Clear(es, o, Methods)
  }

  // The classes that have arrays so far, and how many dex files have their cache arrays.
  datatype Owners = Owners(classes: set<nat>, caches: nat)

  predicate Allowed(ptr: NativeId, who: Owners) {
    && (ptr.ArrayOf? || ptr.ElementOf? ==> ptr.owner in who.classes)
    && (ptr.DexCacheArraysId? ==> ptr.n < who.caches)
  }

  ghost predicate OwnersIn(es: seq<Event>, who: Owners) {
    forall n :: 0 <= n < |es| && es[n].Native? ==> Allowed(es[n].ptr, who)
  }

  lemma UnseenIsClear(es: seq<Event>, who: Owners, o: nat)
    requires OwnersIn(es, who) && o !in who.classes
    ensures ClearOf(es, o)
  {
  }

  lemma SeenMore(es: seq<Event>, who: Owners, more: Owners)
    requires OwnersIn(es, who) && who.classes <= more.classes && who.caches <= more.caches
    ensures OwnersIn(es, more)
  {
  }

  lemma OneOwner(es: seq<Event>, who: Owners, e: Event)
    requires OwnersIn(es, who) && (e.Native? ==> Allowed(e.ptr, who))
    ensures OwnersIn(es + [e], who)
  {
  }

  lemma {:induction false} ElementsOwned(p: pos, es: seq<Event>, o: nat, part: Part, image: nat, ty: NativeType, k: nat,
                                         who: Owners)
    requires OwnersIn(es, who) && o in who.classes
    ensures OwnersIn(Elements(p, es, o, part, image, ty, k), who)
  {
    hide OwnersIn, PieceOf;
    if k > 0 {
      ElementsOwned(p, es, o, part, image, ty, k - 1, who);
      PieceFields(p, ElementOf(o, part, k - 1), image, ty);
      OneOwner(Elements(p, es, o, part, image, ty, k - 1), who, PieceOf(p, ElementOf(o, part, k - 1), image, ty));
    }
  }

  lemma PieceFields(p: pos, ptr: NativeId, image: nat, ty: NativeType)
    ensures var e := PieceOf(p, ptr, image, ty);
      e.Native? && e.ptr == ptr && e.image == image && e.bin == BinTypeForNative(ty) && e.size == NativeSize(p, ty)
  {
  }

  lemma ArrayOwned(p: pos, es: seq<Event>, o: nat, part: Part, image: nat, s: Shape, who: Owners)
    requires OwnersIn(es, who) && o in who.classes
    ensures OwnersIn(AddArray(p, es, o, part, image, s), who)
  {
    hide OwnersIn, PieceOf;
    if s.Shape? {
      PieceFields(p, ArrayOf(o, part), image, s.array_);
      OneOwner(es, who, PieceOf(p, ArrayOf(o, part), image, s.array_));
      ElementsOwned(p, es + [PieceOf(p, ArrayOf(o, part), image, s.array_)], o, part, image, s.element, s.count, who);
    }
  }

  lemma RuntimeMethodOwned(p: pos, es: seq<Event>, m: RuntimeMethodInfo, image: nat, who: Owners)
    requires OwnersIn(es, who)
    ensures OwnersIn(AddRuntimeMethod(p, es, m, image), who)
  {
  }

  lemma {:induction false} MissingOwned(p: pos, es: seq<Event>, ms: seq<RuntimeMethodInfo>, image: nat, k: nat,
                                        who: Owners)
    requires k <= |ms| && OwnersIn(es, who)
    ensures OwnersIn(AddMissing(p, es, ms, image, k), who)
  {
    hide OwnersIn, AddRuntimeMethod;
    if k > 0 {
      MissingOwned(p, es, ms, image, k - 1, who);
      RuntimeMethodOwned(p, AddMissing(p, es, ms, image, k - 1), ms[k - 1], image, who);
    }
  }

  lemma ImtOwned(p: pos, es: seq<Event>, i: ImtInfo, image: nat, who: Owners)
    requires OwnersIn(es, who)
    ensures OwnersIn(AddImt(p, es, i, image), who)
  {
    if i.Imt? && !Assigned(es, ImTableId(i.n)) {
      OneOwner(es, who, PieceOf(p, ImTableId(i.n), image, ImTable));
      MissingOwned(p, es + [PieceOf(p, ImTableId(i.n), image, ImTable)], i.methods, image, |i.methods|, who);
    }
  }

  /** Assigning a class adds arrays of that class only. */
  lemma ClassOwned(p: pos, es: seq<Event>, o: nat, image: nat, c: ClassParts, who: Owners)
    requires OwnersIn(es, who) && o in who.classes
    ensures OwnersIn(AddClass(p, es, o, image, c), who)
  {
    hide OwnersIn, AddArray, AddImt;
    if c.ClassParts? {
      var statics := AddArray(p, es, o, StaticFields, image, ShapeOf(c, StaticFields));
      var fields := AddArray(p, statics, o, InstanceFields, image, ShapeOf(c, InstanceFields));
      var methods := AddArray(p, fields, o, Methods, image, ShapeOf(c, Methods));
      ArrayOwned(p, es, o, StaticFields, image, ShapeOf(c, StaticFields), who);
      ArrayOwned(p, statics, o, InstanceFields, image, ShapeOf(c, InstanceFields), who);
      ArrayOwned(p, fields, o, Methods, image, ShapeOf(c, Methods), who);
      ImtOwned(p, methods, c.imt, image, who);
    }
  }

  // The elements of one part leave the other parts clear, and do not repeat.
  lemma {:induction false} ElementsClear(p: pos, es: seq<Event>, o: nat, part: Part, image: nat, ty: NativeType, k: nat)
    requires forall n :: 0 <= n < |es| && es[n].Native? ==> !(es[n].ptr.ElementOf? && OfPart(es[n].ptr, o, part))
    ensures forall q :: q != part && Clear(es, o, q) ==> Clear(Elements(p, es, o, part, image, ty, k), o, q)
    ensures forall j :: k <= j ==> !Assigned(Elements(p, es, o, part, image, ty, k), ElementOf(o, part, j))
  {
    if k > 0 {
      ElementsClear(p, es, o, part, image, ty, k - 1);
      var was, e := Elements(p, es, o, part, image, ty, k - 1), PieceOf(p, ElementOf(o, part, k - 1), image, ty);
      forall q | q != part && Clear(es, o, q)
        ensures Clear(was + [e], o, q)
      {
        assert Clear(was, o, q);
      }
      forall j | k <= j
        ensures !Assigned(was + [e], ElementOf(o, part, j))
      {
        assert !Assigned(was, ElementOf(o, part, j));
      }
    }
  }

  lemma ArrayClear(p: pos, es: seq<Event>, o: nat, part: Part, image: nat, s: Shape)
    requires Clear(es, o, part)
    ensures forall q :: q != part && Clear(es, o, q) ==> Clear(AddArray(p, es, o, part, image, s), o, q)
  {
    if s.Shape? {
      var header := es + [PieceOf(p, ArrayOf(o, part), image, s.array_)];
      assert forall q :: q != part && Clear(es, o, q) ==> Clear(header, o, q);
      ElementsClear(p, header, o, part, image, s.element, s.count);
    }
  }

  // ---------- the assigning methods ----------

  lemma StoredIffAssigned(es: seq<Event>, natives: map<NativeId, Relocation>, ptr: NativeId)
    requires NativesStored(es, natives)
    ensures ptr in natives <==> Assigned(es, ptr)
  {
  }

  // Shared data is assigned by whoever comes first.
  method TryAssignNative(l: Layouter, ptr: NativeId, image: nat, ty: NativeType) returns (added: bool)
    requires l.Valid() && image < l.images
    modifies l`infos, l`natives, l`es
    ensures l.Valid() && l.es == TryAdd(l.t.pointerSize, old(l.es), ptr, image, ty)
    ensures added <==> !Assigned(old(l.es), ptr)
  {
    StoredIffAssigned(l.es, l.natives, ptr);
    hide EventsOk, WholePieces, InfosOk, SlotsStored, HashesSaved, NativesStored, PieceOf, Assigned;
    if ptr in l.natives {
      return false;
    }
    l.AssignNative(ptr, image, ty);
    return true;
  }

  /** The header of an array, then each of its elements. */
  method AssignArray(l: Layouter, o: nat, part: Part, image: nat, s: Shape)
    requires l.Valid() && image < l.images && s.Shape? && Clear(l.es, o, part)
    modifies l`infos, l`natives, l`es
    ensures l.Valid() && l.es == AddArray(l.t.pointerSize, old(l.es), o, part, image, s)
  {
    ghost var p, start := l.t.pointerSize, l.es;
    StoredIffAssigned(l.es, l.natives, ArrayOf(o, part));
    assert ArrayOf(o, part) !in l.natives;
    ghost var header := start + [PieceOf(p, ArrayOf(o, part), image, s.array_)];
    assert forall n :: 0 <= n < |header| && header[n].Native? ==>
      !(header[n].ptr.ElementOf? && OfPart(header[n].ptr, o, part));
    hide EventsOk, WholePieces, InfosOk, SlotsStored, HashesSaved, NativesStored, PieceOf, Assigned, Clear;
    l.AssignNative(ArrayOf(o, part), image, s.array_);
    for k := 0 to s.count
      invariant l.Valid() && l.es == Elements(p, header, o, part, image, s.element, k)
    {
      ElementsClear(p, header, o, part, image, s.element, k);
      StoredIffAssigned(l.es, l.natives, ElementOf(o, part, k));
      l.AssignNative(ElementOf(o, part, k), image, s.element);
    }
  }

  method AssignFields(l: Layouter, o: nat, part: Part, image: nat, f: FieldList)
    requires l.Valid() && image < l.images && Clear(l.es, o, part)
    modifies l`infos, l`natives, l`es
    ensures l.Valid() && l.es == AddArray(l.t.pointerSize, old(l.es), o, part, image, FieldShape(f))
  {
    hide EventsOk, WholePieces, InfosOk, SlotsStored, HashesSaved, NativesStored, Elements, Clear;
    if f.Fields? {
      AssignArray(l, o, part, image, Shape(FieldArray, Field, f.count));
    }
  }

  /** Looks for a dirty method; the array goes where the first one found sends it. */
  method AssignMethods(l: Layouter, o: nat, image: nat, c: ClassParts)
    requires l.Valid() && image < l.images && c.ClassParts? && Clear(l.es, o, Methods)
    modifies l`infos, l`natives, l`es
    ensures l.Valid() && l.es == AddArray(l.t.pointerSize, old(l.es), o, Methods, image, ShapeOf(c, Methods))
  {
    hide EventsOk, WholePieces, InfosOk, SlotsStored, HashesSaved, NativesStored, Elements, Clear;
    if c.dirty != [] {
      var anyDirty := false;
      for i := 0 to |c.dirty|
        invariant !anyDirty && true !in c.dirty[..i]
      {
        if c.dirty[i] {
          anyDirty := true;
          break;
        }
      }
      assert anyDirty <==> true in c.dirty by {
        if !anyDirty { assert c.dirty[..|c.dirty|] == c.dirty; }
      }
      AssignArray(l, o, Methods, image, Shape(MethodArray(anyDirty), Method(anyDirty), |c.dirty|));
    }
  }

  method AssignRuntimeMethod(l: Layouter, m: RuntimeMethodInfo, image: nat)
    requires l.Valid() && image < l.images && !Assigned(l.es, RuntimeMethodId(m.n))
    modifies l`infos, l`natives, l`es
    ensures l.Valid() && l.es == AddRuntimeMethod(l.t.pointerSize, old(l.es), m, image)
  {
    ghost var start := l.es;
    assert m.conflicts.Conflicts? ==>
      var ty := ConflictTable(m.conflicts.entries);
      !Assigned(TryAdd(l.t.pointerSize, start, ConflictTableId(m.conflicts.n), image, ty), RuntimeMethodId(m.n));
    hide EventsOk, WholePieces, InfosOk, SlotsStored, HashesSaved, NativesStored, PieceOf, Assigned;
    if m.conflicts.Conflicts? {
      var _ := TryAssignNative(l, ConflictTableId(m.conflicts.n), image, ConflictTable(m.conflicts.entries));
    }
    StoredIffAssigned(l.es, l.natives, RuntimeMethodId(m.n));
    l.AssignNative(RuntimeMethodId(m.n), image, RuntimeMethod);
  }

  method AssignImt(l: Layouter, i: ImtInfo, image: nat)
    requires l.Valid() && image < l.images
    modifies l`infos, l`natives, l`es
    ensures l.Valid() && l.es == AddImt(l.t.pointerSize, old(l.es), i, image)
  {
    hide EventsOk, WholePieces, InfosOk, SlotsStored, HashesSaved, NativesStored, PieceOf, Assigned, AddRuntimeMethod;
    if i.Imt? {
      ghost var p, start := l.t.pointerSize, l.es;
      var added := TryAssignNative(l, ImTableId(i.n), image, ImTable);
      if added {
        ghost var table := start + [PieceOf(p, ImTableId(i.n), image, ImTable)];
        for k := 0 to |i.methods|
          invariant l.Valid() && l.es == AddMissing(p, table, i.methods, image, k)
        {
          StoredIffAssigned(l.es, l.natives, RuntimeMethodId(i.methods[k].n));
          if RuntimeMethodId(i.methods[k].n) !in l.natives {
            AssignRuntimeMethod(l, i.methods[k], image);
          }
        }
      }
    }
  }

  /** All native data of one class, in the order of the source. */
  method AssignClass(l: Layouter, o: nat, image: nat, c: ClassParts)
    requires l.Valid() && image < l.images && ClearOf(l.es, o)
    modifies l`infos, l`natives, l`es
    ensures l.Valid() && l.es == AddClass(l.t.pointerSize, old(l.es), o, image, c)
  {
    hide EventsOk, WholePieces, InfosOk, SlotsStored, HashesSaved, NativesStored, AddArray, AddImt, Clear;
    if c.ClassParts? {
      ghost var p, start := l.t.pointerSize, l.es;
      ArrayClear(p, l.es, o, StaticFields, image, ShapeOf(c, StaticFields));
      AssignFields(l, o, StaticFields, image, c.statics);
      ArrayClear(p, l.es, o, InstanceFields, image, ShapeOf(c, InstanceFields));
      AssignFields(l, o, InstanceFields, image, c.instances);
      AssignMethods(l, o, image, c);
      AssignImt(l, c.imt, image);
    }
  }

  // ---------- before and after the walk ----------

  // The runtime's own methods come first.
  ghost function AddRuntime(p: pos, ms: seq<RuntimeMethodInfo>, image: nat, k: nat): seq<Event>
    requires k <= |ms|
  {
    if k == 0 then [] else AddRuntimeMethod(p, AddRuntime(p, ms, image, k - 1), ms[k - 1], image)
  }

  lemma {:induction false} RuntimeKnown(p: pos, ms: seq<RuntimeMethodInfo>, image: nat, k: nat, n: nat)
    requires k <= |ms|
    ensures OwnersIn(AddRuntime(p, ms, image, k), Owners({}, 0))
    ensures Assigned(AddRuntime(p, ms, image, k), RuntimeMethodId(n)) ==> exists i :: 0 <= i < k && ms[i].n == n
  {
    if k > 0 {
      RuntimeKnown(p, ms, image, k - 1, n);
      RuntimeMethodOwned(p, AddRuntime(p, ms, image, k - 1), ms[k - 1], image, Owners({}, 0));
      if Assigned(AddRuntime(p, ms, image, k), RuntimeMethodId(n)) && ms[k - 1].n != n {
        assert Assigned(AddRuntime(p, ms, image, k - 1), RuntimeMethodId(n));
      }
    }
  }

  ghost predicate Distinct(ms: seq<RuntimeMethodInfo>) {
    forall i, j :: 0 <= i < j < |ms| ==> ms[i].n != ms[j].n
  }

  method AssignRuntime(l: Layouter, ms: seq<RuntimeMethodInfo>, image: nat)
    requires l.Valid() && image < l.images && l.es == [] && Distinct(ms)
    modifies l`infos, l`natives, l`es
    ensures l.Valid() && l.es == AddRuntime(l.t.pointerSize, ms, image, |ms|)
  {
    hide EventsOk, WholePieces, InfosOk, SlotsStored, HashesSaved, NativesStored, AddRuntimeMethod, Assigned, OwnersIn;
    ghost var p := l.t.pointerSize;
    for k := 0 to |ms|
      invariant l.Valid() && l.es == AddRuntime(p, ms, image, k)
    {
      RuntimeKnown(p, ms, image, k, ms[k].n);
      AssignRuntimeMethod(l, ms[k], image);
    }
  }

  // How much room a dex file's cache arrays need, and in which image.
  datatype CacheSpace = CacheSpace(image: nat, size: nat)

  ghost function AddCaches(p: pos, es: seq<Event>, cs: seq<CacheSpace>, k: nat): (all: seq<Event>)
    requires k <= |cs|
    ensures es <= all
  {
    if k == 0 then es else
      AddCaches(p, es, cs, k - 1) + [PieceOf(p, DexCacheArraysId(k - 1), cs[k - 1].image,
        DexCacheArrays(cs[k - 1].size))]
  }

  lemma {:induction false} CachesKnown(p: pos, es: seq<Event>, cs: seq<CacheSpace>, k: nat, classes: set<nat>)
    requires k <= |cs| && OwnersIn(es, Owners(classes, 0))
    ensures OwnersIn(AddCaches(p, es, cs, k), Owners(classes, k))
  {
    if k > 0 {
      CachesKnown(p, es, cs, k - 1, classes);
      SeenMore(AddCaches(p, es, cs, k - 1), Owners(classes, k - 1), Owners(classes, k));
    }
  }

  lemma CacheIsNew(es: seq<Event>, who: Owners)
    requires OwnersIn(es, who)
    ensures !Assigned(es, DexCacheArraysId(who.caches))
  {
  }

  method AssignCaches(l: Layouter, cs: seq<CacheSpace>, ghost classes: set<nat>)
    requires l.Valid() && OwnersIn(l.es, Owners(classes, 0)) && forall c :: c in cs ==> c.image < l.images
    modifies l`infos, l`natives, l`es
    ensures l.Valid() && l.es == AddCaches(l.t.pointerSize, old(l.es), cs, |cs|)
  {
    hide EventsOk, WholePieces, InfosOk, SlotsStored, HashesSaved, NativesStored, PieceOf, Assigned, OwnersIn;
    ghost var p, start := l.t.pointerSize, l.es;
    for k := 0 to |cs|
      invariant l.Valid() && l.es == AddCaches(p, start, cs, k)
    {
      CachesKnown(p, start, cs, k, classes);
      CacheIsNew(l.es, Owners(classes, k));
      StoredIffAssigned(l.es, l.natives, DexCacheArraysId(k));
      l.AssignNative(DexCacheArraysId(k), cs[k].image, DexCacheArrays(cs[k].size));
    }
  }

  // ---------- arrays stay in one piece ----------

  /** Header and elements of an array are assigned one right after the other. */
  ghost predicate ArrayAt(p: pos, es: seq<Event>, m: nat, o: nat, part: Part, image: nat, s: Shape) {
    && s.Shape? && m + s.count < |es|
    && es[m] == PieceOf(p, ArrayOf(o, part), image, s.array_)
    && forall k :: 0 <= k < s.count ==> es[m + 1 + k] == PieceOf(p, ElementOf(o, part, k), image, s.element)
  }

  lemma {:induction false} ElementsAt(p: pos, es: seq<Event>, o: nat, part: Part, image: nat, ty: NativeType, n: nat,
                                      k: nat)
    requires k < n
    ensures Elements(p, es, o, part, image, ty, n)[|es| + k] == PieceOf(p, ElementOf(o, part, k), image, ty)
  {
    hide PieceOf;
    if k < n - 1 { ElementsAt(p, es, o, part, image, ty, n - 1, k); }
  }

  lemma ArrayIsThere(p: pos, es: seq<Event>, o: nat, part: Part, image: nat, s: Shape, all: seq<Event>)
    requires s.Shape? && AddArray(p, es, o, part, image, s) <= all
    ensures ArrayAt(p, all, |es|, o, part, image, s)
  {
    hide PieceOf;
    var header := es + [PieceOf(p, ArrayOf(o, part), image, s.array_)];
    var some := Elements(p, header, o, part, image, s.element, s.count);
    assert some[|es|] == header[|es|];
    forall k | 0 <= k < s.count
      ensures all[|es| + 1 + k] == PieceOf(p, ElementOf(o, part, k), image, s.element)
    {
      ElementsAt(p, header, o, part, image, s.element, s.count, k);
    }
  }

  // Where an array of the class starts, whatever is assigned afterwards.
  lemma PartIsThere(p: pos, es: seq<Event>, o: nat, image: nat, c: ClassParts, part: Part, all: seq<Event>)
    returns (m: nat)
    requires c.ClassParts? && ShapeOf(c, part).Shape? && AddClass(p, es, o, image, c) <= all
    ensures ArrayAt(p, all, m, o, part, image, ShapeOf(c, part))
  {
    hide AddArray, AddImt, ArrayAt, ShapeOf;
    var statics := AddArray(p, es, o, StaticFields, image, ShapeOf(c, StaticFields));
    var fields := AddArray(p, statics, o, InstanceFields, image, ShapeOf(c, InstanceFields));
    match part
    case StaticFields =>
      m := |es|;
      ArrayIsThere(p, es, o, part, image, ShapeOf(c, part), all);
    case InstanceFields =>
      m := |statics|;
      ArrayIsThere(p, statics, o, part, image, ShapeOf(c, part), all);
    case Methods =>
      m := |fields|;
      ArrayIsThere(p, fields, o, part, image, ShapeOf(c, part), all);
  }

  ghost predicate SameBin(s: Shape) {
    s.Shape? && BinTypeForNative(s.array_) == BinTypeForNative(s.element)
  }

  lemma ShapesKeepBin(c: ClassParts, part: Part)
    requires c.ClassParts? && ShapeOf(c, part).Shape?
    ensures SameBin(ShapeOf(c, part))
  {
  }

  lemma {:induction false} ElementIndex(p: pos, es: seq<Event>, m: nat, o: nat, part: Part, image: nat, s: Shape,
                                        k: nat)
    requires ArrayAt(p, es, m, o, part, image, s) && SameBin(s) && k < s.count
    ensures Index(es, m + 1 + k) == Index(es, m) + NativeSize(p, s.array_) + k * NativeSize(p, s.element)
  {
    hide NativeSize, Taken;
    var bin := es[m].bin;
    assert es[m + 1 + k] == PieceOf(p, ElementOf(o, part, k), image, s.element);
    if k == 0 {
      assert es[..m + 1] == es[..m] + [es[m]];
      TakenNext(es[..m], es[m], image, bin);
    } else {
      ElementIndex(p, es, m, o, part, image, s, k - 1);
      var before := es[m + 1 + (k - 1)];
      assert before == PieceOf(p, ElementOf(o, part, k - 1), image, s.element);
      assert es[..m + 1 + k] == es[..m + 1 + (k - 1)] + [before];
      TakenNext(es[..m + 1 + (k - 1)], before, image, bin);
      OneFurther(k, NativeSize(p, s.element));
    }
  }

  lemma OneFurther(k: nat, size: nat)
    requires k > 0
    ensures (k - 1) * size + size == k * size
  {
  }

  /** In the image, element `k` of an array lies behind the header and `k` elements, as the runtime indexes it. */
  lemma ElementsFollow(t: Target, es: seq<Event>, natives: map<NativeId, Relocation>, m: nat, o: nat, part: Part,
                       image: nat, s: Shape, k: nat)
    requires NativesMoved(t, es, natives) && ArrayAt(t.pointerSize, es, m, o, part, image, s) && SameBin(s)
    requires k < s.count
    ensures ArrayOf(o, part) in natives && ElementOf(o, part, k) in natives
    ensures var a, e := natives[ArrayOf(o, part)], natives[ElementOf(o, part, k)];
      && e.image == a.image == image && e.bin == a.bin == BinTypeForNative(s.array_)
      && e.offset == a.offset + NativeSize(t.pointerSize, s.array_) + k * NativeSize(t.pointerSize, s.element)
  {
    hide NativeSize, Index, BinOffset, Sizes;
    assert NativeAt(t, es, m, natives, true) && NativeAt(t, es, m + 1 + k, natives, true);
    ElementIndex(t.pointerSize, es, m, o, part, image, s, k);
  }

  // ---------- what is held live has a place ----------

  // What a table holds and which conflict table a runtime method has, whoever refers to them.
  datatype Tables = Tables(imt: nat -> seq<RuntimeMethodInfo>, conflicts: nat -> ConflictList)

  ghost predicate Known(m: RuntimeMethodInfo, v: Tables) { m.conflicts == v.conflicts(m.n) }

  ghost predicate KnownAll(ms: seq<RuntimeMethodInfo>, v: Tables) {
    forall i :: 0 <= i < |ms| ==> Known(ms[i], v)
  }

  ghost predicate KnownClass(c: ClassParts, v: Tables) {
    c.ClassParts? && c.imt.Imt? ==> c.imt.methods == v.imt(c.imt.n) && KnownAll(c.imt.methods, v)
  }

  // A runtime method's conflict table has a place if the method has.
  ghost predicate ConflictsLive(es: seq<Event>, v: Tables) {
    forall m: nat :: Assigned(es, RuntimeMethodId(m)) && v.conflicts(m).Conflicts? ==>
      Assigned(es, ConflictTableId(v.conflicts(m).n))
  }

  // So have the runtime methods of a table.
  ghost predicate ImtLive(es: seq<Event>, v: Tables, n: nat) {
    forall i :: 0 <= i < |v.imt(n)| ==> Assigned(es, RuntimeMethodId(v.imt(n)[i].n))
  }

  ghost predicate AllLive(es: seq<Event>, v: Tables) {
    ConflictsLive(es, v) && forall n: nat :: Assigned(es, ImTableId(n)) ==> ImtLive(es, v, n)
  }

  lemma AssignedStays(es: seq<Event>, more: seq<Event>, ptr: NativeId)
    requires Assigned(es, ptr) && es <= more
    ensures Assigned(more, ptr)
  {
    var n :| 0 <= n < |es| && es[n].Native? && es[n].ptr == ptr;
    assert more[n] == es[n];
  }

  lemma AssignedNext(es: seq<Event>, e: Event, ptr: NativeId)
    ensures Assigned(es + [e], ptr) <==> Assigned(es, ptr) || (e.Native? && e.ptr == ptr)
  {
    if Assigned(es, ptr) { AssignedStays(es, es + [e], ptr); }
    if e.Native? && e.ptr == ptr { assert (es + [e])[|es|].ptr == ptr; }
  }

  lemma ImtStaysLive(es: seq<Event>, more: seq<Event>, v: Tables, n: nat)
    requires ImtLive(es, v, n) && es <= more
    ensures ImtLive(more, v, n)
  {
    hide Assigned;
    forall i | 0 <= i < |v.imt(n)|
      ensures Assigned(more, RuntimeMethodId(v.imt(n)[i].n))
    {
      AssignedStays(es, more, RuntimeMethodId(v.imt(n)[i].n));
    }
  }

  // Whatever adds neither a table nor a runtime method needs nothing further.
  lemma OtherLive(es: seq<Event>, v: Tables, e: Event)
    requires AllLive(es, v) && (e.Native? ==> !e.ptr.ImTableId? && !e.ptr.RuntimeMethodId?)
    ensures AllLive(es + [e], v)
  {
    hide Assigned, ImtLive;
    forall m: nat | Assigned(es + [e], RuntimeMethodId(m)) && v.conflicts(m).Conflicts?
      ensures Assigned(es + [e], ConflictTableId(v.conflicts(m).n))
    {
      AssignedNext(es, e, RuntimeMethodId(m));
      AssignedStays(es, es + [e], ConflictTableId(v.conflicts(m).n));
    }
    forall n: nat | Assigned(es + [e], ImTableId(n))
      ensures ImtLive(es + [e], v, n)
    {
      AssignedNext(es, e, ImTableId(n));
      ImtStaysLive(es, es + [e], v, n);
    }
  }

  lemma {:induction false} ElementsLive(p: pos, es: seq<Event>, o: nat, part: Part, image: nat, ty: NativeType, k: nat,
                                        v: Tables)
    requires AllLive(es, v)
    ensures AllLive(Elements(p, es, o, part, image, ty, k), v)
  {
    hide AllLive;
    if k > 0 {
      ElementsLive(p, es, o, part, image, ty, k - 1, v);
      OtherLive(Elements(p, es, o, part, image, ty, k - 1), v, PieceOf(p, ElementOf(o, part, k - 1), image, ty));
    }
  }

  lemma ArrayLive(p: pos, es: seq<Event>, o: nat, part: Part, image: nat, s: Shape, v: Tables)
    requires AllLive(es, v)
    ensures AllLive(AddArray(p, es, o, part, image, s), v)
  {
    hide AllLive;
    if s.Shape? {
      var header := PieceOf(p, ArrayOf(o, part), image, s.array_);
      OtherLive(es, v, header);
      ElementsLive(p, es + [header], o, part, image, s.element, s.count, v);
    }
  }

  // A runtime method is added together with its conflict table.
  lemma RuntimeMethodLive(p: pos, es: seq<Event>, m: RuntimeMethodInfo, image: nat, v: Tables)
    requires ConflictsLive(es, v) && Known(m, v)
    ensures var all := AddRuntimeMethod(p, es, m, image);
      && ConflictsLive(all, v) && Assigned(all, RuntimeMethodId(m.n))
      && forall n: nat :: Assigned(all, ImTableId(n)) ==> Assigned(es, ImTableId(n))
  {
    hide Assigned;
    var e := PieceOf(p, RuntimeMethodId(m.n), image, RuntimeMethod);
    var c := if m.conflicts.NoConflicts? then es
             else TryAdd(p, es, ConflictTableId(m.conflicts.n), image, ConflictTable(m.conflicts.entries));
    var all := c + [e];
    AssignedNext(c, e, RuntimeMethodId(m.n));
    if m.conflicts.Conflicts? {
      var x := PieceOf(p, ConflictTableId(m.conflicts.n), image, ConflictTable(m.conflicts.entries));
      AssignedNext(es, x, ConflictTableId(m.conflicts.n));
      AssignedNext(c, e, ConflictTableId(m.conflicts.n));
    }
    forall a: nat | Assigned(all, RuntimeMethodId(a)) && v.conflicts(a).Conflicts?
      ensures Assigned(all, ConflictTableId(v.conflicts(a).n))
    {
      if a != m.n {
        AssignedNext(c, e, RuntimeMethodId(a));
        OnlyConflict(p, es, m, image, RuntimeMethodId(a));
        AssignedStays(es, all, ConflictTableId(v.conflicts(a).n));
      }
    }
    forall n: nat | Assigned(all, ImTableId(n))
      ensures Assigned(es, ImTableId(n))
    {
      AssignedNext(c, e, ImTableId(n));
      OnlyConflict(p, es, m, image, ImTableId(n));
    }
  }

  lemma OnlyConflict(p: pos, es: seq<Event>, m: RuntimeMethodInfo, image: nat, ptr: NativeId)
    requires !ptr.ConflictTableId?
    ensures var c := if m.conflicts.NoConflicts? then es
                     else TryAdd(p, es, ConflictTableId(m.conflicts.n), image, ConflictTable(m.conflicts.entries));
      Assigned(c, ptr) <==> Assigned(es, ptr)
  {
    hide Assigned;
    if m.conflicts.Conflicts? {
      AssignedNext(es, PieceOf(p, ConflictTableId(m.conflicts.n), image, ConflictTable(m.conflicts.entries)), ptr);
    }
  }

  lemma {:induction false} MissingLive(p: pos, es: seq<Event>, ms: seq<RuntimeMethodInfo>, image: nat, k: nat,
                                       v: Tables)
    requires k <= |ms| && ConflictsLive(es, v) && KnownAll(ms, v)
    ensures var all := AddMissing(p, es, ms, image, k);
      && ConflictsLive(all, v)
      && (forall i :: 0 <= i < k ==> Assigned(all, RuntimeMethodId(ms[i].n)))
      && (forall n: nat :: Assigned(all, ImTableId(n)) ==> Assigned(es, ImTableId(n)))
  {
    hide Assigned, ConflictsLive, AddRuntimeMethod;
    if k > 0 {
      MissingLive(p, es, ms, image, k - 1, v);
      var was, all := AddMissing(p, es, ms, image, k - 1), AddMissing(p, es, ms, image, k);
      assert Known(ms[k - 1], v);
      RuntimeMethodLive(p, was, ms[k - 1], image, v);
      forall i | 0 <= i < k
        ensures Assigned(all, RuntimeMethodId(ms[i].n))
      {
        if i < k - 1 { AssignedStays(was, all, RuntimeMethodId(ms[i].n)); }
      }
    }
  }

  lemma ImtAddedLive(p: pos, es: seq<Event>, i: ImtInfo, image: nat, v: Tables)
    requires AllLive(es, v) && (i.Imt? ==> i.methods == v.imt(i.n) && KnownAll(i.methods, v))
    ensures AllLive(AddImt(p, es, i, image), v)
    ensures i.Imt? ==> Assigned(AddImt(p, es, i, image), ImTableId(i.n))
  {
    hide Assigned, ConflictsLive;
    if i.Imt? && !Assigned(es, ImTableId(i.n)) {
      var e := PieceOf(p, ImTableId(i.n), image, ImTable);
      var table, all := es + [e], AddImt(p, es, i, image);
      TableAddedLive(es, e, v);
      AssignedNext(es, e, ImTableId(i.n));
      MissingLive(p, table, i.methods, image, |i.methods|, v);
      AssignedStays(table, all, ImTableId(i.n));
      forall n: nat | Assigned(all, ImTableId(n))
        ensures ImtLive(all, v, n)
      {
        if n != i.n {
          AssignedNext(es, e, ImTableId(n));
          ImtStaysLive(es, all, v, n);
        }
      }
    }
  }

  lemma TableAddedLive(es: seq<Event>, e: Event, v: Tables)
    requires ConflictsLive(es, v) && e.Native? && e.ptr.ImTableId?
    ensures ConflictsLive(es + [e], v)
  {
    hide Assigned;
    forall m: nat | Assigned(es + [e], RuntimeMethodId(m)) && v.conflicts(m).Conflicts?
      ensures Assigned(es + [e], ConflictTableId(v.conflicts(m).n))
    {
      AssignedNext(es, e, RuntimeMethodId(m));
      AssignedStays(es, es + [e], ConflictTableId(v.conflicts(m).n));
    }
  }

  /** After a class has been assigned, its table and everything that is held live has a place. */
  lemma ClassLive(p: pos, es: seq<Event>, o: nat, image: nat, c: ClassParts, v: Tables)
    requires AllLive(es, v) && KnownClass(c, v)
    ensures AllLive(AddClass(p, es, o, image, c), v)
    ensures c.ClassParts? && c.imt.Imt? ==> Assigned(AddClass(p, es, o, image, c), ImTableId(c.imt.n))
  {
    hide AllLive, AddArray, AddImt, Assigned;
    if c.ClassParts? {
      var statics := AddArray(p, es, o, StaticFields, image, ShapeOf(c, StaticFields));
      var fields := AddArray(p, statics, o, InstanceFields, image, ShapeOf(c, InstanceFields));
      var methods := AddArray(p, fields, o, Methods, image, ShapeOf(c, Methods));
      ArrayLive(p, es, o, StaticFields, image, ShapeOf(c, StaticFields), v);
      ArrayLive(p, statics, o, InstanceFields, image, ShapeOf(c, InstanceFields), v);
      ArrayLive(p, fields, o, Methods, image, ShapeOf(c, Methods), v);
      ImtAddedLive(p, methods, c.imt, image, v);
    }
  }

  lemma {:induction false} RuntimeLive(p: pos, ms: seq<RuntimeMethodInfo>, image: nat, k: nat, v: Tables)
    requires k <= |ms| && KnownAll(ms, v)
    ensures AllLive(AddRuntime(p, ms, image, k), v)
    ensures forall i :: 0 <= i < k ==> Assigned(AddRuntime(p, ms, image, k), RuntimeMethodId(ms[i].n))
    ensures forall n: nat :: !Assigned(AddRuntime(p, ms, image, k), ImTableId(n))
  {
    hide AddRuntimeMethod;
    if k > 0 {
      RuntimeLive(p, ms, image, k - 1, v);
      assert Known(ms[k - 1], v);
      RuntimeMethodLive(p, AddRuntime(p, ms, image, k - 1), ms[k - 1], image, v);
      hide Assigned, ConflictsLive, ImtLive;
      var was, all := AddRuntime(p, ms, image, k - 1), AddRuntime(p, ms, image, k);
      forall i | 0 <= i < k
        ensures Assigned(all, RuntimeMethodId(ms[i].n))
      {
        if i < k - 1 { AssignedStays(was, all, RuntimeMethodId(ms[i].n)); }
      }
    }
  }

  lemma {:induction false} CachesLive(p: pos, es: seq<Event>, cs: seq<CacheSpace>, k: nat, v: Tables)
    requires k <= |cs| && AllLive(es, v)
    ensures AllLive(AddCaches(p, es, cs, k), v)
  {
    hide AllLive;
    if k > 0 {
      CachesLive(p, es, cs, k - 1, v);
      OtherLive(AddCaches(p, es, cs, k - 1), v,
                PieceOf(p, DexCacheArraysId(k - 1), cs[k - 1].image, DexCacheArrays(cs[k - 1].size)));
    }
  }

  /** Every dex file has the room its cache arrays need, in its image. */
  lemma {:induction false} CacheIsThere(p: pos, es: seq<Event>, cs: seq<CacheSpace>, n: nat, k: nat)
    requires k < n <= |cs|
    ensures var all := AddCaches(p, es, cs, n);
      |es| + k < |all| && all[|es| + k] == PieceOf(p, DexCacheArraysId(k), cs[k].image, DexCacheArrays(cs[k].size))
    decreases n
  {
    hide PieceOf;
    CachesGrow(p, es, cs, n - 1);
    if k < n - 1 { CacheIsThere(p, es, cs, n - 1, k); }
  }

  lemma {:induction false} CachesGrow(p: pos, es: seq<Event>, cs: seq<CacheSpace>, n: nat)
    requires n <= |cs|
    ensures |AddCaches(p, es, cs, n)| == |es| + n
  {
    if n > 0 { CachesGrow(p, es, cs, n - 1); }
  }
}
