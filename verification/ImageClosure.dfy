/**
 Which objects go into an image: the closure of the roots under references, computed with a work
 stack while every string reference is replaced by the interned string with the same contents.
 */
module ImageClosure {
  import opened Wrappers

  type Id = nat

  // A reference, or the absence of one.
  datatype Ref = Null | To(value: Id)

  datatype Kind = Str(content: string) | DexCache(image: nat) | Class(image: nat) | Other

  // The heap before the walk. `bootStrings` are the interned strings of the boot image.
  datatype Heap = Heap(kind: map<Id, Kind>, inBoot: set<Id>, refs: map<Id, seq<Ref>>, bootStrings: map<string, Id>,
                       images: nat)
  {
    ghost predicate Valid() {
      && refs.Keys == kind.Keys && inBoot <= kind.Keys
      && (forall o, k :: o in refs && 0 <= k < |refs[o]| && refs[o][k].To? ==> refs[o][k].value in kind)
      && (forall c :: c in bootStrings ==> bootStrings[c] in inBoot && kind[bootStrings[c]] == Str(c))
      && (forall o :: o in kind ==>
            (kind[o].DexCache? ==> kind[o].image < images) && (kind[o].Class? ==> kind[o].image < images))
    }
  }

  datatype Item = Item(obj: Id, image: nat)

  // `refs` are the current references, `order` the objects in the order their slots were assigned.
  datatype State = State(refs: map<Id, seq<Ref>>, tables: seq<map<string, Id>>, slots: map<Id, nat>, order: seq<Id>,
                         stack: seq<Item>)

  // ---------- interning ----------

  function FindIn(tables: seq<map<string, Id>>, c: string): Ref {
    if tables == [] then Null else if c in tables[0] then To(tables[0][c]) else FindIn(tables[1..], c)
  }

  /** The tables of all images are searched before the boot image's. */
  function FindInterned(h: Heap, tables: seq<map<string, Id>>, c: string): Ref {
    if FindIn(tables, c).To? then FindIn(tables, c)
    else if c in h.bootStrings then To(h.bootStrings[c])
    else Null
  }

  // What a reference is replaced by.
  function Interned(h: Heap, tables: seq<map<string, Id>>, r: Ref): Ref
    requires r.To? ==> r.value in h.kind
  {
    if r.To? && r.value !in h.inBoot && h.kind[r.value].Str? &&
      FindInterned(h, tables, h.kind[r.value].content).To? then
      FindInterned(h, tables, h.kind[r.value].content)
    else
      r
  }

  function Insert(tables: seq<map<string, Id>>, image: nat, c: string, o: Id): (t: seq<map<string, Id>>)
    requires image < |tables|
    ensures |t| == |tables|
  {
    var table: map<string, Id> := tables[image][c := o];
    tables[image := table]
  }

  lemma {:induction false} FindAfterInsert(tables: seq<map<string, Id>>, image: nat, c: string, o: Id, d: string)
    requires image < |tables| && FindIn(tables, c).Null?
    ensures FindIn(Insert(tables, image, c, o), d) == if d == c then To(o) else FindIn(tables, d)
    decreases |tables|
  {
    var t := Insert(tables, image, c, o);
    if image == 0 {
      assert t[1..] == tables[1..];
    } else {
      assert t[1..] == Insert(tables[1..], image - 1, c, o);
      FindAfterInsert(tables[1..], image - 1, c, o, d);
    }
  }

  lemma {:induction false} FindMeans(tables: seq<map<string, Id>>, c: string)
    ensures var f := FindIn(tables, c);
      if f.To? then exists j :: 0 <= j < |tables| && c in tables[j] && tables[j][c] == f.value
      else forall j :: 0 <= j < |tables| ==> c !in tables[j]
    decreases |tables|
  {
    if tables != [] && c !in tables[0] {
      FindMeans(tables[1..], c);
      if FindIn(tables, c).To? {
        var j :| 0 <= j < |tables[1..]| && c in tables[1..][j] && tables[1..][j][c] == FindIn(tables, c).value;
        assert c in tables[j + 1];
      } else {
        assert forall j :: 1 <= j < |tables| ==> tables[j] == tables[1..][j - 1];
      }
    } else if tables != [] {
      assert c in tables[0];
    }
  }

  // ---------- one step ----------

  // Dex caches and classes go to the image of their dex file.
  function ImageOf(h: Heap, o: Id, image: nat): nat
    requires o in h.kind
  {
    match h.kind[o]
    case DexCache(i) => i
    case Class(i) => i
    case _ => image
  }

  // Assigns a slot to an object that has none, interning it first if it is a string, and queues it.
  function Assign(h: Heap, s: State, o: Id, image: nat): (n: State)
    requires o in h.kind && image < |s.tables|
  {
    var at := ImageOf(h, o, image);
    var tables :=
      if h.kind[o].Str? && FindInterned(h, s.tables, h.kind[o].content).Null?
      then Insert(s.tables, image, h.kind[o].content, o) else s.tables;
    State(s.refs, tables, s.slots[o := at], s.order + [o], [Item(o, at)] + s.stack)
  }

  function TryAssign(h: Heap, s: State, r: Ref, image: nat): (n: State)
    requires (r.To? ==> r.value in h.kind) && image < |s.tables|
    ensures |n.tables| == |s.tables|
  {
    if r.Null? || r.value in h.inBoot || r.value in s.slots then s else Assign(h, s, r.value, image)
  }

  // ---------- what every step keeps ----------

  /** Null, in the boot image, or given a slot. */
  ghost predicate Settled(h: Heap, s: State, r: Ref) {
    r.Null? || r.value in h.inBoot || r.value in s.slots
  }

  ghost predicate SlotsOk(h: Heap, s: State) {
    && (forall o :: o in s.slots ==> o in h.kind && o !in h.inBoot && s.slots[o] < h.images)
    && (forall o :: o in s.slots <==> o in s.order)
    && (forall i, j :: 0 <= i < j < |s.order| ==> s.order[i] != s.order[j])
  }

  // No two tables hold equal strings, and none holds a string of the boot image.
  ghost predicate TablesOk(h: Heap, s: State) {
    && |s.tables| == h.images
    && (forall j, c :: 0 <= j < |s.tables| && c in s.tables[j] ==> TableEntry(h, s, j, c, s.tables[j][c]))
    && (forall j, k, c :: 0 <= j < k < |s.tables| && c in s.tables[j] ==> c !in s.tables[k])
  }

  // A table holds strings of its own image.
  ghost predicate TableEntry(h: Heap, s: State, j: nat, c: string, o: Id) {
    o in s.slots && s.slots[o] == j && o in h.kind && h.kind[o] == Str(c) && c !in h.bootStrings
  }

  // Every string with a slot has an interned equal.
  ghost predicate StringsOk(h: Heap, s: State) {
    forall o :: o in s.slots ==> StringOk(h, s.tables, o)
  }

  ghost predicate StringOk(h: Heap, tables: seq<map<string, Id>>, o: Id) {
    o in h.kind && h.kind[o].Str? ==> FindInterned(h, tables, h.kind[o].content).To?
  }

  ghost function Pending(stack: seq<Item>): set<Id> { set it | it in stack :: it.obj }

  ghost predicate StackOk(h: Heap, s: State) {
    && (forall it :: it in s.stack ==> it.obj in s.slots && it.image == s.slots[it.obj])
    && (forall i, j :: 0 <= i < j < |s.stack| ==> s.stack[i].obj != s.stack[j].obj)
  }

  // The object being visited and how many of its references have been visited.
  datatype Cursor = Cursor(obj: Id, n: nat)

  ghost predicate CursorOk(h: Heap, s: State, cur: Option<Cursor>) {
    cur.Some? ==>
      cur.value.obj in s.slots && cur.value.obj !in Pending(s.stack) && cur.value.obj in h.refs &&
      cur.value.n <= |h.refs[cur.value.obj]|
  }

  ghost predicate Visited(h: Heap, s: State, cur: Option<Cursor>, o: Id, k: nat) {
    && o in s.slots && o !in Pending(s.stack)
    && (cur.Some? && cur.value.obj == o ==> k < cur.value.n)
  }

  /** A visited reference leads to a settled object and was interned; others are as they were. */
  ghost predicate RefOk(h: Heap, s: State, visited: bool, r: Ref, now: Ref) {
    if visited then
      Settled(h, s, r) && (r.To? ==> r.value in h.kind) && now == Interned(h, s.tables, r)
    else
      now == r
  }

  ghost predicate RefsOk(h: Heap, s: State, cur: Option<Cursor>) {
    && s.refs.Keys == h.refs.Keys
    && (forall o :: o in h.refs ==> |s.refs[o]| == |h.refs[o]|)
    && (forall o, k :: o in h.refs && 0 <= k < |h.refs[o]| ==>
          RefOk(h, s, Visited(h, s, cur, o, k), h.refs[o][k], s.refs[o][k]))
  }

  ghost predicate Inv(h: Heap, s: State, cur: Option<Cursor>) {
    SlotsOk(h, s) && TablesOk(h, s) && StringsOk(h, s) && StackOk(h, s) && CursorOk(h, s, cur) && RefsOk(h, s, cur)
  }

  // ---------- assigning one object ----------

  lemma FindEntry(h: Heap, s: State, c: string)
    requires TablesOk(h, s)
    ensures var f := FindIn(s.tables, c);
      f.To? ==> f.value in s.slots && s.slots[f.value] < |s.tables| && TableEntry(h, s, s.slots[f.value], c, f.value)
  {
    FindMeans(s.tables, c);
    if FindIn(s.tables, c).To? {
      var j :| 0 <= j < |s.tables| && c in s.tables[j] && s.tables[j][c] == FindIn(s.tables, c).value;
      assert TableEntry(h, s, j, c, s.tables[j][c]);
    }
  }

  /** Strings that were interned stay interned as the same object. */
  lemma InternedStays(h: Heap, s: State, o: Id, image: nat, r: Ref)
    requires o in h.kind && image < |s.tables| && (r.To? ==> r.value in h.kind)
    requires StringsOk(h, s) && Settled(h, s, r)
    ensures Interned(h, Assign(h, s, o, image).tables, r) == Interned(h, s.tables, r)
  {
    if r.To? && r.value in s.slots && h.kind[r.value].Str? && h.kind[o].Str? &&
      FindInterned(h, s.tables, h.kind[o].content).Null? {
      assert StringOk(h, s.tables, r.value);
      FindAfterInsert(s.tables, image, h.kind[o].content, o, h.kind[r.value].content);
    }
  }

  lemma AssignSlots(h: Heap, s: State, o: Id, image: nat)
    requires h.Valid() && SlotsOk(h, s) && o in h.kind && o !in h.inBoot && o !in s.slots
    requires image < |s.tables| == h.images
    ensures SlotsOk(h, Assign(h, s, o, image))
  {
  }

  lemma AssignTables(h: Heap, s: State, o: Id, image: nat)
    requires TablesOk(h, s) && o in h.kind && o !in s.slots && image < |s.tables|
    ensures TablesOk(h, Assign(h, s, o, image))
  {
    var n := Assign(h, s, o, image);
    if h.kind[o].Str? {
      FindMeans(s.tables, h.kind[o].content);
    }
    forall j, c | 0 <= j < |n.tables| && c in n.tables[j]
      ensures TableEntry(h, n, j, c, n.tables[j][c])
    {
      if c in s.tables[j] {
        assert TableEntry(h, s, j, c, s.tables[j][c]);
      }
    }
  }

  lemma AssignStrings(h: Heap, s: State, o: Id, image: nat)
    requires StringsOk(h, s) && o in h.kind && image < |s.tables|
    ensures StringsOk(h, Assign(h, s, o, image))
  {
    var n := Assign(h, s, o, image);
    forall p | p in n.slots
      ensures StringOk(h, n.tables, p)
    {
      if p in s.slots { assert StringOk(h, s.tables, p); }
      if p in h.kind && h.kind[p].Str? && h.kind[o].Str? && FindInterned(h, s.tables, h.kind[o].content).Null? {
        FindAfterInsert(s.tables, image, h.kind[o].content, o, h.kind[p].content);
      }
    }
  }

  lemma AssignStack(h: Heap, s: State, o: Id, image: nat)
    requires StackOk(h, s) && o in h.kind && o !in s.slots && image < |s.tables|
    ensures StackOk(h, Assign(h, s, o, image))
    ensures Pending(Assign(h, s, o, image).stack) == Pending(s.stack) + {o}
  {
    var n := Assign(h, s, o, image);
    assert n.stack[0].obj == o && n.stack[1..] == s.stack;
    assert forall it :: it in n.stack <==> it == n.stack[0] || it in s.stack;
  }

  lemma AssignRefs(h: Heap, s: State, cur: Option<Cursor>, o: Id, image: nat)
    requires Inv(h, s, cur) && o in h.kind && o !in s.slots && image < |s.tables|
    ensures RefsOk(h, Assign(h, s, o, image), cur)
  {
    hide Interned, TablesOk, SlotsOk, StackOk, Assign;
    var n := Assign(h, s, o, image);
    AssignStack(h, s, o, image);
    AssignKeeps(h, s, o, image);
    forall p, k | p in h.refs && 0 <= k < |h.refs[p]|
      ensures RefOk(h, n, Visited(h, n, cur, p, k), h.refs[p][k], n.refs[p][k])
    {
      assert RefOk(h, s, Visited(h, s, cur, p, k), h.refs[p][k], s.refs[p][k]);
      assert Visited(h, n, cur, p, k) == Visited(h, s, cur, p, k);
      if Visited(h, s, cur, p, k) {
        InternedStays(h, s, o, image, h.refs[p][k]);
      }
    }
  }

  lemma AssignKeeps(h: Heap, s: State, o: Id, image: nat)
    requires o in h.kind && image < |s.tables|
    ensures var n := Assign(h, s, o, image);
      && n.refs == s.refs && |n.tables| == |s.tables|
      && (forall p :: p in n.slots <==> p in s.slots || p == o)
  {
  }

  lemma AssignOk(h: Heap, s: State, cur: Option<Cursor>, o: Id, image: nat)
    requires h.Valid() && Inv(h, s, cur) && o in h.kind && o !in h.inBoot && o !in s.slots && image < h.images
    ensures Inv(h, Assign(h, s, o, image), cur)
  {
    hide Assign, SlotsOk, TablesOk, StringsOk, StackOk, RefsOk;
    assert |s.tables| == h.images by { TableCount(h, s); }
    AssignSlots(h, s, o, image);
    AssignTables(h, s, o, image);
    AssignStrings(h, s, o, image);
    AssignStack(h, s, o, image);
    AssignRefs(h, s, cur, o, image);
    AssignKeeps(h, s, o, image);
  }

  lemma TableCount(h: Heap, s: State)
    requires TablesOk(h, s)
    ensures |s.tables| == h.images
  {
  }

  // Either nothing changed or fewer objects are left without a slot.
  // Slots and images are never taken back.
  ghost predicate Extends(slots: map<Id, nat>, more: map<Id, nat>) {
    forall o :: o in slots ==> o in more && more[o] == slots[o]
  }

  ghost predicate Progress(h: Heap, s: State, n: State) {
    && Extends(s.slots, n.slots)
    && ((n.slots == s.slots && n.stack == s.stack) || |h.kind.Keys - n.slots.Keys| < |h.kind.Keys - s.slots.Keys|)
  }

  lemma AssignProgress(h: Heap, s: State, o: Id, image: nat)
    requires o in h.kind && o !in s.slots && image < |s.tables|
    ensures Progress(h, s, Assign(h, s, o, image))
  {
    var n := Assign(h, s, o, image);
    assert h.kind.Keys - s.slots.Keys == (h.kind.Keys - n.slots.Keys) + {o};
  }

  lemma NoChange(h: Heap, s: State, refs: map<Id, seq<Ref>>)
    ensures Progress(h, s, s.(refs := refs))
  {
  }

  lemma ProgressAgain(h: Heap, a: State, b: State, c: State)
    requires Progress(h, a, b) && Progress(h, b, c)
    ensures Progress(h, a, c)
  {
  }

  lemma TryAssignOk(h: Heap, s: State, cur: Option<Cursor>, r: Ref, image: nat)
    requires h.Valid() && Inv(h, s, cur) && (r.To? ==> r.value in h.kind) && image < |s.tables|
    ensures var n := TryAssign(h, s, r, image); Inv(h, n, cur) && Settled(h, n, r) && Progress(h, s, n)
  {
    hide Inv, Assign;
    assert |s.tables| == h.images by { InvTables(h, s, cur); }
    if r.To? && r.value !in h.inBoot && r.value !in s.slots {
      AssignOk(h, s, cur, r.value, image);
      AssignProgress(h, s, r.value, image);
      AssignKeeps(h, s, r.value, image);
    }
  }

  lemma InvTables(h: Heap, s: State, cur: Option<Cursor>)
    requires Inv(h, s, cur)
    ensures |s.tables| == h.images && s.refs.Keys == h.refs.Keys
    ensures forall o :: o in h.refs ==> |s.refs[o]| == |h.refs[o]|
    ensures forall it :: it in s.stack ==>
      it.obj in s.slots && it.obj in h.kind && it.image == s.slots[it.obj] < h.images
  {
  }

  // ---------- visiting the references of one object ----------

  function SetRef(s: State, o: Id, k: nat, r: Ref): State
    requires o in s.refs && k < |s.refs[o]|
  {
    s.(refs := s.refs[o := s.refs[o][k := r]])
  }

  lemma VisitOk(h: Heap, s: State, o: Id, k: nat)
    requires h.Valid() && Inv(h, s, Some(Cursor(o, k))) && k < |h.refs[o]| && Settled(h, s, h.refs[o][k])
    ensures o in s.refs && k < |s.refs[o]| && s.refs[o][k] == h.refs[o][k]
    ensures Inv(h, SetRef(s, o, k, Interned(h, s.tables, h.refs[o][k])), Some(Cursor(o, k + 1)))
  {
    hide Interned, TablesOk, SlotsOk, StackOk, FindInterned;
    var before, after := Some(Cursor(o, k)), Some(Cursor(o, k + 1));
    assert RefOk(h, s, Visited(h, s, before, o, k), h.refs[o][k], s.refs[o][k]);
    var n := SetRef(s, o, k, Interned(h, s.tables, h.refs[o][k]));
    SameButRefs(h, s, n);
    forall p, i | p in h.refs && 0 <= i < |h.refs[p]|
      ensures RefOk(h, n, Visited(h, n, after, p, i), h.refs[p][i], n.refs[p][i])
    {
      assert RefOk(h, s, Visited(h, s, before, p, i), h.refs[p][i], s.refs[p][i]);
    }
  }

  lemma SameButRefs(h: Heap, s: State, n: State)
    requires n == s.(refs := n.refs) && SlotsOk(h, s) && TablesOk(h, s) && StackOk(h, s)
    ensures SlotsOk(h, n) && TablesOk(h, n) && StackOk(h, n)
  {
    forall j, c | 0 <= j < |n.tables| && c in n.tables[j]
      ensures TableEntry(h, n, j, c, n.tables[j][c])
    {
      assert TableEntry(h, s, j, c, s.tables[j][c]);
    }
  }

  lemma PopOk(h: Heap, s: State)
    requires h.Valid() && Inv(h, s, None) && s.stack != []
    ensures var n := s.(stack := s.stack[1..]); Inv(h, n, Some(Cursor(s.stack[0].obj, 0)))
  {
    hide Interned, FindInterned;
    var o := s.stack[0].obj;
    var n := s.(stack := s.stack[1..]);
    var cur := Some(Cursor(o, 0));
    assert s.stack[0] in s.stack && forall it :: it in n.stack ==> it in s.stack;
    assert Pending(s.stack) == Pending(n.stack) + {o} by {
      assert forall it :: it in s.stack <==> it == s.stack[0] || it in n.stack;
    }
    forall j, c | 0 <= j < |n.tables| && c in n.tables[j]
      ensures TableEntry(h, n, j, c, n.tables[j][c])
    {
      assert TableEntry(h, s, j, c, s.tables[j][c]);
    }
    forall p, i | p in h.refs && 0 <= i < |h.refs[p]|
      ensures RefOk(h, n, Visited(h, n, cur, p, i), h.refs[p][i], n.refs[p][i])
    {
      assert RefOk(h, s, Visited(h, s, None, p, i), h.refs[p][i], s.refs[p][i]);
    }
  }

  lemma LeaveOk(h: Heap, s: State, o: Id, k: nat)
    requires Inv(h, s, Some(Cursor(o, k))) && k == |h.refs[o]|
    ensures Inv(h, s, None)
  {
    forall p, i | p in h.refs && 0 <= i < |h.refs[p]|
      ensures RefOk(h, s, Visited(h, s, None, p, i), h.refs[p][i], s.refs[p][i])
    {
      assert RefOk(h, s, Visited(h, s, Some(Cursor(o, k)), p, i), h.refs[p][i], s.refs[p][i]);
    }
  }

  // ---------- why an object has a slot ----------

  // Where to start, and the image that the start and what it leads to go to.
  datatype Root = Root(ref: Ref, image: nat)

  /** Object `i` is a root, or an earlier object refers to it; it shares that image unless it has its own. */
  ghost predicate Found(h: Heap, s: State, roots: seq<Root>, i: nat)
    requires i < |s.order|
  {
    var o := s.order[i];
    && o in h.kind && o in s.slots
    && (|| (exists r :: r in roots && r.ref == To(o) && s.slots[o] == ImageOf(h, o, r.image))
        || (exists j :: 0 <= j < i && FoundVia(h, s, s.order[j], o)))
  }

  ghost predicate FoundVia(h: Heap, s: State, from: Id, o: Id) {
    from in s.slots && from in h.refs && To(o) in h.refs[from] && o in s.slots && o in h.kind &&
      s.slots[o] == ImageOf(h, o, s.slots[from])
  }

  ghost predicate Justified(h: Heap, s: State, roots: seq<Root>) {
    forall i :: 0 <= i < |s.order| ==> Found(h, s, roots, i)
  }

  lemma JustifiedStays(h: Heap, s: State, n: State, roots: seq<Root>, more: seq<Root>)
    requires Justified(h, s, roots) && n.order == s.order && n.slots == s.slots && roots <= more
    ensures Justified(h, n, more)
  {
    forall i | 0 <= i < |n.order|
      ensures Found(h, n, more, i)
    {
      assert Found(h, s, roots, i);
      FoundStays(h, s, n, roots, more, i);
    }
  }

  lemma FoundStays(h: Heap, s: State, n: State, roots: seq<Root>, more: seq<Root>, i: nat)
    requires i < |s.order| && Found(h, s, roots, i) && s.order <= n.order && roots <= more
    requires forall o :: o in s.slots ==> o in n.slots && n.slots[o] == s.slots[o]
    ensures Found(h, n, more, i)
  {
    var o := s.order[i];
    if r :| r in roots && r.ref == To(o) && s.slots[o] == ImageOf(h, o, r.image) {
      assert r in more;
    } else {
      var j :| 0 <= j < i && FoundVia(h, s, s.order[j], o);
      assert FoundVia(h, n, n.order[j], o);
    }
  }

  // A new object only needs a reason of its own.
  lemma JustifiedMore(h: Heap, s: State, roots: seq<Root>, o: Id, image: nat)
    requires Justified(h, s, roots) && o in h.kind && o !in s.slots && image < |s.tables|
    requires Found(h, Assign(h, s, o, image), roots, |s.order|)
    ensures Justified(h, Assign(h, s, o, image), roots)
  {
    var n := Assign(h, s, o, image);
    forall i | 0 <= i < |n.order|
      ensures Found(h, n, roots, i)
    {
      if i < |s.order| {
        assert Found(h, s, roots, i);
        FoundStays(h, s, n, roots, roots, i);
      }
    }
  }

  lemma FoundAsRoot(h: Heap, s: State, roots: seq<Root>, r: Root)
    requires Justified(h, s, roots) && r in roots && r.image < |s.tables| && (r.ref.To? ==> r.ref.value in h.kind)
    ensures Justified(h, TryAssign(h, s, r.ref, r.image), roots)
  {
    hide Justified;
    if r.ref.To? && r.ref.value !in h.inBoot && r.ref.value !in s.slots {
      JustifiedMore(h, s, roots, r.ref.value, r.image);
    }
  }

  lemma FoundByReference(h: Heap, s: State, cur: Option<Cursor>, roots: seq<Root>, o: Id, k: nat)
    requires Inv(h, s, cur) && Justified(h, s, roots) && o in s.slots && o in h.refs && k < |h.refs[o]|
    requires s.slots[o] < |s.tables| && (h.refs[o][k].To? ==> h.refs[o][k].value in h.kind)
    ensures var n := TryAssign(h, s, h.refs[o][k], s.slots[o]);
      Justified(h, n, roots) && o in n.slots && n.slots[o] == s.slots[o]
  {
    hide Justified, TablesOk, StringsOk, StackOk, RefsOk;
    var r := h.refs[o][k];
    if r.To? && r.value !in h.inBoot && r.value !in s.slots {
      var n := Assign(h, s, r.value, s.slots[o]);
      var j :| 0 <= j < |s.order| && s.order[j] == o;
      assert To(r.value) in h.refs[o];
      assert FoundVia(h, n, n.order[j], r.value);
      JustifiedMore(h, s, roots, r.value, s.slots[o]);
    }
  }

  // ---------- the walk ----------

  class Walker {
    const h: Heap
    var refs: map<Id, seq<Ref>>
    var tables: seq<map<string, Id>>
    var slots: map<Id, nat>
    var order: seq<Id>
    var stack: seq<Item>

    ghost function S(): State
      reads this
    {
      State(refs, tables, slots, order, stack)
    }

    constructor (h: Heap)
      requires h.Valid()
      ensures this.h == h && Inv(h, S(), None) && stack == [] && order == [] && refs == h.refs
    {
      this.h := h;
      refs, tables, slots, order, stack := h.refs, seq(h.images, _ => map[]), map[], [], [];
    }

    method FindInternedString(c: string) returns (found: Ref)
      ensures found == FindInterned(h, tables, c)
    {
      for j := 0 to |tables|
        invariant FindIn(tables[j..], c) == FindIn(tables, c)
      {
        assert tables[j..][1..] == tables[j + 1..];
        if c in tables[j] {
          return To(tables[j][c]);
        }
      }
      if c in h.bootStrings {
        return To(h.bootStrings[c]);
      }
      return Null;
    }

    /** Gives an object a slot if it needs one; returns what references to it should become. */
    method TryAssignBinSlot(r: Ref, image: nat, ghost cur: Option<Cursor>) returns (to: Ref)
      requires h.Valid() && Inv(h, S(), cur) && (r.To? ==> r.value in h.kind) && image < h.images
      modifies this`tables, this`slots, this`order, this`stack
      ensures S() == TryAssign(h, old(S()), r, image)
      ensures to == Interned(h, tables, r)
    {
      hide Inv, FindInterned;
      InvTables(h, S(), cur);
      if r.Null? || r.value in h.inBoot {
        return r;
      }
      var o := r.value;
      if o !in slots {
        var at := image;
        match h.kind[o] {
          case Str(c) =>
            var interned := FindInternedString(c);
            if interned.Null? {
              tables := Insert(tables, image, c, o);
            }
          case DexCache(i) => at := i;
          case Class(i) => at := i;
          case Other =>
        }
        slots := slots[o := at];
        order := order + [o];
        stack := [Item(o, at)] + stack;
      }
      if h.kind[o].Str? {
        var interned := FindInternedString(h.kind[o].content);
        if interned.To? {
          return interned;
        }
      }
      return r;
    }

    // Follows one reference and stores the interned reference in its place.
    method VisitReference(o: Id, k: nat, image: nat, ghost roots: seq<Root>)
      requires h.Valid() && Inv(h, S(), Some(Cursor(o, k))) && o in h.refs && k < |h.refs[o]| && image < h.images
      requires o in slots && slots[o] == image && Justified(h, S(), roots)
      modifies this
      ensures Inv(h, S(), Some(Cursor(o, k + 1))) && Progress(h, old(S()), S())
      ensures o in slots && slots[o] == image && Justified(h, S(), roots)
    {
      hide Inv, TryAssign, Interned, FindInterned, Progress, Settled, Justified;
      ghost var start, cur := S(), Some(Cursor(o, k));
      CursorInHeap(h, start, o, k);
      NotYetVisited(h, start, o, k);
      InvTables(h, start, cur);
      TryAssignOk(h, start, cur, h.refs[o][k], image);
      FoundByReference(h, start, cur, roots, o, k);
      var to := TryAssignBinSlot(refs[o][k], image, cur);
      ghost var next := S();
      VisitOk(h, next, o, k);
      refs := refs[o := refs[o][k := to]];
      JustifiedStays(h, next, S(), roots, roots);
      NoChange(h, next, refs);
      ProgressAgain(h, start, next, S());
    }

    method VisitReferences(o: Id, image: nat, ghost roots: seq<Root>)
      requires h.Valid() && Inv(h, S(), Some(Cursor(o, 0))) && image < h.images
      requires o in slots && slots[o] == image && Justified(h, S(), roots)
      modifies this
      ensures Inv(h, S(), None) && Progress(h, old(S()), S()) && Justified(h, S(), roots)
    {
      hide Inv, Progress, Justified;
      ghost var start := S();
      NoChange(h, start, refs);
      CursorInHeap(h, start, o, 0);
      var n := |refs[o]|;
      for k := 0 to n
        invariant Inv(h, S(), Some(Cursor(o, k))) && Progress(h, start, S())
        invariant o in slots && slots[o] == image && Justified(h, S(), roots)
      {
        ghost var before := S();
        VisitReference(o, k, image, roots);
        ProgressAgain(h, start, before, S());
      }
      LeaveOk(h, S(), o, n);
    }

    /** Terminates because each round either uses up an object without a slot or shortens the stack. */
    method ProcessWorkStack(ghost roots: seq<Root>)
      requires h.Valid() && Inv(h, S(), None) && Justified(h, S(), roots)
      modifies this
      ensures Inv(h, S(), None) && stack == [] && Extends(old(slots), slots) && Justified(h, S(), roots)
    {
      hide Inv, Justified;
      while stack != []
        invariant Inv(h, S(), None) && Extends(old(slots), slots) && Justified(h, S(), roots)
        decreases |h.kind.Keys - slots.Keys|, |stack|
      {
        var top := stack[0];
        InvTables(h, S(), None);
        assert stack[0] in stack;
        PopOk(h, S());
        ghost var before := S();
        stack := stack[1..];
        JustifiedStays(h, before, S(), roots, roots);
        VisitReferences(top.obj, top.image, roots);
      }
    }

    // Assigns references that all start in one image.
    method AssignRoots(rs: seq<Ref>, image: nat, ghost done: seq<Root>)
      requires h.Valid() && Inv(h, S(), None) && image < h.images && KnownRefs(h, rs)
      requires AllSettled(h, S(), done) && Justified(h, S(), done)
      requires FirstWins(h, slots, done) && OnlyRoots(slots, done)
      modifies this
      ensures Inv(h, S(), None)
      ensures AllSettled(h, S(), done + InImage(rs, image)) && Justified(h, S(), done + InImage(rs, image))
      ensures FirstWins(h, slots, done + InImage(rs, image)) && OnlyRoots(slots, done + InImage(rs, image))
    {
      hide Inv, TryAssign, Interned, AllSettled, Progress, Justified, FirstWins, OnlyRoots;
      assert done + InImage(rs[..0], image) == done;
      for i := 0 to |rs|
        invariant Inv(h, S(), None)
        invariant AllSettled(h, S(), done + InImage(rs[..i], image))
        invariant Justified(h, S(), done + InImage(rs[..i], image))
        invariant FirstWins(h, slots, done + InImage(rs[..i], image))
        invariant OnlyRoots(slots, done + InImage(rs[..i], image))
      {
        ghost var root := Root(rs[i], image);
        ghost var was, now := done + InImage(rs[..i], image), done + InImage(rs[..i + 1], image);
        assert now == was + [root];
        ghost var before := S();
        InvTables(h, before, None);
        TryAssignOk(h, before, None, rs[i], image);
        JustifiedStays(h, before, before, was, now);
        FoundAsRoot(h, before, now, root);
        var _ := TryAssignBinSlot(rs[i], image, None);
        OneMore(h, before, S(), was, root);
        NextRoot(h, before, was, root);
      }
      assert rs[..|rs|] == rs;
    }

    /** Strings start in the image of the first dex file that names them, other roots in the default image. */
    method AssignAll(files: seq<DexStrings>, rs: seq<Ref>, image: nat)
      requires h.Valid() && Inv(h, S(), None) && image < h.images && KnownRefs(h, rs) && order == []
      requires forall f :: f in files ==> f.image < h.images && KnownRefs(h, f.strings)
      modifies this
      ensures Inv(h, S(), None) && stack == []
      ensures AllSettled(h, S(), Roots(files, rs, image)) && Justified(h, S(), Roots(files, rs, image))
      ensures FirstWins(h, slots, Roots(files, rs, image))
    {
      assert AllSettled(h, S(), []) && Justified(h, S(), []) && FirstWins(h, slots, []) && OnlyRoots(slots, []);
      hide Inv, AllSettled, Progress, Justified, FirstWins, OnlyRoots;
      for d := 0 to |files|
        invariant Inv(h, S(), None) && AllSettled(h, S(), FileRoots(files, d)) && Justified(h, S(), FileRoots(files, d))
        invariant FirstWins(h, slots, FileRoots(files, d)) && OnlyRoots(slots, FileRoots(files, d))
      {
        AssignRoots(files[d].strings, files[d].image, FileRoots(files, d));
      }
      AssignRoots(rs, image, FileRoots(files, |files|));
      ghost var before := S();
      ProcessWorkStack(Roots(files, rs, image));
      StillSettled(h, before, S(), Roots(files, rs, image));
    }
  }

  // ---------- the image of a root ----------

  // Root `k` is the first to name an object of this image.
  ghost predicate FirstAt(h: Heap, roots: seq<Root>, k: nat)
    requires k < |roots|
  {
    && roots[k].ref.To? && roots[k].ref.value in h.kind && roots[k].ref.value !in h.inBoot
    && forall j :: 0 <= j < k ==> roots[j].ref != roots[k].ref
  }

  ghost predicate FirstWins(h: Heap, slots: map<Id, nat>, roots: seq<Root>) {
    forall k :: 0 <= k < |roots| && FirstAt(h, roots, k) ==>
      roots[k].ref.value in slots && slots[roots[k].ref.value] == ImageOf(h, roots[k].ref.value, roots[k].image)
  }

  ghost predicate OnlyRoots(slots: map<Id, nat>, roots: seq<Root>) {
    forall o :: o in slots ==> exists k :: 0 <= k < |roots| && roots[k].ref == To(o)
  }

  lemma NextRoot(h: Heap, s: State, roots: seq<Root>, r: Root)
    requires FirstWins(h, s.slots, roots) && OnlyRoots(s.slots, roots)
    requires (r.ref.To? ==> r.ref.value in h.kind) && r.image < |s.tables|
    ensures var n := TryAssign(h, s, r.ref, r.image);
      FirstWins(h, n.slots, roots + [r]) && OnlyRoots(n.slots, roots + [r])
  {
    var n, now := TryAssign(h, s, r.ref, r.image), roots + [r];
    forall k | 0 <= k < |now| && FirstAt(h, now, k)
      ensures now[k].ref.value in n.slots
      ensures n.slots[now[k].ref.value] == ImageOf(h, now[k].ref.value, now[k].image)
    {
      if k < |roots| {
        assert forall j :: 0 <= j < k ==> now[j] == roots[j];
        assert FirstAt(h, roots, k);
      } else {
        assert forall j :: 0 <= j < |roots| ==> now[j] == roots[j];
        assert r.ref.value !in s.slots;
      }
    }
    forall o | o in n.slots
      ensures exists k :: 0 <= k < |now| && now[k].ref == To(o)
    {
      if o in s.slots {
        var k :| 0 <= k < |roots| && roots[k].ref == To(o);
        assert now[k].ref == To(o);
      } else {
        assert now[|roots|].ref == To(o);
      }
    }
  }

  // The interned strings that a dex file names, and the image it belongs to.
  datatype DexStrings = DexStrings(image: nat, strings: seq<Ref>)

  ghost predicate KnownRefs(h: Heap, rs: seq<Ref>) {
    forall r :: r in rs && r.To? ==> r.value in h.kind
  }

  function InImage(rs: seq<Ref>, image: nat): seq<Root> {
    seq(|rs|, k requires 0 <= k < |rs| => Root(rs[k], image))
  }

  function FileRoots(files: seq<DexStrings>, n: nat): seq<Root>
    requires n <= |files|
  {
    if n == 0 then [] else FileRoots(files, n - 1) + InImage(files[n - 1].strings, files[n - 1].image)
  }

  /** Everything the walk starts from, in order. */
  function Roots(files: seq<DexStrings>, rs: seq<Ref>, image: nat): seq<Root> {
    FileRoots(files, |files|) + InImage(rs, image)
  }

  // The first place in a list of references, and what it is among the roots.
  lemma {:induction false} FirstIn(rs: seq<Ref>, r: Ref) returns (k: nat)
    requires r in rs
    ensures k < |rs| && rs[k] == r && forall j :: 0 <= j < k ==> rs[j] != r
  {
    if rs[0] == r {
      k := 0;
    } else {
      var m := FirstIn(rs[1..], r);
      k := m + 1;
    }
  }

  lemma {:induction false} NotNamed(files: seq<DexStrings>, n: nat, r: Ref)
    requires n <= |files| && forall e :: 0 <= e < n ==> r !in files[e].strings
    ensures forall j :: 0 <= j < |FileRoots(files, n)| ==> FileRoots(files, n)[j].ref != r
  {
    if n > 0 { NotNamed(files, n - 1, r); }
  }

  lemma {:induction false} FilesPrefix(files: seq<DexStrings>, m: nat, n: nat)
    requires m <= n <= |files|
    ensures FileRoots(files, m) <= FileRoots(files, n)
  {
    if m < n { FilesPrefix(files, m, n - 1); }
  }

  // Where the roots name something first.
  ghost predicate NamedFirst(roots: seq<Root>, k: nat, r: Root) {
    k < |roots| && roots[k] == r && forall j :: 0 <= j < k ==> roots[j].ref != r.ref
  }

  lemma FirstInFile(files: seq<DexStrings>, d: nat, r: Ref) returns (k: nat)
    requires d < |files| && r in files[d].strings && forall e :: 0 <= e < d ==> r !in files[e].strings
    ensures NamedFirst(FileRoots(files, d + 1), k, Root(r, files[d].image))
  {
    var i := FirstIn(files[d].strings, r);
    NotNamed(files, d, r);
    k := |FileRoots(files, d)| + i;
  }

  lemma NamedFirstOfMore(roots: seq<Root>, more: seq<Root>, k: nat, r: Root)
    requires NamedFirst(roots, k, r) && roots <= more
    ensures NamedFirst(more, k, r)
  {
    assert forall j :: 0 <= j < |roots| ==> more[j] == roots[j];
  }

  lemma ImageOfFirst(h: Heap, slots: map<Id, nat>, roots: seq<Root>, k: nat, o: Id, image: nat)
    requires FirstWins(h, slots, roots) && NamedFirst(roots, k, Root(To(o), image)) && o in h.kind && o !in h.inBoot
    ensures o in slots && slots[o] == ImageOf(h, o, image)
  {
    assert FirstAt(h, roots, k);
  }

  /** A string that dex files name is in the image of the first of them. */
  lemma StringsOfFirstFile(h: Heap, slots: map<Id, nat>, files: seq<DexStrings>, rs: seq<Ref>, image: nat, d: nat,
                           o: Id)
    requires FirstWins(h, slots, Roots(files, rs, image)) && o in h.kind && h.kind[o].Str? && o !in h.inBoot
    requires d < |files| && To(o) in files[d].strings && forall e :: 0 <= e < d ==> To(o) !in files[e].strings
    ensures o in slots && slots[o] == files[d].image
  {
    var roots := Roots(files, rs, image);
    FilesPrefix(files, d + 1, |files|);
    assert FileRoots(files, d + 1) <= roots;
    hide Roots, FileRoots, FirstWins, NamedFirst;
    var k := FirstInFile(files, d, To(o));
    NamedFirstOfMore(FileRoots(files, d + 1), roots, k, Root(To(o), files[d].image));
    ImageOfFirst(h, slots, roots, k, o, files[d].image);
  }

  lemma FirstElsewhere(files: seq<DexStrings>, rs: seq<Ref>, image: nat, r: Ref) returns (k: nat)
    requires r in rs && forall e :: 0 <= e < |files| ==> r !in files[e].strings
    ensures NamedFirst(Roots(files, rs, image), k, Root(r, image))
  {
    var i := FirstIn(rs, r);
    NotNamed(files, |files|, r);
    hide FileRoots;
    k := |FileRoots(files, |files|)| + i;
  }

  /** Any other root goes to the default image, unless it is a class or a dex cache. */
  lemma OthersInDefaultImage(h: Heap, slots: map<Id, nat>, files: seq<DexStrings>, rs: seq<Ref>, image: nat, o: Id)
    requires FirstWins(h, slots, Roots(files, rs, image)) && o in h.kind && o !in h.inBoot && To(o) in rs
    requires forall e :: 0 <= e < |files| ==> To(o) !in files[e].strings
    ensures o in slots
    ensures match h.kind[o] case Class(i) => slots[o] == i case DexCache(i) => slots[o] == i case _ => slots[o] == image
  {
    hide Roots, FirstWins, NamedFirst;
    var k := FirstElsewhere(files, rs, image, To(o));
    ImageOfFirst(h, slots, Roots(files, rs, image), k, o, image);
  }

  ghost predicate AllSettled(h: Heap, s: State, roots: seq<Root>) {
    forall r :: r in roots ==> Settled(h, s, r.ref)
  }

  lemma StillSettled(h: Heap, s: State, n: State, roots: seq<Root>)
    requires AllSettled(h, s, roots) && FirstWins(h, s.slots, roots) && Extends(s.slots, n.slots)
    ensures AllSettled(h, n, roots) && FirstWins(h, n.slots, roots)
  {
  }

  lemma OneMore(h: Heap, s: State, n: State, roots: seq<Root>, r: Root)
    requires AllSettled(h, s, roots) && Settled(h, n, r.ref) && Progress(h, s, n)
    ensures AllSettled(h, n, roots + [r])
  {
  }

  lemma CursorInHeap(h: Heap, s: State, o: Id, k: nat)
    requires h.Valid() && Inv(h, s, Some(Cursor(o, k)))
    ensures o in h.refs && o in s.refs && |s.refs[o]| == |h.refs[o]|
    ensures forall i :: 0 <= i < |h.refs[o]| && h.refs[o][i].To? ==> h.refs[o][i].value in h.kind
  {
  }

  lemma NotYetVisited(h: Heap, s: State, o: Id, k: nat)
    requires Inv(h, s, Some(Cursor(o, k))) && o in h.refs && k < |h.refs[o]|
    ensures s.refs[o][k] == h.refs[o][k]
  {
    assert RefOk(h, s, Visited(h, s, Some(Cursor(o, k)), o, k), h.refs[o][k], s.refs[o][k]);
  }

  // ---------- results ----------

  // Two references that differ at most in which of several equal strings they name.
  ghost predicate SameUpToInterning(h: Heap, a: Ref, b: Ref) {
    a == b || (a.To? && b.To? && a.value in h.kind && b.value in h.kind && h.kind[a.value].Str? &&
      h.kind[a.value] == h.kind[b.value])
  }

  /**
   Once the stack is empty, an object with a slot refers only to null, the boot image and objects
   with slots, both before and after its strings were replaced; nothing but equal strings was
   replaced, and equal strings outside the boot image are now one object.
   */
  lemma ClosedUnderReferences(h: Heap, s: State, o: Id, k: nat)
    requires h.Valid() && Inv(h, s, None) && s.stack == [] && o in s.slots && o in h.refs && k < |h.refs[o]|
    ensures o in s.refs && k < |s.refs[o]|
    ensures Settled(h, s, h.refs[o][k]) && Settled(h, s, s.refs[o][k])
    ensures SameUpToInterning(h, h.refs[o][k], s.refs[o][k])
    ensures var r := h.refs[o][k];
      r.To? && r.value !in h.inBoot && h.kind[r.value].Str? ==>
        FindInterned(h, s.tables, h.kind[r.value].content) == s.refs[o][k]
  {
    hide SlotsOk, StackOk;
    var r := h.refs[o][k];
    assert RefOk(h, s, Visited(h, s, None, o, k), r, s.refs[o][k]);
    if r.To? && r.value !in h.inBoot && h.kind[r.value].Str? {
      assert StringOk(h, s.tables, r.value);
      FindEntry(h, s, h.kind[r.value].content);
    }
  }

  // A chain of references that stays outside the boot image.
  ghost predicate Chain(h: Heap, p: seq<Id>) {
    && (forall i :: 0 <= i < |p| ==> p[i] in h.refs && p[i] !in h.inBoot)
    && (forall i :: 0 <= i < |p| - 1 ==> To(p[i + 1]) in h.refs[p[i]])
  }

  /** Every object reachable from an object with a slot has one too. */
  lemma {:induction false} ReachableHasSlot(h: Heap, s: State, p: seq<Id>)
    requires h.Valid() && Inv(h, s, None) && s.stack == [] && Chain(h, p) && p != [] && p[0] in s.slots
    ensures p[|p| - 1] in s.slots
    decreases |p|
  {
    if |p| > 1 {
      hide Inv;
      var q := p[..|p| - 1];
      ReachableHasSlot(h, s, q);
      var o := q[|q| - 1];
      assert To(p[(|p| - 2) + 1]) in h.refs[o];
      var k :| 0 <= k < |h.refs[o]| && h.refs[o][k] == To(p[|p| - 1]);
      ClosedUnderReferences(h, s, o, k);
    }
  }

  ghost predicate Leads(h: Heap, roots: seq<Root>, p: seq<Id>, o: Id) {
    p != [] && Chain(h, p) && p[|p| - 1] == o && exists r :: r in roots && r.ref == To(p[0])
  }

  /** Whether references lead from a root to `o` without passing through the boot image. */
  ghost predicate Reachable(h: Heap, roots: seq<Root>, o: Id) {
    exists p :: Leads(h, roots, p, o)
  }

  lemma {:induction false} FoundIsReachable(h: Heap, s: State, roots: seq<Root>, i: nat)
    requires h.Valid() && SlotsOk(h, s) && Justified(h, s, roots) && i < |s.order|
    ensures Reachable(h, roots, s.order[i])
  {
    var o := s.order[i];
    assert Found(h, s, roots, i) && o in s.slots;
    if j :| 0 <= j < i && FoundVia(h, s, s.order[j], o) {
      FoundIsReachable(h, s, roots, j);
      var p :| Leads(h, roots, p, s.order[j]);
      assert (p + [o])[0] == p[0];
      assert Leads(h, roots, p + [o], o);
    } else {
      assert Leads(h, roots, [o], o);
    }
  }

  /** After the walk an object has a slot exactly when it is reachable from the roots. */
  lemma SlotIffReachable(h: Heap, s: State, roots: seq<Root>, o: Id)
    requires h.Valid() && Inv(h, s, None) && s.stack == [] && Justified(h, s, roots) && AllSettled(h, s, roots)
    ensures o in s.slots <==> Reachable(h, roots, o)
  {
    hide Justified, TablesOk, StringsOk, StackOk, RefsOk;
    if o in s.slots {
      var i :| 0 <= i < |s.order| && s.order[i] == o;
      FoundIsReachable(h, s, roots, i);
    }
    if p :| Leads(h, roots, p, o) {
      assert Settled(h, s, To(p[0]));
      ReachableHasSlot(h, s, p);
    }
  }

  /**
   What becomes of a reference: a string outside the boot image is replaced by the boot image's string
   with its contents, or else by the one in the intern tables; anything else stays as it is.
   */
  lemma StringsAreShared(h: Heap, s: State, o: Id, k: nat)
    requires h.Valid() && Inv(h, s, None) && s.stack == [] && o in s.slots && o in h.refs && k < |h.refs[o]|
    ensures o in s.refs && k < |s.refs[o]|
    ensures var r, now := h.refs[o][k], s.refs[o][k];
      if r.To? && r.value !in h.inBoot && h.kind[r.value].Str? then
        var c := h.kind[r.value].content;
        if c in h.bootStrings then now == To(h.bootStrings[c])
        else exists j :: 0 <= j < |s.tables| && c in s.tables[j] && now == To(s.tables[j][c])
      else
        now == r
  {
    hide SlotsOk, StackOk;
    var r := h.refs[o][k];
    assert RefOk(h, s, Visited(h, s, None, o, k), r, s.refs[o][k]);
    if r.To? && r.value !in h.inBoot && h.kind[r.value].Str? {
      var c := h.kind[r.value].content;
      assert StringOk(h, s.tables, r.value);
      FindMeans(s.tables, c);
      FindEntry(h, s, c);
    }
  }

  /**
   Dex caches and classes are in the image of their dex file; every other object is in the image of a
   root that names it, or in that of an earlier object that refers to it.
   */
  lemma ImageIsRight(h: Heap, s: State, roots: seq<Root>, i: nat)
    requires Justified(h, s, roots) && i < |s.order|
    ensures var o := s.order[i]; o in h.kind && o in s.slots
    ensures var o := s.order[i];
      match h.kind[o]
      case DexCache(image) => s.slots[o] == image
      case Class(image) => s.slots[o] == image
      case _ =>
        || Root(To(o), s.slots[o]) in roots
        || exists j :: 0 <= j < i && SharesImage(h, s, s.order[j], o)
  {
    assert Found(h, s, roots, i);
    var o := s.order[i];
    if r :| r in roots && r.ref == To(o) && s.slots[o] == ImageOf(h, o, r.image) {
      assert r == Root(To(o), r.image);
    } else {
      var j :| 0 <= j < i && FoundVia(h, s, s.order[j], o);
      assert !h.kind[o].DexCache? && !h.kind[o].Class? ==> SharesImage(h, s, s.order[j], o);
    }
  }

  ghost predicate SharesImage(h: Heap, s: State, from: Id, o: Id) {
    from in h.refs && To(o) in h.refs[from] && from in s.slots && o in s.slots && s.slots[from] == s.slots[o]
  }

  /** Slots are handed out once each; interned strings are unique, and each is in the table of its own image. */
  lemma OneSlotEach(h: Heap, s: State, cur: Option<Cursor>)
    requires Inv(h, s, cur)
    ensures s.slots.Keys == set o | o in s.order
    ensures forall i, j :: 0 <= i < j < |s.order| ==> s.order[i] != s.order[j]
    ensures forall j, k, c :: 0 <= j < k < |s.tables| && c in s.tables[j] ==> c !in s.tables[k]
    ensures forall j, c :: 0 <= j < |s.tables| && c in s.tables[j] ==>
      c !in h.bootStrings && s.tables[j][c] in s.slots && s.slots[s.tables[j][c]] == j &&
        h.kind[s.tables[j][c]] == Str(c)
  {
    hide StackOk, RefsOk, StringsOk;
    assert forall o :: o in s.slots.Keys <==> o in s.order;
    forall j, c | 0 <= j < |s.tables| && c in s.tables[j]
      ensures c !in h.bootStrings && s.tables[j][c] in s.slots && s.slots[s.tables[j][c]] == j
      ensures h.kind[s.tables[j][c]] == Str(c)
    {
      assert TableEntry(h, s, j, c, s.tables[j][c]);
    }
  }
}