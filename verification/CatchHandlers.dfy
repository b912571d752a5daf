/**
 Rebuilding the catch handlers of a method: first those that its try items name by offset, then, in a
 walk over the encoded list, those that no try item names.
 */
module CatchHandlers {
  import opened Wrappers
  import opened Align
  import opened Leb128

  // ---------- the encoded list ----------

  datatype EncPair = EncPair(type_: Leb, addr: Leb)

  // A size that is not positive announces a catch-all handler behind the typed ones.
  datatype Entry = Entry(size: Leb, pairs: seq<EncPair>, catchAll: Option<Leb>) {
    predicate Valid() {
      && Signed(size) == (if catchAll.Some? then -|pairs| else |pairs|)
      && (catchAll.None? ==> |pairs| > 0)
      && (forall i :: 0 <= i < |pairs| ==> Unsigned(pairs[i].type_) < 0xffff)
    }
  }

  function Pairs(ps: seq<EncPair>, n: nat): seq<byte>
    requires n <= |ps|
  {
    if n == 0 then [] else Pairs(ps, n - 1) + (ps[n - 1].type_ + ps[n - 1].addr)
  }

  function CatchAllBytes(e: Entry): seq<byte> { if e.catchAll.Some? then e.catchAll.value else [] }

  function EntryBytes(e: Entry): (b: seq<byte>)
    ensures |b| >= 1
  {
    e.size + Pairs(e.pairs, |e.pairs|) + CatchAllBytes(e)
  }

  datatype List = List(size: Leb, entries: seq<Entry>) {
    predicate Valid() {
      && Unsigned(size) == |entries| && (forall i :: 0 <= i < |entries| ==> entries[i].Valid())
      && Offset(|entries|) < 65536
    }

    function Entries(n: nat): seq<byte>
      requires n <= |entries|
    {
      if n == 0 then [] else Entries(n - 1) + EntryBytes(entries[n - 1])
    }

    function Bytes(): seq<byte> { size + Entries(|entries|) }

    /** Where entry `i` starts; a try item names its handlers this way. */
    function Offset(i: nat): nat
      requires i <= |entries|
    {
      |size| + |Entries(i)|
    }
  }

  lemma {:induction false} OffsetsGrow(l: List, i: nat, j: nat)
    requires i < j <= |l.entries|
    ensures l.Offset(i) < l.Offset(j)
    decreases j
  {
    if i < j - 1 { OffsetsGrow(l, i, j - 1); }
  }

  lemma OffsetsDiffer(l: List, i: nat, j: nat)
    requires i <= |l.entries| && j <= |l.entries|
    ensures l.Offset(i) == l.Offset(j) <==> i == j
  {
    if i < j { OffsetsGrow(l, i, j); } else if j < i { OffsetsGrow(l, j, i); }
  }

  // ---------- what is rebuilt ----------

  // A pair without type catches everything.
  datatype Pair = Pair(type_: Option<nat>, addr: nat)
  datatype Handler = Handler(catchAll: bool, offset: nat, pairs: seq<Pair>)

  function Typed(ps: seq<EncPair>, n: nat): (rs: seq<Pair>)
    requires n <= |ps|
    ensures |rs| == n
  {
    if n == 0 then [] else Typed(ps, n - 1) + [Pair(Some(Unsigned(ps[n - 1].type_)), Unsigned(ps[n - 1].addr))]
  }

  function PairsOf(e: Entry): seq<Pair> {
    Typed(e.pairs, |e.pairs|) + if e.catchAll.Some? then [Pair(None, Unsigned(e.catchAll.value))] else []
  }

  function HandlerOf(l: List, i: nat): Handler
    requires i < |l.entries|
  {
    Handler(l.entries[i].catchAll.Some?, l.Offset(i), PairsOf(l.entries[i]))
  }

  // ---------- reading one entry ----------

  lemma {:induction false} PairHeld(data: seq<byte>, at: nat, ps: seq<EncPair>, i: nat, n: nat)
    requires i < n <= |ps| && Holds(data, at, Pairs(ps, n))
    ensures var p := at + |Pairs(ps, i)|;
      && Holds(data, p, ps[i].type_) && Holds(data, p + |ps[i].type_|, ps[i].addr)
      && at + |Pairs(ps, i + 1)| == p + |ps[i].type_| + |ps[i].addr|
    decreases n
  {
    hide Holds;
    HoldsTwo(data, at, Pairs(ps, n - 1), ps[n - 1].type_ + ps[n - 1].addr);
    if i < n - 1 {
      PairHeld(data, at, ps, i, n - 1);
    } else {
      HoldsTwo(data, at + |Pairs(ps, n - 1)|, ps[n - 1].type_, ps[n - 1].addr);
    }
  }

  lemma EntryParts(data: seq<byte>, at: nat, e: Entry)
    requires Holds(data, at, EntryBytes(e))
    ensures Holds(data, at, e.size) && Holds(data, at + |e.size|, Pairs(e.pairs, |e.pairs|))
    ensures e.catchAll.Some? ==> Holds(data, at + |e.size| + |Pairs(e.pairs, |e.pairs|)|, e.catchAll.value)
    ensures |EntryBytes(e)| == |e.size| + |Pairs(e.pairs, |e.pairs|)| + |CatchAllBytes(e)|
  {
    hide Holds, Pairs;
    HoldsPart(data, at, e.size, Pairs(e.pairs, |e.pairs|), CatchAllBytes(e));
  }

  // Type indexes are 16 bits wide; the largest stands for no type.
  function TypeOrNull(index: nat): Option<nat> {
    if index % 65536 == 0xffff then None else Some(index % 65536)
  }

  lemma TypeIsKept(index: nat)
    requires index < 0xffff
    ensures TypeOrNull(index) == Some(index)
  {
  }

  // The typed pairs, decoded one by one.
  method ReadPairs(data: seq<byte>, at: nat, n: nat, ghost ps: seq<EncPair>) returns (pairs: seq<Pair>, next: nat)
    requires n == |ps| && Holds(data, at, Pairs(ps, n)) && forall i :: 0 <= i < n ==> Unsigned(ps[i].type_) < 0xffff
    ensures pairs == Typed(ps, n) && next == at + |Pairs(ps, n)|
  {
    hide Holds, Pairs, Typed, Unsigned, TypeOrNull;
    pairs, next := [], at;
    NoPairs(ps);
    for i := 0 to n
      invariant pairs == Typed(ps, i) && next == at + |Pairs(ps, i)|
    {
      PairHeld(data, at, ps, i, n);
      TypedNext(ps, i);
      var type_: nat, addr: nat;
      type_, next := DecodeUnsigned(data, next, ps[i].type_);
      addr, next := DecodeUnsigned(data, next, ps[i].addr);
      pairs := pairs + [Pair(TypeOrNull(type_), addr)];
    }
  }

  lemma TypedNext(ps: seq<EncPair>, i: nat)
    requires i < |ps| && Unsigned(ps[i].type_) < 0xffff
    ensures Typed(ps, i + 1) == Typed(ps, i) + [Pair(TypeOrNull(Unsigned(ps[i].type_)), Unsigned(ps[i].addr))]
  {
    hide Unsigned;
    TypeIsKept(Unsigned(ps[i].type_));
  }

  /** One entry: a signed count, the typed handlers, and a catch-all when the count is not positive. */
  method ReadEntry(data: seq<byte>, at: nat, ghost e: Entry) returns (catchAll: bool, pairs: seq<Pair>, next: nat)
    requires e.Valid() && Holds(data, at, EntryBytes(e))
    ensures catchAll == e.catchAll.Some? && pairs == PairsOf(e) && next == at + |EntryBytes(e)|
  {
    hide Holds, Pairs, Typed, Unsigned, EntryBytes;
    EntryParts(data, at, e);
    var size: int;
    size, next := DecodeSigned(data, at, e.size);
    catchAll := size <= 0;
    if catchAll {
      size := -size;
    }
    pairs, next := ReadPairs(data, next, size, e.pairs);
    if catchAll {
      var addr: nat;
      addr, next := DecodeUnsigned(data, next, e.catchAll.value);
      pairs := pairs + [Pair(None, addr)];
    }
  }

  // ---------- the iterator over one entry ----------

  datatype Iterator = Iterator(next: nat, remaining: int, catchAll: bool, type_: nat, addr: nat) {
    predicate HasNext() { remaining != -1 || catchAll }
  }

  // The iterator shows element `k` of the entry, or is exhausted.
  ghost predicate Shows(e: Entry, base: nat, it: Iterator, k: nat) {
    if k < |e.pairs| then
      && it.remaining == |e.pairs| - k - 1 && it.catchAll == e.catchAll.Some? &&
           it.next == base + |Pairs(e.pairs, k + 1)|
      && it.type_ == Unsigned(e.pairs[k].type_) && it.addr == Unsigned(e.pairs[k].addr)
    else if k == |e.pairs| && e.catchAll.Some? then
      it.remaining == 0 && !it.catchAll && it.type_ == 0xffff && it.addr == Unsigned(e.catchAll.value)
    else
      !it.HasNext()
  }

  /** Moves on; `k` elements have been shown before. */
  method Next(data: seq<byte>, it: Iterator, ghost e: Entry, ghost base: nat, ghost k: nat) returns (r: Iterator)
    requires e.Valid() && k <= |e.pairs| + 1 && Holds(data, base, Pairs(e.pairs, |e.pairs|))
    requires e.catchAll.Some? ==> Holds(data, base + |Pairs(e.pairs, |e.pairs|)|, e.catchAll.value)
    requires if k <= |e.pairs| then it.remaining == |e.pairs| - k && it.catchAll == e.catchAll.Some? &&
      it.next == base + |Pairs(e.pairs, k)|
             else it.remaining == 0 && !it.catchAll
    ensures Shows(e, base, r, k) && (r.HasNext() <==> k < |e.pairs| + if e.catchAll.Some? then 1 else 0)
  {
    hide Holds, Pairs, Unsigned;
    r := it;
    if r.remaining > 0 {
      PairHeld(data, base, e.pairs, k, |e.pairs|);
      var type_: nat, addr: nat, next: nat;
      type_, next := DecodeUnsigned(data, r.next, e.pairs[k].type_);
      addr, next := DecodeUnsigned(data, next, e.pairs[k].addr);
      r := Iterator(next, r.remaining - 1, r.catchAll, type_, addr);
    } else if r.catchAll {
      var addr: nat, next: nat;
      addr, next := DecodeUnsigned(data, r.next, e.catchAll.value);
      r := Iterator(next, r.remaining, false, 0xffff, addr);
    } else {
      r := r.(remaining := -1);
    }
  }

  /** Iterating over an entry gives the same pairs as reading it. */
  method IterateEntry(data: seq<byte>, at: nat, ghost e: Entry) returns (catchAll: bool, pairs: seq<Pair>)
    requires e.Valid() && Holds(data, at, EntryBytes(e))
    ensures catchAll == e.catchAll.Some? && pairs == PairsOf(e)
  {
    hide Holds, Pairs, Typed, Unsigned, EntryBytes, TypeOrNull;
    EntryParts(data, at, e);
    var size: int, next: nat;
    size, next := DecodeSigned(data, at, e.size);
    ghost var base := next;
    assert |Pairs(e.pairs, 0)| == 0 && Typed(e.pairs, 0) == [] by { NoPairs(e.pairs); }
    var it := if size <= 0 then Iterator(next, -size, true, 0, 0) else Iterator(next, size, false, 0, 0);
    it := Next(data, it, e, base, 0);
    catchAll, pairs := false, [];
    while it.HasNext()
      invariant |pairs| <= |PairsOf(e)| && Shows(e, base, it, |pairs|)
      invariant pairs == PairsOf(e)[..|pairs|]
      invariant catchAll <==> |pairs| > |e.pairs|
      decreases |PairsOf(e)| - |pairs|
    {
      var k := |pairs|;
      Element(e, k);
      var type_ := TypeOrNull(it.type_);
      catchAll := catchAll || type_.None?;
      pairs := pairs + [Pair(type_, it.addr)];
      it := Next(data, it, e, base, k + 1);
    }
  }

  lemma NoPairs(ps: seq<EncPair>)
    ensures |Pairs(ps, 0)| == 0 && Typed(ps, 0) == []
  {
  }

  // Element `k` of an entry.
  lemma Element(e: Entry, k: nat)
    requires e.Valid() && k < |PairsOf(e)|
    ensures k < |e.pairs| ==> PairsOf(e)[k] == Pair(TypeOrNull(Unsigned(e.pairs[k].type_)), Unsigned(e.pairs[k].addr))
    ensures k < |e.pairs| ==> TypeOrNull(Unsigned(e.pairs[k].type_)).Some?
    ensures k >= |e.pairs| ==>
      k == |e.pairs| && e.catchAll.Some? && PairsOf(e)[k] == Pair(None, Unsigned(e.catchAll.value))
    ensures TypeOrNull(0xffff) == None
  {
    assert TypeOrNull(0xffff) == None;
    hide Unsigned, Typed, TypeOrNull;
    if k < |e.pairs| {
      TypedAt(e.pairs, k, |e.pairs|);
      TypeIsKept(Unsigned(e.pairs[k].type_));
    }
  }

  lemma {:induction false} TypedAt(ps: seq<EncPair>, k: nat, n: nat)
    requires k < n <= |ps|
    ensures Typed(ps, n)[k] == Pair(Some(Unsigned(ps[k].type_)), Unsigned(ps[k].addr))
    decreases n
  {
    hide Unsigned;
    if k < n - 1 { TypedAt(ps, k, n - 1); }
  }

  // ---------- the list of handlers ----------

  lemma {:induction false} EntryHeld(data: seq<byte>, at: nat, l: List, i: nat, n: nat)
    requires i < n <= |l.entries| && Holds(data, at, l.Entries(n))
    ensures Holds(data, at + |l.Entries(i)|, EntryBytes(l.entries[i]))
    ensures |l.Entries(i + 1)| == |l.Entries(i)| + |EntryBytes(l.entries[i])|
    decreases n
  {
    hide Holds, EntryBytes;
    HoldsTwo(data, at, l.Entries(n - 1), EntryBytes(l.entries[n - 1]));
    if i < n - 1 { EntryHeld(data, at, l, i, n - 1); }
  }

  lemma ListHeld(data: seq<byte>, base: nat, l: List, i: nat)
    requires i < |l.entries| && Holds(data, base, l.Bytes())
    ensures Holds(data, base, l.size) && Holds(data, base + l.Offset(i), EntryBytes(l.entries[i]))
    ensures l.Offset(i + 1) == l.Offset(i) + |EntryBytes(l.entries[i])|
  {
    hide Holds, EntryBytes, l.Entries;
    HoldsTwo(data, base, l.size, l.Entries(|l.entries|));
    EntryHeld(data, base + |l.size|, l, i, |l.entries|);
  }

  // `index[j]` is the entry that handler `j` was made from.
  ghost predicate Built(l: List, handlers: seq<Handler>, index: seq<nat>) {
    && |handlers| == |index|
    && (forall j :: 0 <= j < |index| ==> index[j] < |l.entries| && handlers[j] == HandlerOf(l, index[j]))
    && (forall i, j :: 0 <= i < j < |index| ==> index[i] != index[j])
  }

  lemma BuiltMore(l: List, handlers: seq<Handler>, index: seq<nat>, i: nat)
    requires Built(l, handlers, index) && i < |l.entries| && i !in index
    ensures Built(l, handlers + [HandlerOf(l, i)], index + [i])
  {
    hide HandlerOf;
  }

  // Looks for a handler by its offset.
  method FindHandler(handlers: seq<Handler>, offset: nat, ghost l: List, ghost index: seq<nat>, ghost i: nat)
    returns (found: Option<nat>)
    requires Built(l, handlers, index) && i < |l.entries| && offset == l.Offset(i)
    ensures found.Some? <==> i in index
    ensures found.Some? ==> found.value < |handlers| && index[found.value] == i
  {
    hide PairsOf;
    for j := 0 to |handlers|
      invariant i !in index[..j]
    {
      OffsetsDiffer(l, i, index[j]);
      if handlers[j].offset == offset {
        return Some(j);
      }
    }
    assert index[..|handlers|] == index;
    return None;
  }

  lemma {:induction false} DistinctCount(index: seq<nat>, n: nat)
    requires forall j :: 0 <= j < |index| ==> index[j] < n
    requires forall i, j :: 0 <= i < j < |index| ==> index[i] != index[j]
    ensures |index| <= n
    ensures (forall i :: 0 <= i < n ==> i in index) ==> |index| == n
    decreases n
  {
    if index == [] {
      assert 0 !in index;
    } else {
      assert index[0] < n;
      if j :| 0 <= j < |index| && index[j] == n - 1 {
        var rest := index[..j] + index[j + 1..];
        assert forall i :: i in rest <==> i in index && i != n - 1;
        DistinctCount(rest, n - 1);
      } else {
        assert n - 1 !in index;
        DistinctCount(index, n - 1);
      }
    }
  }

  /** What the two phases produce: one handler per entry, and for every try item the one it names. */
  ghost predicate Complete(l: List, handlers: seq<Handler>, tries: seq<nat>, chosen: seq<nat>) {
    && |handlers| == |l.entries| && |chosen| == |tries|
    && (forall i :: 0 <= i < |l.entries| ==> HandlerOf(l, i) in handlers)
    && (forall h :: h in handlers ==> exists i :: 0 <= i < |l.entries| && h == HandlerOf(l, i))
    && (forall i, j :: 0 <= i < j < |handlers| ==> handlers[i].offset != handlers[j].offset)
    && (forall t :: 0 <= t < |tries| ==> chosen[t] < |handlers| && handlers[chosen[t]].offset == tries[t])
    && (forall t, u :: 0 <= t < |tries| && 0 <= u < |tries| ==> (chosen[t] == chosen[u] <==> tries[t] == tries[u]))
  }

  // The try items handled so far have their handlers.
  ghost predicate Chosen(l: List, index: seq<nat>, tries: seq<nat>, chosen: seq<nat>, n: nat) {
    && n <= |tries| && |chosen| == n
    && (forall t :: 0 <= t < n ==>
          chosen[t] < |index| && index[chosen[t]] < |l.entries| && l.Offset(index[chosen[t]]) == tries[t])
  }

  // Every try item names an entry.
  ghost predicate Named(l: List, tries: seq<nat>) {
    forall t :: 0 <= t < |tries| ==> exists i :: 0 <= i < |l.entries| && l.Offset(i) == tries[t]
  }

  lemma AllThere(l: List, handlers: seq<Handler>, index: seq<nat>, tries: seq<nat>, chosen: seq<nat>)
    requires l.Valid() && Built(l, handlers, index) && |handlers| == |l.entries|
    requires Chosen(l, index, tries, chosen, |tries|)
    ensures Complete(l, handlers, tries, chosen)
  {
    hide PairsOf;
    forall i, j | 0 <= i < j < |handlers|
      ensures handlers[i].offset != handlers[j].offset
    {
      OffsetsDiffer(l, index[i], index[j]);
    }
    forall i | 0 <= i < |l.entries|
      ensures HandlerOf(l, i) in handlers
    {
      var j := Occurs(index, |l.entries|, i);
      assert handlers[j] == HandlerOf(l, i);
    }
    forall t, u | 0 <= t < |tries| && 0 <= u < |tries|
      ensures chosen[t] == chosen[u] <==> tries[t] == tries[u]
    {
      OffsetsDiffer(l, index[chosen[t]], index[chosen[u]]);
    }
  }

  // As many different indexes as there are entries include every one.
  lemma {:induction false} Occurs(index: seq<nat>, n: nat, i: nat) returns (j: nat)
    requires |index| == n && i < n && forall j :: 0 <= j < |index| ==> index[j] < n
    requires forall i, j :: 0 <= i < j < |index| ==> index[i] != index[j]
    ensures j < |index| && index[j] == i
    decreases n
  {
    if i !in index {
      Skipping(index, n, i);
      assert false;
    } else {
      j :| 0 <= j < |index| && index[j] == i;
    }
  }

  lemma {:induction false} Skipping(index: seq<nat>, n: nat, i: nat)
    requires i < n && (forall j :: 0 <= j < |index| ==> index[j] < n) && i !in index
    requires forall i, j :: 0 <= i < j < |index| ==> index[i] != index[j]
    ensures |index| < n
  {
    var more := index + [i];
    assert forall j :: 0 <= j < |more| ==> more[j] < n;
    assert forall a, b :: 0 <= a < b < |more| ==> more[a] != more[b];
    DistinctCount(more, n);
  }

  /** Phase one: the handlers that try items name, each decoded once. */
  method FromTries(data: seq<byte>, base: nat, tries: seq<nat>, ghost l: List)
    returns (handlers: seq<Handler>, chosen: seq<nat>, ghost index: seq<nat>)
    requires l.Valid() && Holds(data, base, l.Bytes()) && Named(l, tries)
    ensures Built(l, handlers, index) && Chosen(l, index, tries, chosen, |tries|)
  {
    hide PairsOf, Holds, EntryBytes, l.Entries, l.Bytes, l.Offset;
    handlers, chosen, index := [], [], [];
    for t := 0 to |tries|
      invariant Built(l, handlers, index) && Chosen(l, index, tries, chosen, t)
    {
      ghost var i :| 0 <= i < |l.entries| && l.Offset(i) == tries[t];
      var found := FindHandler(handlers, tries[t], l, index, i);
      if found.None? {
        ListHeld(data, base, l, i);
        var catchAll, pairs := IterateEntry(data, base + tries[t], l.entries[i]);
        BuiltMore(l, handlers, index, i);
        found := Some(|handlers|);
        handlers := handlers + [Handler(catchAll, tries[t], pairs)];
        index := index + [i];
      }
      chosen := chosen + [found.value];
    }
  }

  // The first `k` entries have handlers.
  ghost predicate Reached(index: seq<nat>, k: nat) {
    forall i :: 0 <= i < k ==> i in index
  }

  lemma ReachedMore(index: seq<nat>, more: seq<nat>, k: nat)
    requires Reached(index, k) && index <= more && k in more
    ensures Reached(more, k + 1)
  {
    forall i | 0 <= i < k
      ensures i in more
    {
      assert i in index;
      var j :| 0 <= j < |index| && index[j] == i;
      assert more[j] == i;
    }
  }

  lemma ReachedNothing(index: seq<nat>)
    ensures Reached(index, 0)
  {
  }

  // One entry of the walk: it is decoded in any case and added unless it is there already.
  method AddEntry(data: seq<byte>, base: nat, at: nat, handlers0: seq<Handler>, ghost l: List, ghost index0: seq<nat>,
                  ghost k: nat)
    returns (handlers: seq<Handler>, ghost index: seq<nat>, next: nat)
    requires l.Valid() && Holds(data, base, l.Bytes()) && Built(l, handlers0, index0)
    requires k < |l.entries| && at == base + l.Offset(k)
    ensures Built(l, handlers, index) && index0 <= index && k in index && next == base + l.Offset(k + 1)
  {
    hide PairsOf, Holds, EntryBytes, l.Entries, l.Bytes, l.Offset, l.Valid, Built;
    ListHeld(data, base, l, k);
    OffsetFits(l, k);
    EntryIsValid(l, k);
    var offset := (at - base) % 65536;
    var found := FindHandler(handlers0, offset, l, index0, k);
    var catchAll, pairs;
    catchAll, pairs, next := ReadEntry(data, at, l.entries[k]);
    handlers, index := handlers0, index0;
    if found.None? {
      BuiltMore(l, handlers, index, k);
      handlers := handlers + [Handler(catchAll, offset, pairs)];
      index := index + [k];
    }
  }

  lemma EntryIsValid(l: List, k: nat)
    requires l.Valid() && k < |l.entries|
    ensures l.entries[k].Valid()
  {
  }

  /** Phase two: walks the whole list until every entry has a handler. */
  method AddMissing(data: seq<byte>, base: nat, handlers0: seq<Handler>, ghost l: List, ghost index0: seq<nat>)
    returns (handlers: seq<Handler>, ghost index: seq<nat>)
    requires l.Valid() && Holds(data, base, l.Bytes()) && Built(l, handlers0, index0)
    ensures Built(l, handlers, index) && |handlers| == |l.entries| && index0 <= index
  {
    handlers, index := handlers0, index0;
    var at: nat, size: nat;
    SizeHeld(data, base, l);
    size, at := DecodeUnsigned(data, base, l.size);
    hide PairsOf, Holds, EntryBytes, l.Entries, l.Bytes, l.Offset, Built, Reached, l.Valid, Unsigned;
    ghost var k := 0;
    ReachedNothing(index);
    AtMost(l, handlers, index, 0);
    while size > |handlers|
      invariant k <= |l.entries| && at == base + l.Offset(k) && index0 <= index
      invariant Built(l, handlers, index) && Reached(index, k)
      invariant |handlers| <= |l.entries| && (k == |l.entries| ==> |handlers| == |l.entries|)
      decreases |l.entries| - k
    {
      ghost var was := index;
      handlers, index, at := AddEntry(data, base, at, handlers, l, index, k);
      ReachedMore(was, index, k);
      k := k + 1;
      AtMost(l, handlers, index, k);
    }
  }

  lemma SizeHeld(data: seq<byte>, base: nat, l: List)
    requires Holds(data, base, l.Bytes())
    ensures Holds(data, base, l.size) && l.Offset(0) == |l.size|
  {
    HoldsTwo(data, base, l.size, l.Entries(|l.entries|));
  }

  lemma OffsetFits(l: List, k: nat)
    requires l.Valid() && k < |l.entries|
    ensures l.Offset(k) < 65536
  {
    OffsetsGrow(l, k, |l.entries|);
  }

  lemma AtMost(l: List, handlers: seq<Handler>, index: seq<nat>, k: nat)
    requires Built(l, handlers, index) && k <= |l.entries| && Reached(index, k)
    ensures |handlers| <= |l.entries| && (k == |l.entries| ==> |handlers| == |l.entries|)
  {
    hide HandlerOf;
    DistinctCount(index, |l.entries|);
  }

  /** The whole reconstruction; code without try items has no handlers, whatever follows it. */
  method CreateHandlers(data: seq<byte>, base: nat, tries: seq<nat>, ghost l: List)
    returns (handlers: seq<Handler>, chosen: seq<nat>)
    requires tries != [] ==> l.Valid() && Holds(data, base, l.Bytes()) && Named(l, tries)
    ensures if tries == [] then handlers == [] && chosen == [] else Complete(l, handlers, tries, chosen)
  {
    hide Complete, Built, Holds, l.Bytes;
    if tries == [] {
      return [], [];
    }
    ghost var index;
    handlers, chosen, index := FromTries(data, base, tries, l);
    ghost var first := index;
    handlers, index := AddMissing(data, base, handlers, l, index);
    assert Chosen(l, index, tries, chosen, |tries|) by { ChosenStays(l, first, index, tries, chosen); }
    AllThere(l, handlers, index, tries, chosen);
  }

  lemma ChosenStays(l: List, index: seq<nat>, more: seq<nat>, tries: seq<nat>, chosen: seq<nat>)
    requires Chosen(l, index, tries, chosen, |tries|) && index <= more
    ensures Chosen(l, more, tries, chosen, |tries|)
  {
    hide l.Offset;
  }
}
