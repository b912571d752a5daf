/**
 Where objects and native data go in an image. Every object gets a bin and an index in it, packed
 into its lock word; once all bin sizes are known the lock words become image offsets.
 */
module ImageBins {
  import opened Align
  import opened OatLayout

  // ---------- lock words ----------

  datatype LockState = Unlocked | ThinLocked | FatLocked | HashCode | Forwarding

  const MAX_HASH: int := 0x0fff_ffff
  const DEFAULT_LOCK: word := 0

  // The state is in the two highest bits; the two bits of the garbage collector below do not count.
  function StateOf(w: word): LockState {
    if w < 0x4000_0000 && w % 0x1000_0000 == 0 then Unlocked else
    match w / 0x4000_0000
    case 0 => ThinLocked
    case 1 => FatLocked
    case 2 => HashCode
    case _ => Forwarding
  }

  function FromThinLockId(owner: nat, count: nat, gcState: nat): word
    requires owner < 0x1_0000 && count < 0x1000 && gcState < 4
  {
    owner + count * 0x1_0000 + gcState * 0x1000_0000
  }

  /** A lock of no owner and no count is none. */
  lemma ThinLockState(owner: nat, count: nat, gcState: nat)
    requires owner < 0x1_0000 && count < 0x1000 && gcState < 4
    ensures StateOf(FromThinLockId(owner, count, gcState)) == if owner == count == 0 then Unlocked else ThinLocked
  {
    assert FromThinLockId(owner, count, gcState) % 0x1000_0000 == owner + count * 0x1_0000;
  }

  // Objects are 8-byte aligned, so three bits are free for the state.
  function FromForwardingAddress(target: nat): word
    requires target < 0x1_0000_0000
  {
    target / 8 + 3 * 0x4000_0000
  }

  function ForwardingAddress(w: word): nat { w * 8 % 0x1_0000_0000 }

  function FromHashCode(hash: nat): word
    requires hash <= MAX_HASH
  {
    hash + 2 * 0x4000_0000
  }

  function GetHashCode(w: word): nat { w % 0x1000_0000 }

  predicate IsMarked(w: word) { w / 0x2000_0000 % 2 == 1 }

  function SetMarkBit(w: word): word { if IsMarked(w) then w else w + 0x2000_0000 }

  lemma ForwardingRoundTrip(target: nat)
    requires target < 0x1_0000_0000 && target % 8 == 0
    ensures StateOf(FromForwardingAddress(target)) == Forwarding
    ensures ForwardingAddress(FromForwardingAddress(target)) == target
  {
    assert FromForwardingAddress(target) * 8 == target + 6 * 0x1_0000_0000;
  }

  lemma HashRoundTrip(hash: nat)
    requires hash <= MAX_HASH
    ensures StateOf(FromHashCode(hash)) == HashCode && GetHashCode(FromHashCode(hash)) == hash
    ensures !IsMarked(FromHashCode(hash))
  {
    assert FromHashCode(hash) == hash + 8 * 0x1000_0000;
  }

  /** Marking changes neither the state nor the hash code of a word. */
  lemma MarkKeeps(w: word)
    ensures IsMarked(SetMarkBit(w)) && StateOf(SetMarkBit(w)) == StateOf(w)
    ensures GetHashCode(SetMarkBit(w)) == GetHashCode(w)
  {
  }

  // ---------- bins ----------

  const BIN_COUNT: nat := 14
  const MIRROR_BINS: nat := 7
  const ART_FIELD: nat := 7
  const METHOD_CLEAN: nat := 8
  const METHOD_DIRTY: nat := 9
  const IM_TABLE: nat := 10
  const CONFLICT_TABLE: nat := 11
  const RUNTIME_METHOD: nat := 12
  const DEX_CACHE_ARRAY: nat := 13

  const BIN_LIMIT: nat := 0x800_0000

  function Or(a: nat, b: nat): nat {
    if a == 0 then b else (if a % 2 == 1 || b % 2 == 1 then 1 else 0) + 2 * Or(a / 2, b / 2)
  }

  // A bin slot: three bits of bin above 27 bits of index. An index that needs more bits spills into the bin.
  function Pack(bin: nat, index: nat): nat {
    var i := index % 0x1_0000_0000;
    i % 0x800_0000 + Or(bin, i / 0x800_0000) * 0x800_0000
  }

  function BinOf(slot: nat): nat { slot / 0x800_0000 % 8 }
  function IndexOf(slot: nat): nat { slot % 0x800_0000 }

  function Bit(v: nat, k: nat): bool { ShiftRight(v, k) % 2 == 1 }

  lemma OrStep(a: nat, b: nat)
    ensures Or(a, b) / 2 == Or(a / 2, b / 2) && (Or(a, b) % 2 == 1 <==> a % 2 == 1 || b % 2 == 1)
  {
  }

  lemma {:induction false} OrIsBitwise(a: nat, b: nat, k: nat)
    ensures Bit(Or(a, b), k) <==> Bit(a, k) || Bit(b, k)
    decreases k
  {
    OrStep(a, b);
    hide Or;
    if k > 0 { OrIsBitwise(a / 2, b / 2, k - 1); }
  }

  /** An index that is too long sets bits of the bin. */
  lemma IndexSpills(bin: nat, index: nat, k: nat)
    requires bin < MIRROR_BINS && k < 3
    ensures BinOf(Pack(bin, index)) < 8
    ensures Bit(BinOf(Pack(bin, index)), k) <==> Bit(bin, k) || Bit(index % 0x1_0000_0000 / BIN_LIMIT, k)
  {
    var low, high := index % 0x1_0000_0000 % BIN_LIMIT, Or(bin, index % 0x1_0000_0000 / BIN_LIMIT);
    OrIsBitwise(bin, index % 0x1_0000_0000 / BIN_LIMIT, k);
    hide Or;
    assert Pack(bin, index) / BIN_LIMIT == high;
    LowBits(high, k);
  }

  lemma LowBits(v: nat, k: nat)
    requires k < 3
    ensures Bit(v % 8, k) <==> Bit(v, k)
  {
    FirstBits(v);
    FirstBits(v % 8);
    hide ShiftRight;
    Eighths(v / 8, v % 8);
    assert v == 8 * (v / 8) + v % 8;
  }

  lemma Eighths(q: nat, r: nat)
    requires r < 8
    ensures (8 * q + r) % 2 == r % 2 && (8 * q + r) / 2 % 2 == r / 2 % 2 && (8 * q + r) / 4 % 2 == r / 4 % 2
  {
    assert (8 * q + r) / 2 == 4 * q + r / 2 && (8 * q + r) / 4 == 2 * q + r / 4;
  }

  lemma FirstBits(v: nat)
    ensures ShiftRight(v, 0) == v && ShiftRight(v, 1) == v / 2 && ShiftRight(v, 2) == v / 4
  {
    assert ShiftRight(v, 1) == ShiftRight(v / 2, 0);
    assert ShiftRight(v, 2) == ShiftRight(v / 2, 1) == ShiftRight(v / 2 / 2, 0);
  }

  lemma {:induction false} OrZero(a: nat)
    ensures Or(a, 0) == a
  {
    if a > 0 { OrZero(a / 2); }
  }

  lemma {:induction false} OrBound(a: nat, b: nat, k: nat)
    requires a < Pow2(k) && b < Pow2(k)
    ensures Or(a, b) < Pow2(k)
    decreases k
  {
    if a > 0 {
      var half: int := Pow2(k - 1);
      assert Pow2(k) == 2 * half;
      OrBound(a / 2, b / 2, k - 1);
    }
  }

  lemma PackFits(bin: nat, index: nat)
    requires bin < MIRROR_BINS
    ensures Pack(bin, index) < 0x1_0000_0000
  {
    assert Pow2(5) == 32;
    hide Or, Pow2;
    OrBound(bin, index % 0x1_0000_0000 / 0x800_0000, 5);
  }

  lemma PackSmall(bin: nat, index: nat)
    requires bin < MIRROR_BINS && index < BIN_LIMIT
    ensures Pack(bin, index) == index + bin * 0x800_0000
  {
    hide Or;
    OrZero(bin);
  }

  lemma SlotSurvives(bin: nat, index: nat)
    requires bin < MIRROR_BINS && index < BIN_LIMIT && index % 8 == 0
    ensures var slot := index + bin * 0x800_0000;
      && slot < 0x1_0000_0000 && StateOf(FromForwardingAddress(slot)) == Forwarding
      && BinOf(ForwardingAddress(FromForwardingAddress(slot))) == bin
      && IndexOf(ForwardingAddress(FromForwardingAddress(slot))) == index
  {
    var slot := index + bin * 0x800_0000;
    assert slot % 8 == 0;
    ForwardingRoundTrip(slot);
    assert slot / 0x800_0000 == bin;
  }

  /** Bin and index survive being stored in a lock word exactly when the index fits its 27 bits. */
  lemma SlotRoundTrip(bin: nat, index: nat)
    requires bin < MIRROR_BINS && index % 8 == 0
    ensures Pack(bin, index) < 0x1_0000_0000
    ensures var slot := ForwardingAddress(FromForwardingAddress(Pack(bin, index)));
      BinOf(slot) == bin && IndexOf(slot) == index <==> index < BIN_LIMIT
  {
    hide Pack, BinOf, FromForwardingAddress, ForwardingAddress, StateOf;
    PackFits(bin, index);
    if index < BIN_LIMIT {
      PackSmall(bin, index);
      SlotSurvives(bin, index);
    }
  }

  // ---------- native data ----------

  datatype Part = StaticFields | InstanceFields | Methods

  // Arrays belong to one class; tables and runtime methods may be shared.
  datatype NativeId =
    | ArrayOf(owner: nat, part: Part)
    | ElementOf(owner: nat, part: Part, k: nat)
    | ImTableId(n: nat)
    | ConflictTableId(n: nat)
    | RuntimeMethodId(n: nat)
    | DexCacheArraysId(n: nat)

  datatype NativeType =
    | FieldArray
    | Field
    | MethodArray(dirty: bool)
    | Method(dirty: bool)
    | ImTable
    | ConflictTable(entries: nat)
    | RuntimeMethod
    | DexCacheArrays(size: nat)

  function BinTypeForNative(ty: NativeType): (bin: nat)
    ensures MIRROR_BINS <= bin < BIN_COUNT
  {
    match ty
    case FieldArray => ART_FIELD
    case Field => ART_FIELD
    case MethodArray(dirty) => if dirty then METHOD_DIRTY else METHOD_CLEAN
    case Method(dirty) => if dirty then METHOD_DIRTY else METHOD_CLEAN
    case ImTable => IM_TABLE
    case ConflictTable(_) => CONFLICT_TABLE
    case RuntimeMethod => RUNTIME_METHOD
    case DexCacheArrays(_) => DEX_CACHE_ARRAY
  }

  const IMT_SIZE: nat := 43

  // Twenty bytes of fields, padded to a pointer, and three pointers.
  function MethodSize(pointerSize: pos): pos { RoundUp(20, pointerSize) + 3 * pointerSize }

  // The header of an array is its length, padded to the alignment of the elements.
  function NativeSize(pointerSize: pos, ty: NativeType): nat {
    match ty
    case FieldArray => 4
    case Field => 16
    case MethodArray(_) => RoundUp(4, pointerSize)
    case Method(_) => MethodSize(pointerSize)
    case ImTable => IMT_SIZE * pointerSize
    case ConflictTable(entries) => 2 * (entries + 1) * pointerSize
    case RuntimeMethod => MethodSize(pointerSize)
    case DexCacheArrays(size) => size
  }

  function PieceOf(pointerSize: pos, ptr: NativeId, image: nat, ty: NativeType): Event {
    Native(ptr, image, BinTypeForNative(ty), NativeSize(pointerSize, ty))
  }

  // ---------- the history of assignments ----------

  // A managed object, rounded up to the object alignment, or a piece of native data.
  datatype Event =
    | Object(id: nat, image: nat, bin: nat, size: nat)
    | Native(ptr: NativeId, image: nat, bin: nat, size: nat)
  {
    function Delta(): nat { if Object? then RoundUp(size, 8) else size }
    predicate WellFormed() { if Object? then bin < MIRROR_BINS && size > 0 else MIRROR_BINS <= bin < BIN_COUNT }
  }

  /** How full a bin of an image is after the given assignments. */
  function Taken(es: seq<Event>, image: nat, bin: nat): nat {
    if es == [] then 0 else
      var e := es[|es| - 1];
      Taken(es[..|es| - 1], image, bin) + if e.image == image && e.bin == bin then e.Delta() else 0
  }

  /** Where in its bin event `n` was put. */
  function Index(es: seq<Event>, n: nat): nat
    requires n < |es|
  {
    Taken(es[..n], es[n].image, es[n].bin)
  }

  lemma TakenNext(es: seq<Event>, e: Event, image: nat, bin: nat)
    ensures Taken(es + [e], image, bin) == Taken(es, image, bin) + if e.image == image && e.bin == bin then e.Delta()
      else 0
  {
    assert (es + [e])[..|es|] == es;
  }

  lemma {:induction false} TakenGrows(es: seq<Event>, m: nat, n: nat, image: nat, bin: nat)
    requires m <= n <= |es|
    ensures Taken(es[..m], image, bin) <= Taken(es[..n], image, bin)
    decreases n - m
  {
    if m < n {
      TakenGrows(es, m, n - 1, image, bin);
      assert es[..n][..n - 1] == es[..n - 1];
    }
  }

  /** Events in one bin follow each other without overlap and stay inside the bin. */
  lemma BinDisjoint(es: seq<Event>, m: nat, n: nat)
    requires m < n <= |es|
    requires n < |es| ==> es[m].image == es[n].image && es[m].bin == es[n].bin
    ensures Index(es, m) + es[m].Delta() <= Taken(es[..n], es[m].image, es[m].bin)
  {
    assert es[..m + 1][..m] == es[..m];
    TakenGrows(es, m + 1, n, es[m].image, es[m].bin);
  }

  // Equal pieces add up to a multiple of what each is a multiple of.
  lemma {:induction false} TakenMultiple(es: seq<Event>, image: nat, bin: nat, a: pos)
    requires forall e :: e in es && e.bin == bin ==> e.Delta() % a == 0
    ensures Taken(es, image, bin) % a == 0
  {
    hide RoundUp;
    if es != [] {
      var front, e := es[..|es| - 1], es[|es| - 1];
      assert e in es && forall f :: f in front ==> f in es;
      TakenMultiple(front, image, bin, a);
      if e.image == image && e.bin == bin {
        AddMultiple(Taken(front, image, bin), e.Delta(), a);
      }
    } else {
      MultipleHasNoRemainder(0, a);
    }
  }

  lemma MirrorAligned(es: seq<Event>, image: nat, bin: nat)
    requires (forall e :: e in es ==> e.WellFormed()) && bin < MIRROR_BINS
    ensures Taken(es, image, bin) % 8 == 0
  {
    TakenMultiple(es, image, bin, 8);
  }

  // ---------- final offsets ----------

  // The image header and the alignments of the target.
  datatype Target = Target(header: nat, pointerSize: pos, dexCacheAlign: pos, internBytes: nat -> nat,
                           classBytes: nat -> nat) {
    predicate Valid() { header % 8 == 0 && header < 0x800_0000 }
  }

  function BinAlign(t: Target, bin: nat): pos {
    if bin == METHOD_CLEAN || bin == METHOD_DIRTY || bin == IM_TABLE || bin == CONFLICT_TABLE then t.pointerSize
    else if bin == DEX_CACHE_ARRAY then t.dexCacheAlign
    else 1
  }

  function BinChunks(t: Target, sizes: seq<nat>): (cs: seq<Chunk>)
    requires |sizes| == BIN_COUNT
    ensures |cs| == BIN_COUNT
  {
    seq(BIN_COUNT, b requires 0 <= b < BIN_COUNT => Chunk(BinAlign(t, b), sizes[b]))
  }

  function Sizes(es: seq<Event>, image: nat): (sizes: seq<nat>)
    ensures |sizes| == BIN_COUNT
  {
    seq<nat>(BIN_COUNT, b requires 0 <= b < BIN_COUNT => Taken(es, image, b))
  }

  function BinOffset(t: Target, sizes: seq<nat>, bin: nat): nat
    requires |sizes| == BIN_COUNT && bin < BIN_COUNT
  {
    Place(BinChunks(t, sizes), t.header, bin)
  }

  /** The image offset of event `n` once all assignments are known. */
  function Offset(t: Target, es: seq<Event>, n: nat): nat
    requires n < |es| && es[n].WellFormed()
  {
    BinOffset(t, Sizes(es, es[n].image), es[n].bin) + Index(es, n)
  }

  function Sum(sizes: seq<nat>, n: nat): nat
    requires n <= |sizes|
  {
    if n == 0 then 0 else Sum(sizes, n - 1) + sizes[n - 1]
  }

  /** The end of the objects: the header plus the sizes of all mirror bins. */
  function ImageEnd(t: Target, es: seq<Event>, image: nat): nat {
    t.header + Sum(Sizes(es, image), MIRROR_BINS)
  }

  lemma {:induction false} MirrorCursor(t: Target, sizes: seq<nat>, b: nat)
    requires |sizes| == BIN_COUNT && b <= MIRROR_BINS
    ensures Cursor(BinChunks(t, sizes), t.header, b) == t.header + Sum(sizes, b)
  {
    if b > 0 { MirrorCursor(t, sizes, b - 1); }
  }

  lemma {:induction false} MirrorSumAligned(es: seq<Event>, image: nat, b: nat)
    requires b <= MIRROR_BINS && forall e :: e in es ==> e.WellFormed()
    ensures Sum(Sizes(es, image), b) % 8 == 0
  {
    if b > 0 {
      MirrorSumAligned(es, image, b - 1);
      var sizes := Sizes(es, image);
      assert sizes[b - 1] == Taken(es, image, b - 1) && Sum(sizes, b) == Sum(sizes, b - 1) + sizes[b - 1];
      hide Taken, Sum, Sizes;
      MirrorAligned(es, image, b - 1);
    }
  }

  lemma MirrorOffsetAligned(t: Target, es: seq<Event>, image: nat, b: nat)
    requires t.Valid() && b < MIRROR_BINS && forall e :: e in es ==> e.WellFormed()
    ensures BinOffset(t, Sizes(es, image), b) % 8 == 0
  {
    hide Taken, Sum, Sizes, Cursor;
    MirrorCursor(t, Sizes(es, image), b);
    MirrorSumAligned(es, image, b);
  }

  // An item lies inside its bin.
  lemma InsideBin(t: Target, es: seq<Event>, n: nat)
    requires n < |es| && es[n].WellFormed()
    ensures Offset(t, es, n) + es[n].Delta() <= BinOffset(t, Sizes(es, es[n].image), es[n].bin) +
      Sizes(es, es[n].image)[es[n].bin]
  {
    assert es[..|es|] == es;
    BinDisjoint(es, n, |es|);
  }

  lemma BinsAscend(t: Target, sizes: seq<nat>, a: nat, b: nat)
    requires |sizes| == BIN_COUNT && a < b < BIN_COUNT
    ensures BinOffset(t, sizes, a) + sizes[a] <= BinOffset(t, sizes, b)
  {
    ItemsDisjoint(BinChunks(t, sizes), t.header, a, b);
  }

  lemma MirrorBinsEnd(t: Target, sizes: seq<nat>, a: nat, b: nat)
    requires |sizes| == BIN_COUNT && a < MIRROR_BINS <= b < BIN_COUNT
    ensures BinOffset(t, sizes, a) + sizes[a] <= t.header + Sum(sizes, MIRROR_BINS) <= BinOffset(t, sizes, b)
  {
    var cs := BinChunks(t, sizes);
    MirrorCursor(t, sizes, MIRROR_BINS);
    CursorGrows(cs, t.header, a + 1, MIRROR_BINS);
    CursorGrows(cs, t.header, MIRROR_BINS, b);
  }

  /** Objects are aligned and end by the image end; native data starts at or after it. */
  lemma ObjectsBeforeNatives(t: Target, es: seq<Event>, n: nat)
    requires t.Valid() && n < |es| && forall e :: e in es ==> e.WellFormed()
    ensures t.header <= Offset(t, es, n)
    ensures es[n].Object? ==>
      Offset(t, es, n) % 8 == 0 && Offset(t, es, n) + es[n].Delta() <= ImageEnd(t, es, es[n].image)
    ensures es[n].Native? ==> ImageEnd(t, es, es[n].image) <= Offset(t, es, n)
  {
    hide BinOffset, Taken, Sizes;
    var e := es[n];
    assert e in es;
    InsideBin(t, es, n);
    AfterHeader(t, Sizes(es, e.image), e.bin);
    if e.Object? {
      MirrorBinsEnd(t, Sizes(es, e.image), e.bin, MIRROR_BINS);
      MirrorOffsetAligned(t, es, e.image, e.bin);
      assert forall f :: f in es[..n] ==> f in es;
      MirrorAligned(es[..n], e.image, e.bin);
      AddMultiple(BinOffset(t, Sizes(es, e.image), e.bin), Index(es, n), 8);
    } else {
      MirrorBinsEnd(t, Sizes(es, e.image), 0, e.bin);
    }
  }

  lemma AfterHeader(t: Target, sizes: seq<nat>, bin: nat)
    requires |sizes| == BIN_COUNT && bin < BIN_COUNT
    ensures t.header <= BinOffset(t, sizes, bin)
  {
  }

  /** No two assignments in one image overlap, whatever their bins. */
  lemma AllDisjoint(t: Target, es: seq<Event>, m: nat, n: nat)
    requires m < n < |es| && es[m].image == es[n].image && es[m].WellFormed() && es[n].WellFormed()
    ensures Offset(t, es, m) + es[m].Delta() <= Offset(t, es, n) || Offset(t, es, n) + es[n].Delta() <= Offset(t, es, m)
  {
    hide Place, BinChunks, Taken, Sizes;
    var sizes := Sizes(es, es[m].image);
    if es[m].bin == es[n].bin {
      BinDisjoint(es, m, n);
    } else if es[m].bin < es[n].bin {
      InsideBin(t, es, m);
      BinsAscend(t, sizes, es[m].bin, es[n].bin);
    } else {
      InsideBin(t, es, n);
      BinsAscend(t, sizes, es[n].bin, es[m].bin);
    }
  }

  // ---------- sections ----------

  datatype Section = Section(offset: nat, size: nat) {
    function End(): nat { offset + size }
  }

  datatype Sections = Sections(
    objects: Section, fields: Section, methods: Section, imTables: Section, conflictTables: Section,
    runtimeMethods: Section, dexCacheArrays: Section, internedStrings: Section, classTable: Section)

  // The serialized tables follow the bins, each 8-byte aligned.
  function CreateImageSections(t: Target, image: nat, end: nat, offsets: seq<nat>, sizes: seq<nat>): Sections
    requires |offsets| == |sizes| == BIN_COUNT
  {
    var arrays := Section(offsets[DEX_CACHE_ARRAY], sizes[DEX_CACHE_ARRAY]);
    var strings := Section(RoundUp(arrays.End(), 8), t.internBytes(image));
    Sections(
      Section(0, end),
      Section(offsets[ART_FIELD], sizes[ART_FIELD]),
      Section(offsets[METHOD_CLEAN], sizes[METHOD_CLEAN] + sizes[METHOD_DIRTY]),
      Section(offsets[IM_TABLE], sizes[IM_TABLE]),
      Section(offsets[CONFLICT_TABLE], sizes[CONFLICT_TABLE]),
      Section(offsets[RUNTIME_METHOD], sizes[RUNTIME_METHOD]),
      arrays,
      strings,
      Section(RoundUp(strings.End(), 8), t.classBytes(image)))
  }

  function BinOffsets(t: Target, sizes: seq<nat>): (offsets: seq<nat>)
    requires |sizes| == BIN_COUNT
    ensures |offsets| == BIN_COUNT
  {
    seq<nat>(BIN_COUNT, b requires 0 <= b < BIN_COUNT => BinOffset(t, sizes, b))
  }

  function ImageSections(t: Target, es: seq<Event>, image: nat): Sections {
    var sizes := Sizes(es, image);
    CreateImageSections(t, image, ImageEnd(t, es, image), BinOffsets(t, sizes), sizes)
  }

  /** Sections follow each other without overlap. */
  lemma SectionsOrdered(t: Target, es: seq<Event>, image: nat)
    ensures var s := ImageSections(t, es, image);
      && s.objects.End() <= s.fields.offset && s.fields.End() <= s.methods.offset
      && s.methods.End() <= s.imTables.offset && s.imTables.End() <= s.conflictTables.offset
      && s.conflictTables.End() <= s.runtimeMethods.offset && s.runtimeMethods.End() <= s.dexCacheArrays.offset
      && s.dexCacheArrays.End() <= s.internedStrings.offset && s.internedStrings.End() <= s.classTable.offset
  {
    hide Place, BinChunks, Taken, Sizes, BinOffset, RoundUp;
    var sizes := Sizes(es, image);
    MirrorBinsEnd(t, sizes, 0, ART_FIELD);
    BinsAscend(t, sizes, ART_FIELD, METHOD_CLEAN);
    BinsAscend(t, sizes, METHOD_CLEAN, METHOD_DIRTY);
    BinsAscend(t, sizes, METHOD_DIRTY, IM_TABLE);
    BinsAscend(t, sizes, IM_TABLE, CONFLICT_TABLE);
    BinsAscend(t, sizes, CONFLICT_TABLE, RUNTIME_METHOD);
    BinsAscend(t, sizes, RUNTIME_METHOD, DEX_CACHE_ARRAY);
  }

  // ---------- native alignment ----------

  // Method and table pieces are whole pointers, field pieces whole words.
  predicate WholePiece(t: Target, e: Event) {
    && (METHOD_CLEAN <= e.bin <= RUNTIME_METHOD ==> e.Delta() % t.pointerSize == 0)
    && (e.bin == ART_FIELD ==> e.Delta() % 4 == 0)
  }

  ghost predicate WholePieces(t: Target, es: seq<Event>) {
    forall e :: e in es ==> WholePiece(t, e)
  }

  lemma MethodSizeWhole(p: pos)
    ensures MethodSize(p) % p == 0
  {
    AddMultiple(RoundUp(20, p), 3 * p, p);
    MultipleHasNoRemainder(3, p);
  }

  /** Every piece of native data that the writer makes is of a whole size. */
  lemma PieceIsWhole(t: Target, ptr: NativeId, image: nat, ty: NativeType)
    ensures PieceOf(t.pointerSize, ptr, image, ty).WellFormed() && WholePiece(t, PieceOf(t.pointerSize, ptr, image, ty))
  {
    hide RoundUp, MethodSize;
    var p := t.pointerSize;
    MethodSizeWhole(p);
    MultipleHasNoRemainder(IMT_SIZE, p);
    if ty.ConflictTable? { MultipleHasNoRemainder(2 * (ty.entries + 1), p); }
  }

  lemma ObjectIsWhole(t: Target, e: Event)
    requires e.Object? && e.WellFormed()
    ensures WholePiece(t, e)
  {
  }

  lemma PointerBin(t: Target, es: seq<Event>, image: nat, bin: nat)
    requires WholePieces(t, es) && METHOD_CLEAN <= bin <= RUNTIME_METHOD
    ensures Taken(es, image, bin) % t.pointerSize == 0
  {
    hide RoundUp;
    assert forall e :: e in es ==> WholePiece(t, e);
    TakenMultiple(es, image, bin, t.pointerSize);
  }

  // The bins of methods and tables start at whole pointers, even that of runtime methods, which is not padded.
  lemma PointerBinStarts(t: Target, sizes: seq<nat>, bin: nat)
    requires |sizes| == BIN_COUNT && METHOD_CLEAN <= bin <= RUNTIME_METHOD && sizes[CONFLICT_TABLE] % t.pointerSize == 0
    ensures BinOffset(t, sizes, bin) % t.pointerSize == 0
  {
    hide Cursor, Place, RoundUp;
    var cs := BinChunks(t, sizes);
    NextCursor(cs, t.header, bin);
    if bin == RUNTIME_METHOD {
      NextCursor(cs, t.header, CONFLICT_TABLE);
      AddMultiple(BinOffset(t, sizes, CONFLICT_TABLE), sizes[CONFLICT_TABLE], t.pointerSize);
    }
  }

  /** The dex cache arrays start where their layout wants them to. */
  lemma CachesAligned(t: Target, es: seq<Event>, image: nat)
    ensures BinOffset(t, Sizes(es, image), DEX_CACHE_ARRAY) % t.dexCacheAlign == 0
  {
    hide Cursor, RoundUp, Sizes;
    NextCursor(BinChunks(t, Sizes(es, image)), t.header, DEX_CACHE_ARRAY);
  }

  /** Every method and every table ends up at a multiple of the target's pointer size. */
  lemma MethodsAligned(t: Target, es: seq<Event>, n: nat)
    requires WholePieces(t, es) && n < |es| && es[n].WellFormed() && METHOD_CLEAN <= es[n].bin <= RUNTIME_METHOD
    ensures Offset(t, es, n) % t.pointerSize == 0
  {
    hide BinOffset, Taken, Sizes;
    var image, sizes := es[n].image, Sizes(es, es[n].image);
    PointerBin(t, es, image, CONFLICT_TABLE);
    assert sizes[CONFLICT_TABLE] == Taken(es, image, CONFLICT_TABLE) by { SizeIs(es, image, CONFLICT_TABLE); }
    PointerBinStarts(t, sizes, es[n].bin);
    assert WholePieces(t, es[..n]) by { assert forall e :: e in es[..n] ==> e in es; }
    PointerBin(t, es[..n], image, es[n].bin);
    AddMultiple(BinOffset(t, sizes, es[n].bin), Index(es, n), t.pointerSize);
  }

  lemma FieldBinStarts(t: Target, es: seq<Event>, image: nat)
    requires t.Valid() && forall e :: e in es ==> e.WellFormed()
    ensures BinOffset(t, Sizes(es, image), ART_FIELD) % 4 == 0
  {
    hide Taken, Sizes, Cursor, Place, RoundUp, Sum;
    var sizes := Sizes(es, image);
    MirrorCursor(t, sizes, MIRROR_BINS);
    NextCursor(BinChunks(t, sizes), t.header, ART_FIELD);
    MirrorSumAligned(es, image, MIRROR_BINS);
    AddMultiple(t.header, Sum(sizes, MIRROR_BINS), 8);
    EightIsFour(t.header + Sum(sizes, MIRROR_BINS));
  }

  lemma FieldBin(t: Target, es: seq<Event>, image: nat)
    requires WholePieces(t, es)
    ensures Taken(es, image, ART_FIELD) % 4 == 0
  {
    hide RoundUp;
    assert forall e :: e in es ==> WholePiece(t, e);
    TakenMultiple(es, image, ART_FIELD, 4);
  }

  /** Every field ends up at a whole word: the objects in front are whole double words. */
  lemma FieldsAligned(t: Target, es: seq<Event>, n: nat)
    requires t.Valid() && WholePieces(t, es) && (forall e :: e in es ==> e.WellFormed()) && n < |es|
    requires es[n].bin == ART_FIELD
    ensures es[n].WellFormed() && Offset(t, es, n) % 4 == 0
  {
    hide Taken, Sizes, BinOffset, WholePiece;
    assert es[n] in es;
    FieldBinStarts(t, es, es[n].image);
    assert WholePieces(t, es[..n]) by { assert forall e :: e in es[..n] ==> e in es; }
    FieldBin(t, es[..n], es[n].image);
    AddMultiple(BinOffset(t, Sizes(es, es[n].image), ART_FIELD), Index(es, n), 4);
  }

  lemma EightIsFour(x: nat)
    requires x % 8 == 0
    ensures x % 4 == 0
  {
  }

  lemma SizeIs(es: seq<Event>, image: nat, bin: nat)
    requires bin < BIN_COUNT
    ensures Sizes(es, image)[bin] == Taken(es, image, bin)
  {
  }

  /**
   The methods section is as long as the clean and the dirty bin together. No padding lies between
   them, so it reaches exactly from the first clean to the last dirty method.
   */
  lemma MethodsSectionCovers(t: Target, es: seq<Event>, image: nat)
    requires WholePieces(t, es)
    ensures var s, sizes := ImageSections(t, es, image), Sizes(es, image);
      && s.methods.offset == BinOffset(t, sizes, METHOD_CLEAN)
      && BinOffset(t, sizes, METHOD_DIRTY) == s.methods.offset + sizes[METHOD_CLEAN]
      && s.methods.End() == BinOffset(t, sizes, METHOD_DIRTY) + sizes[METHOD_DIRTY]
  {
    hide Taken, Sizes, BinOffset;
    var sizes := Sizes(es, image);
    PointerBin(t, es, image, METHOD_CLEAN);
    SizeIs(es, image, METHOD_CLEAN);
    DirtyAfterClean(t, sizes);
    AddMultiple(BinOffset(t, sizes, METHOD_CLEAN), sizes[METHOD_CLEAN], t.pointerSize);
  }

  lemma DirtyAfterClean(t: Target, sizes: seq<nat>)
    requires |sizes| == BIN_COUNT
    ensures BinOffset(t, sizes, METHOD_CLEAN) % t.pointerSize == 0
    ensures BinOffset(t, sizes, METHOD_DIRTY) ==
      RoundUp(BinOffset(t, sizes, METHOD_CLEAN) + sizes[METHOD_CLEAN], t.pointerSize)
  {
    hide Cursor, Place, RoundUp;
    var cs := BinChunks(t, sizes);
    NextCursor(cs, t.header, METHOD_CLEAN);
    NextCursor(cs, t.header, METHOD_DIRTY);
  }

  // ---------- what sections hold ----------

  ghost predicate Inside(s: Section, offset: nat, size: nat) { s.offset <= offset && offset + size <= s.End() }

  ghost predicate Outside(s: Section, offset: nat, size: nat) { offset + size <= s.offset || s.End() <= offset }

  // Section `s` holds event `n`, or nothing of it.
  ghost predicate HoldsExactly(t: Target, es: seq<Event>, n: nat, s: Section, here: bool)
    requires n < |es| && es[n].WellFormed()
  {
    var at, size := Offset(t, es, n), es[n].Delta();
    if here then Inside(s, at, size) else Outside(s, at, size)
  }

  // A section that spans whole bins holds what is in them and nothing else.
  lemma SpanHolds(t: Target, es: seq<Event>, n: nat, lo: nat, hi: nat, s: Section)
    requires n < |es| && es[n].WellFormed() && lo <= hi < BIN_COUNT
    requires var sizes := Sizes(es, es[n].image);
      s.offset == BinOffset(t, sizes, lo) && s.End() == BinOffset(t, sizes, hi) + sizes[hi]
    ensures HoldsExactly(t, es, n, s, lo <= es[n].bin <= hi)
  {
    hide BinOffset, Taken, Sizes;
    var sizes, bin := Sizes(es, es[n].image), es[n].bin;
    InsideBin(t, es, n);
    if bin < lo { BinsAscend(t, sizes, bin, lo); }
    if lo < bin { BinsAscend(t, sizes, lo, bin); }
    if bin < hi { BinsAscend(t, sizes, bin, hi); }
    if hi < bin { BinsAscend(t, sizes, hi, bin); }
  }

  // Bin sections are whole bins; the serialized tables behind them are aligned and as long as the tables.
  lemma SectionSpans(t: Target, es: seq<Event>, image: nat)
    requires WholePieces(t, es)
    ensures var s, sizes := ImageSections(t, es, image), Sizes(es, image);
      && s.objects.offset == 0 && s.objects.End() == ImageEnd(t, es, image)
      && s.fields.offset == BinOffset(t, sizes, 7) && s.fields.size == sizes[7]
      && s.methods.offset == BinOffset(t, sizes, 8) && s.methods.End() == BinOffset(t, sizes, 9) + sizes[9]
      && s.imTables.offset == BinOffset(t, sizes, 10) && s.imTables.size == sizes[10]
      && s.conflictTables.offset == BinOffset(t, sizes, 11) && s.conflictTables.size == sizes[11]
      && s.runtimeMethods.offset == BinOffset(t, sizes, 12) && s.runtimeMethods.size == sizes[12]
      && s.dexCacheArrays.offset == BinOffset(t, sizes, 13) && s.dexCacheArrays.size == sizes[13]
      && s.internedStrings.offset % 8 == 0 && s.internedStrings.size == t.internBytes(image)
      && s.classTable.offset % 8 == 0 && s.classTable.size == t.classBytes(image)
  {
    hide Taken, Sizes, BinOffset, RoundUp;
    MethodsSectionCovers(t, es, image);
  }

  /**
   Every section holds exactly what is of its kind: objects, fields, methods, interface method tables,
   conflict tables, runtime methods and dex cache arrays.
   */
  lemma SectionsHold(t: Target, es: seq<Event>, n: nat)
    requires t.Valid() && WholePieces(t, es) && (forall e :: e in es ==> e.WellFormed()) && n < |es|
    ensures es[n].WellFormed()
    ensures var s, bin := ImageSections(t, es, es[n].image), es[n].bin;
      && HoldsExactly(t, es, n, s.objects, es[n].Object?)
      && HoldsExactly(t, es, n, s.fields, bin == ART_FIELD)
      && HoldsExactly(t, es, n, s.methods, bin == METHOD_CLEAN || bin == METHOD_DIRTY)
      && HoldsExactly(t, es, n, s.imTables, bin == IM_TABLE)
      && HoldsExactly(t, es, n, s.conflictTables, bin == CONFLICT_TABLE)
      && HoldsExactly(t, es, n, s.runtimeMethods, bin == RUNTIME_METHOD)
      && HoldsExactly(t, es, n, s.dexCacheArrays, bin == DEX_CACHE_ARRAY)
  {
    hide Taken, Sizes, BinOffset, Offset, ImageSections, WholePieces, ImageEnd;
    assert es[n] in es;
    var s := ImageSections(t, es, es[n].image);
    SectionSpans(t, es, es[n].image);
    ObjectsBeforeNatives(t, es, n);
    SpanHolds(t, es, n, 7, 7, s.fields);
    SpanHolds(t, es, n, 8, 9, s.methods);
    SpanHolds(t, es, n, 10, 10, s.imTables);
    SpanHolds(t, es, n, 11, 11, s.conflictTables);
    SpanHolds(t, es, n, 12, 12, s.runtimeMethods);
    SpanHolds(t, es, n, 13, 13, s.dexCacheArrays);
  }

  /** Each type of native data is in the section of that type. */
  lemma PieceInSection(t: Target, es: seq<Event>, n: nat, ptr: NativeId, image: nat, ty: NativeType)
    requires t.Valid() && WholePieces(t, es) && (forall e :: e in es ==> e.WellFormed()) && n < |es|
    requires es[n] == PieceOf(t.pointerSize, ptr, image, ty)
    ensures es[n].WellFormed()
    ensures var s := ImageSections(t, es, image);
      && HoldsExactly(t, es, n, s.objects, false)
      && HoldsExactly(t, es, n, s.fields, ty.FieldArray? || ty.Field?)
      && HoldsExactly(t, es, n, s.methods, ty.MethodArray? || ty.Method?)
      && HoldsExactly(t, es, n, s.imTables, ty.ImTable?)
      && HoldsExactly(t, es, n, s.conflictTables, ty.ConflictTable?)
      && HoldsExactly(t, es, n, s.runtimeMethods, ty.RuntimeMethod?)
      && HoldsExactly(t, es, n, s.dexCacheArrays, ty.DexCacheArrays?)
  {
    hide HoldsExactly, ImageSections, WholePieces;
    SectionsHold(t, es, n);
  }

  predicate IsMethod(ty: NativeType, dirty: bool) { (ty.MethodArray? || ty.Method?) && ty.dirty == dirty }

  /** Within the methods section clean methods come first, so that dirty pages are few. */
  lemma CleanBeforeDirty(t: Target, es: seq<Event>, m: nat, n: nat, p: NativeId, q: NativeId, image: nat,
                         clean: NativeType,
                         dirty: NativeType)
    requires m < |es| && n < |es| && IsMethod(clean, false) && IsMethod(dirty, true)
    requires es[m] == PieceOf(t.pointerSize, p, image, clean) && es[n] == PieceOf(t.pointerSize, q, image, dirty)
    ensures es[m].WellFormed() && es[n].WellFormed() && Offset(t, es, m) + es[m].Delta() <= Offset(t, es, n)
  {
    hide BinOffset, Taken, Sizes, NativeSize;
    InsideBin(t, es, m);
    BinsAscend(t, Sizes(es, image), es[m].bin, es[n].bin);
  }

  // ---------- several images ----------

  function ImageSize(t: Target, es: seq<Event>, image: nat): nat {
    RoundUp(ImageSections(t, es, image).classTable.End(), PAGE_SIZE)
  }

  /** Images follow each other in the address space without gaps. */
  function ImageStart(t: Target, es: seq<Event>, image: nat): nat {
    if image == 0 then 0 else ImageStart(t, es, image - 1) + ImageSize(t, es, image - 1)
  }

  function Address(base: nat, t: Target, es: seq<Event>, n: nat): nat
    requires n < |es| && es[n].WellFormed()
  {
    base + ImageStart(t, es, es[n].image) + Offset(t, es, n)
  }

  lemma InsideImage(t: Target, es: seq<Event>, n: nat)
    requires n < |es| && es[n].WellFormed()
    ensures Offset(t, es, n) + es[n].Delta() <= ImageSize(t, es, es[n].image)
  {
    hide Place, BinChunks, Taken, Sizes, RoundUp, BinOffset;
    var image, bin := es[n].image, es[n].bin;
    InsideBin(t, es, n);
    if bin < DEX_CACHE_ARRAY {
      BinsAscend(t, Sizes(es, image), bin, DEX_CACHE_ARRAY);
    }
  }

  lemma {:induction false} ImagesAscend(t: Target, es: seq<Event>, a: nat, b: nat)
    requires a < b
    ensures ImageStart(t, es, a) + ImageSize(t, es, a) <= ImageStart(t, es, b)
    decreases b
  {
    hide ImageSize;
    if a < b - 1 { ImagesAscend(t, es, a, b - 1); }
  }

  /** Over all images: different objects and native pieces never share an address. */
  lemma AddressesDisjoint(base: nat, t: Target, es: seq<Event>, m: nat, n: nat)
    requires m < n < |es| && es[m].WellFormed() && es[n].WellFormed()
    ensures Address(base, t, es, m) + es[m].Delta() <= Address(base, t, es, n)
         || Address(base, t, es, n) + es[n].Delta() <= Address(base, t, es, m)
  {
    hide Offset, ImageSize, ImageStart;
    InsideImage(t, es, m);
    InsideImage(t, es, n);
    if es[m].image == es[n].image {
      AllDisjoint(t, es, m, n);
    } else if es[m].image < es[n].image {
      ImagesAscend(t, es, es[m].image, es[n].image);
    } else {
      ImagesAscend(t, es, es[n].image, es[m].image);
    }
  }

  // ---------- the image writer's state ----------

  datatype ImageInfo = ImageInfo(sizes: seq<nat>, offsets: seq<nat>, end: nat, begin: nat)

  datatype Relocation = Relocation(image: nat, offset: nat, bin: nat)

  // Sizes and ends follow the assignments made so far.
  ghost predicate InfosOk(t: Target, es: seq<Event>, infos: seq<ImageInfo>) {
    forall i :: 0 <= i < |infos| ==> infos[i].sizes == Sizes(es, i) && infos[i].end == ImageEnd(t, es, i)
  }

  ghost predicate EventsOk(es: seq<Event>, images: nat) {
    && (forall e :: e in es ==> e.WellFormed() && e.image < images)
    && (forall m, n :: 0 <= m < n < |es| && es[m].Object? && es[n].Object? ==> es[m].id != es[n].id)
    && (forall m, n :: 0 <= m < n < |es| && es[m].Native? && es[n].Native? ==> es[m].ptr != es[n].ptr)
  }

  // Before offsets are known the lock word of an assigned object holds its bin slot.
  ghost predicate SlotStored(es: seq<Event>, n: nat, lockWords: map<nat, word>, imageOf: map<nat, nat>)
    requires n < |es|
  {
    es[n].Object? ==>
      && es[n].id in lockWords && es[n].id in imageOf && imageOf[es[n].id] == es[n].image
      && es[n].bin < MIRROR_BINS && Pack(es[n].bin, Index(es, n)) < 0x1_0000_0000
      && lockWords[es[n].id] == FromForwardingAddress(Pack(es[n].bin, Index(es, n)))
  }

  ghost predicate SlotsStored(es: seq<Event>, lockWords: map<nat, word>, imageOf: map<nat, nat>) {
    && (forall n :: 0 <= n < |es| ==> SlotStored(es, n, lockWords, imageOf))
    && (forall o :: o in imageOf ==> exists n :: 0 <= n < |es| && es[n].Object? && es[n].id == o)
  }

  // Hash codes are saved exactly for the objects that had one.
  ghost predicate HashesSaved(was: map<nat, word>, now: map<nat, word>, imageOf: map<nat, nat>, saved: map<nat, nat>) {
    && now.Keys == was.Keys && imageOf.Keys <= was.Keys
    && (forall o :: o in was && o !in imageOf ==> now[o] == was[o])
    && (forall o :: o in saved <==> o in imageOf && o in was && StateOf(was[o]) == HashCode)
    && (forall o :: o in saved ==> saved[o] == GetHashCode(was[o]))
  }

  ghost predicate NativesStored(es: seq<Event>, natives: map<NativeId, Relocation>) {
    && (forall n :: 0 <= n < |es| && es[n].Native? ==>
         es[n].ptr in natives && natives[es[n].ptr] == Relocation(es[n].image, Index(es, n), es[n].bin))
    && (forall o :: o in natives ==> exists n :: 0 <= n < |es| && es[n].Native? && es[n].ptr == o)
  }

  lemma SizesNext(es: seq<Event>, e: Event, image: nat)
    requires e.WellFormed()
    ensures Sizes(es + [e], image) ==
      if e.image == image then Sizes(es, image)[e.bin := Sizes(es, image)[e.bin] + e.Delta()] else Sizes(es, image)
  {
    hide Taken;
    forall b | 0 <= b < BIN_COUNT
      ensures Taken(es + [e], image, b) == Taken(es, image, b) + if e.image == image && e.bin == b then e.Delta() else 0
    {
      TakenNext(es, e, image, b);
    }
  }

  lemma {:induction false} SumNext(sizes: seq<nat>, bin: nat, more: nat, n: nat)
    requires bin < |sizes| && n <= |sizes|
    ensures Sum(sizes[bin := sizes[bin] + more], n) == Sum(sizes, n) + if bin < n then more else 0
  {
    if n > 0 { SumNext(sizes, bin, more, n - 1); }
  }

  lemma InfosNext(t: Target, es: seq<Event>, infos: seq<ImageInfo>, e: Event)
    requires InfosOk(t, es, infos) && e.WellFormed() && e.image < |infos|
    ensures |infos[e.image].sizes| == BIN_COUNT
    ensures var i := infos[e.image];
      InfosOk(t, es + [e], infos[e.image := i.(sizes := i.sizes[e.bin := i.sizes[e.bin] + e.Delta()],
                                               end := i.end + if e.Object? then e.Delta() else 0)])
  {
    hide Sizes, Sum;
    forall i | 0 <= i < |infos|
      ensures Sizes(es + [e], i) ==
        if e.image == i then Sizes(es, i)[e.bin := Sizes(es, i)[e.bin] + e.Delta()] else Sizes(es, i)
    {
      SizesNext(es, e, i);
    }
    SumNext(Sizes(es, e.image), e.bin, e.Delta(), MIRROR_BINS);
  }

  lemma IndexStays(es: seq<Event>, e: Event, n: nat)
    requires n < |es|
    ensures (es + [e])[n] == es[n] && Index(es + [e], n) == Index(es, n)
  {
    assert (es + [e])[..n] == es[..n];
  }

  lemma IndexOfNext(es: seq<Event>, e: Event)
    ensures Index(es + [e], |es|) == Taken(es, e.image, e.bin)
  {
    assert (es + [e])[..|es|] == es;
  }
}
