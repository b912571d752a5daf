/**
 The image writer's bookkeeping: bin sizes, lock words, saved hash codes and native relocations, as
 they are filled in by assignments and then turned into image offsets.
 */
module ImageLayout {
  import opened Align
  import opened OatLayout
  import opened ImageBins

  // ---------- choosing a bin ----------

  datatype Description =
    | Class(knownDirty: bool, initialized: bool, finalStatics: seq<bool>)
    | String
    | PlainObject
    | DexCache
    | Other

  const KNOWN_DIRTY: nat := 0
  const MISC_DIRTY: nat := 1
  const CLASS_VERIFIED: nat := 2
  const REGULAR: nat := 3
  const CLASS_INITIALIZED: nat := 4
  const CLASS_FINAL_STATICS: nat := 5
  const STRING: nat := 6

  // Classes that stay clean have only final statics and have been initialized.
  function BinFor(d: Description): (bin: nat)
    ensures bin < MIRROR_BINS
  {
    match d
    case Class(knownDirty, initialized, finalStatics) =>
      if knownDirty then KNOWN_DIRTY
      else if !initialized then CLASS_VERIFIED
      else if false in finalStatics then CLASS_INITIALIZED
      else CLASS_FINAL_STATICS
    case String => STRING
    case PlainObject => MISC_DIRTY
    case DexCache => MISC_DIRTY
    case Other => REGULAR
  }

  /** Scans the static fields of a class until one is not final. */
  method ChooseBin(d: Description) returns (bin: nat)
    ensures bin == BinFor(d)
    ensures bin == KNOWN_DIRTY <==> d.Class? && d.knownDirty
    ensures bin == CLASS_VERIFIED <==> d.Class? && !d.knownDirty && !d.initialized
    ensures bin == CLASS_INITIALIZED <==> d.Class? && !d.knownDirty && d.initialized && false in d.finalStatics
    ensures bin == CLASS_FINAL_STATICS <==> d.Class? && !d.knownDirty && d.initialized && false !in d.finalStatics
    ensures bin == STRING <==> d.String?
    ensures bin == MISC_DIRTY <==> d.PlainObject? || d.DexCache?
    ensures bin == REGULAR <==> d.Other?
  {
    bin := REGULAR;
    match d {
      case Class(knownDirty, initialized, finalStatics) =>
        bin := CLASS_VERIFIED;
        if knownDirty {
          bin := KNOWN_DIRTY;
        } else if initialized {
          bin := CLASS_INITIALIZED;
          var allFinal := true;
          for i := 0 to |finalStatics|
            invariant allFinal && false !in finalStatics[..i]
          {
            if !finalStatics[i] {
              allFinal := false;
              break;
            }
          }
          if allFinal {
            assert finalStatics[..|finalStatics|] == finalStatics;
            bin := CLASS_FINAL_STATICS;
          }
        }
      case String => bin := STRING;
      case PlainObject => bin := MISC_DIRTY;
      case DexCache => bin := MISC_DIRTY;
      case Other =>
    }
  }

  // ---------- assignments ----------

  /** No mirror bin outgrows what a bin slot can address. */
  ghost predicate AllFit(es: seq<Event>, images: nat) {
    forall i, b :: 0 <= i < images && 0 <= b < MIRROR_BINS ==> Taken(es, i, b) <= BIN_LIMIT
  }

  lemma EventsNext(es: seq<Event>, e: Event, images: nat)
    requires EventsOk(es, images) && e.WellFormed() && e.image < images
    requires IdsFresh(es, e)
    ensures EventsOk(es + [e], images)
  {
  }

  lemma SlotsNext(es: seq<Event>, e: Event, lockWords: map<nat, word>, imageOf: map<nat, nat>)
    requires SlotsStored(es, lockWords, imageOf) && e.Object? && e.WellFormed() && e.id !in imageOf
    ensures var index := Taken(es, e.image, e.bin);
      Pack(e.bin, index) < 0x1_0000_0000 &&
        SlotsStored(es + [e], lockWords[e.id := FromForwardingAddress(Pack(e.bin, index))], imageOf[e.id := e.image])
  {
    hide Taken, Pack, FromForwardingAddress;
    var more, index := es + [e], Taken(es, e.image, e.bin);
    PackFits(e.bin, index);
    var words, images := lockWords[e.id := FromForwardingAddress(Pack(e.bin, index))], imageOf[e.id := e.image];
    forall n | 0 <= n < |more|
      ensures SlotStored(more, n, words, images)
    {
      if n < |es| {
        IndexStays(es, e, n);
        assert SlotStored(es, n, lockWords, imageOf);
      } else {
        IndexOfNext(es, e);
      }
    }
    forall o | o in images
      ensures exists n :: 0 <= n < |more| && more[n].Object? && more[n].id == o
    {
      if o == e.id {
        assert more[|es|].id == o;
      } else {
        var n :| 0 <= n < |es| && es[n].Object? && es[n].id == o;
        assert more[n] == es[n];
      }
    }
  }

  lemma SlotsOfNatives(es: seq<Event>, e: Event, lockWords: map<nat, word>, imageOf: map<nat, nat>)
    requires SlotsStored(es, lockWords, imageOf) && e.Native?
    ensures SlotsStored(es + [e], lockWords, imageOf)
  {
    hide Taken, Pack, FromForwardingAddress;
    var more := es + [e];
    forall n | 0 <= n < |more|
      ensures SlotStored(more, n, lockWords, imageOf)
    {
      if n < |es| {
        IndexStays(es, e, n);
        assert SlotStored(es, n, lockWords, imageOf);
      }
    }
    forall o | o in imageOf
      ensures exists n :: 0 <= n < |more| && more[n].Object? && more[n].id == o
    {
      var n :| 0 <= n < |es| && es[n].Object? && es[n].id == o;
      assert more[n] == es[n];
    }
  }

  lemma NativesNext(es: seq<Event>, e: Event, natives: map<NativeId, Relocation>)
    requires NativesStored(es, natives) && (e.Native? ==> e.ptr !in natives)
    ensures NativesStored(es + [e],
      if e.Native? then natives[e.ptr := Relocation(e.image, Taken(es, e.image, e.bin), e.bin)] else natives)
  {
    hide Taken;
    var more := es + [e];
    var now := if e.Native? then natives[e.ptr := Relocation(e.image, Taken(es, e.image, e.bin), e.bin)] else natives;
    forall n | 0 <= n < |more| && more[n].Native?
      ensures more[n].ptr in now && now[more[n].ptr] == Relocation(more[n].image, Index(more, n), more[n].bin)
    {
      if n < |es| {
        IndexStays(es, e, n);
        assert es[n].Native?;
      } else {
        IndexOfNext(es, e);
      }
    }
    forall o | o in now
      ensures exists n :: 0 <= n < |more| && more[n].Native? && more[n].ptr == o
    {
      if e.Native? && o == e.ptr {
        assert more[|es|].ptr == o;
      } else {
        var n :| 0 <= n < |es| && es[n].Native? && es[n].ptr == o;
        assert more[n] == es[n];
      }
    }
  }

  lemma HashesNext(was: map<nat, word>, now: map<nat, word>, imageOf: map<nat, nat>, saved: map<nat, nat>, o: nat,
                   image: nat, w: word)
    requires HashesSaved(was, now, imageOf, saved) && o in now && o !in imageOf
    ensures now[o] == was[o]
    ensures HashesSaved(was, now[o := w], imageOf[o := image],
      if StateOf(now[o]) == HashCode then saved[o := GetHashCode(now[o])] else saved)
  {
    hide StateOf, GetHashCode;
  }

  ghost predicate IdsFresh(es: seq<Event>, e: Event) {
    && (e.Object? ==> forall n :: 0 <= n < |es| && es[n].Object? ==> es[n].id != e.id)
    && (e.Native? ==> forall n :: 0 <= n < |es| && es[n].Native? ==> es[n].ptr != e.ptr)
  }

  lemma FreshObject(es: seq<Event>, lockWords: map<nat, word>, imageOf: map<nat, nat>, e: Event)
    requires SlotsStored(es, lockWords, imageOf) && e.Object? && e.id !in imageOf
    ensures IdsFresh(es, e)
  {
    forall n | 0 <= n < |es| && es[n].Object?
      ensures es[n].id != e.id
    {
      assert SlotStored(es, n, lockWords, imageOf);
    }
  }

  lemma FreshNative(es: seq<Event>, natives: map<NativeId, Relocation>, e: Event)
    requires NativesStored(es, natives) && e.Native? && e.ptr !in natives
    ensures IdsFresh(es, e)
  {
  }

  class Layouter {
    const t: Target
    const base: nat
    const images: nat
    ghost const was: map<nat, word>
    ghost var es: seq<Event>
    var infos: seq<ImageInfo>
    var lockWords: map<nat, word>
    var imageOf: map<nat, nat>
    var savedHash: map<nat, nat>
    var natives: map<NativeId, Relocation>

    /** The bookkeeping reflects exactly the assignments made. */
    ghost predicate Valid()
      reads this
    {
      && t.Valid() && |infos| == images
      && EventsOk(es, images) && WholePieces(t, es)
      && InfosOk(t, es, infos)
      && SlotsStored(es, lockWords, imageOf)
      && HashesSaved(was, lockWords, imageOf, savedHash)
      && NativesStored(es, natives)
    }

    constructor (t: Target, base: nat, images: nat, lockWords: map<nat, word>)
      requires t.Valid()
      ensures this.t == t && this.base == base && this.images == images && this.lockWords == lockWords == was
      ensures Valid() && es == []
    {
      this.t, this.base, this.images, this.was, this.es := t, base, images, lockWords, [];
      this.lockWords, imageOf, savedHash, natives := lockWords, map[], map[], map[];
      infos := seq(images, _ => ImageInfo(seq<nat>(BIN_COUNT, _ => 0), [], t.header, 0));
      new;
      EmptyInfos(t, infos);
    }

    /** Reserves the next place of a bin for an object and stores the bin slot in its lock word. */
    method AssignImageBinSlot(o: nat, image: nat, d: Description, size: nat) returns (bin: nat)
      requires Valid() && image < images && size > 0
      requires o in lockWords && o !in imageOf
      requires (StateOf(lockWords[o]) == Unlocked || StateOf(lockWords[o]) == HashCode)
      modifies this
      ensures Valid() && bin == BinFor(d) && es == old(es) + [Object(o, image, bin, size)] && natives == old(natives)
    {
      hide InfosOk, EventsOk, SlotsStored, HashesSaved, NativesStored, StateOf, GetHashCode, Taken, Sizes, Pack,
           FromForwardingAddress, WholePieces;
      bin := ChooseBin(d);
      ghost var e := Object(o, image, bin, size);
      InfoSizes(t, es, infos, image, bin);
      imageOf := imageOf[o := image];
      var info := infos[image];
      var delta := RoundUp(size, 8);
      var index := info.sizes[bin];
      InfosNext(t, es, infos, e);
      FreshObject(es, old(lockWords), old(imageOf), e);
      EventsNext(es, e, images);
      WholeNext(t, es, e);
      SlotsNext(es, e, lockWords, old(imageOf));
      NativesNext(es, e, natives);
      HashesNext(was, lockWords, old(imageOf), savedHash, o, image, FromForwardingAddress(Pack(bin, index)));
      if StateOf(lockWords[o]) == HashCode {
        savedHash := savedHash[o := GetHashCode(lockWords[o])];
      }
      lockWords := lockWords[o := FromForwardingAddress(Pack(bin, index))];
      infos := infos[image := info.(sizes := info.sizes[bin := index + delta], end := info.end + delta)];
      es := es + [e];
    }

    /** Reserves the next place of a native bin. */
    method AssignNative(ptr: NativeId, image: nat, ty: NativeType)
      requires Valid() && image < images && ptr !in natives
      modifies this`infos, this`natives, this`es
      ensures Valid() && es == old(es) + [PieceOf(t.pointerSize, ptr, image, ty)]
    {
      hide InfosOk, EventsOk, SlotsStored, HashesSaved, NativesStored, Taken, Sizes, WholePieces, NativeSize;
      ghost var e := PieceOf(t.pointerSize, ptr, image, ty);
      var bin, size := BinTypeForNative(ty), NativeSize(t.pointerSize, ty);
      InfoSizes(t, es, infos, image, bin);
      var info := infos[image];
      var offset := info.sizes[bin];
      InfosNext(t, es, infos, e);
      FreshNative(es, natives, e);
      EventsNext(es, e, images);
      PieceIsWhole(t, ptr, image, ty);
      WholeNext(t, es, e);
      SlotsOfNatives(es, e, lockWords, imageOf);
      NativesNext(es, e, natives);
      natives := natives[ptr := Relocation(image, offset, bin)];
      infos := infos[image := info.(sizes := info.sizes[bin := offset + size], end := info.end)];
      es := es + [e];
    }

    /** Whether every bin slot handed out can be read back. */
    method HasRoom() returns (ok: bool)
      requires Valid()
      ensures ok <==> AllFit(es, images)
    {
      hide EventsOk, SlotsStored, HashesSaved, NativesStored, WholePieces, Taken;
      for i := 0 to |infos|
        invariant forall a, b :: 0 <= a < i && 0 <= b < MIRROR_BINS ==> Taken(es, a, b) <= BIN_LIMIT
      {
        for b := 0 to MIRROR_BINS
          invariant forall c :: 0 <= c < b ==> Taken(es, i, c) <= BIN_LIMIT
        {
          InfoSizes(t, es, infos, i, b);
          if infos[i].sizes[b] > BIN_LIMIT {
            return false;
          }
        }
      }
      return true;
    }

    /** Turns bin sizes into bin offsets, and lays the images out one after the other. */
    method CalculateOffsets()
      requires Valid()
      modifies this`infos
      ensures Valid() && Located(base, t, es, infos, |infos|)
    {
      hide EventsOk, SlotsStored, HashesSaved, NativesStored, InfosOk, WholePieces, Located, CreateImageSections,
           RoundUp;
      var imageOffset := 0;
      assert Located(base, t, es, infos, 0) by { NoneLocated(base, t, es, infos); }
      for i := 0 to |infos|
        invariant |infos| == images && InfosOk(t, es, infos)
        invariant imageOffset == ImageStart(t, es, i) && Located(base, t, es, infos, i)
      {
        hide ImageStart;
        var info := infos[i];
        InfoSizes(t, es, infos, i, 0);
        var offsets := CalculateBinOffsets(t, info.sizes);
        LocateOne(base, t, es, infos, i, offsets, base + imageOffset);
        var sections := CreateImageSections(t, i, info.end, offsets, info.sizes);
        infos := infos[i := info.(offsets := offsets, begin := base + imageOffset)];
        imageOffset := imageOffset + RoundUp(sections.classTable.End(), PAGE_SIZE);
      }
    }

    /** Replaces every bin slot by the image offset it stands for. */
    method UnbinObjects()
      requires Valid() && Located(base, t, es, infos, |infos|) && AllFit(es, images)
      modifies this`lockWords
      ensures HashesSaved(was, lockWords, imageOf, savedHash)
      ensures OffsetsStored(t, es, lockWords, imageOf)
    {
      hide InfosOk, EventsOk, HashesSaved, NativesStored, AllFit, WholePieces, Taken, Sizes, Pack,
           FromForwardingAddress, ForwardingAddress,
           BinOf, IndexOf, SlotStored, OffsetStored, Offset, Located, RoundUp, SlotsStored, OffsetsStored, Partly;
      var todo := imageOf.Keys;
      PartlyStart(t, es, lockWords, imageOf);
      while todo != {}
        invariant todo <= imageOf.Keys
        invariant Partly(t, es, lockWords, imageOf, todo) && HashesSaved(was, lockWords, imageOf, savedHash)
        decreases todo
      {
        var o :| o in todo;
        ghost var n := EventOf(t, es, lockWords, imageOf, todo, o);
        KnownSlot(base, t, es, infos, images, lockWords, imageOf, todo, n);
        var slot := ForwardingAddress(lockWords[o]);
        var offset := infos[imageOf[o]].offsets[BinOf(slot)] + IndexOf(slot);
        UnbinOne(t, es, images, lockWords, imageOf, todo, n);
        HashesStay(was, lockWords, imageOf, savedHash, o, FromForwardingAddress(offset));
        lockWords := lockWords[o := FromForwardingAddress(offset)];
        todo := todo - {o};
      }
      AllUnbinned(t, es, lockWords, imageOf);
    }

    /** Adds the bin offsets to the native relocations. */
    method UpdateNatives()
      requires |infos| == images && EventsOk(es, images) && NativesStored(es, natives)
      requires Located(base, t, es, infos, |infos|)
      modifies this`natives
      ensures NativesMoved(t, es, natives)
    {
      hide InfosOk, SlotsStored, HashesSaved, WholePieces, Taken, Sizes, Offset, Index, NativeAt, EventsOk,
           NativesStored, Located,
           PartlyMoved, NativesMoved;
      var todo := natives.Keys;
      PartlyMovedStart(t, es, images, natives);
      while todo != {}
        invariant todo <= natives.Keys && natives.Keys == old(natives.Keys)
        invariant PartlyMoved(t, es, natives, todo)
        decreases todo
      {
        var o :| o in todo;
        ghost var n := NativeEventOf(es, old(natives), o);
        KnownNative(base, t, es, infos, images, natives, todo, n);
        var r := natives[o];
        MoveOne(t, es, images, natives, todo, n);
        natives := natives[o := r.(offset := r.offset + infos[r.image].offsets[r.bin])];
        todo := todo - {o};
      }
      AllMoved(t, es, natives);
    }
  }

  lemma EmptyInfos(t: Target, infos: seq<ImageInfo>)
    requires forall i :: 0 <= i < |infos| ==> infos[i].sizes == seq<nat>(BIN_COUNT, _ => 0) && infos[i].end == t.header
    ensures InfosOk(t, [], infos)
  {
    forall i | 0 <= i < |infos|
      ensures infos[i].sizes == Sizes([], i) && infos[i].end == ImageEnd(t, [], i)
    {
      ZeroSum(Sizes([], i), MIRROR_BINS);
    }
  }

  lemma {:induction false} ZeroSum(sizes: seq<nat>, n: nat)
    requires n <= |sizes| && forall b :: 0 <= b < |sizes| ==> sizes[b] == 0
    ensures Sum(sizes, n) == 0
  {
    if n > 0 { ZeroSum(sizes, n - 1); }
  }

  lemma InfoSizes(t: Target, es: seq<Event>, infos: seq<ImageInfo>, image: nat, bin: nat)
    requires InfosOk(t, es, infos) && image < |infos| && bin < BIN_COUNT
    ensures |infos[image].sizes| == BIN_COUNT && infos[image].sizes[bin] == Taken(es, image, bin)
  {
  }

  lemma WholeNext(t: Target, es: seq<Event>, e: Event)
    requires WholePieces(t, es) && e.WellFormed() && (e.Native? ==> WholePiece(t, e))
    ensures WholePieces(t, es + [e])
  {
    hide WholePiece;
    if e.Object? { ObjectIsWhole(t, e); }
  }

  // ---------- bin offsets ----------

  method CalculateBinOffsets(t: Target, sizes: seq<nat>) returns (offsets: seq<nat>)
    requires |sizes| == BIN_COUNT
    ensures offsets == BinOffsets(t, sizes)
  {
    hide Cursor, Place, RoundUp;
    ghost var cs := BinChunks(t, sizes);
    NoCursor(cs, t.header);
    offsets := [];
    var binOffset := t.header;
    for b := 0 to BIN_COUNT
      invariant binOffset == Cursor(cs, t.header, b) && |offsets| == b
      invariant forall a :: 0 <= a < b ==> offsets[a] == Place(cs, t.header, a)
    {
      NextCursor(cs, t.header, b);
      if b == METHOD_CLEAN || b == METHOD_DIRTY {
        binOffset := RoundUp(binOffset, t.pointerSize);
      } else if b == DEX_CACHE_ARRAY {
        binOffset := RoundUp(binOffset, t.dexCacheAlign);
      } else if b == IM_TABLE || b == CONFLICT_TABLE {
        binOffset := RoundUp(binOffset, t.pointerSize);
      }
      offsets := offsets + [binOffset];
      binOffset := binOffset + sizes[b];
    }
  }

  // The first `n` images know their bin offsets and their place in memory.
  ghost predicate Located(base: nat, t: Target, es: seq<Event>, infos: seq<ImageInfo>, n: nat) {
    n <= |infos| && forall i :: 0 <= i < n ==>
      infos[i].offsets == BinOffsets(t, Sizes(es, i)) && infos[i].begin == base + ImageStart(t, es, i)
  }

  lemma NoneLocated(base: nat, t: Target, es: seq<Event>, infos: seq<ImageInfo>)
    ensures Located(base, t, es, infos, 0)
  {
  }

  lemma LocateOne(base: nat, t: Target, es: seq<Event>, infos: seq<ImageInfo>, i: nat, offsets: seq<nat>, begin: nat)
    requires i < |infos| && InfosOk(t, es, infos) && Located(base, t, es, infos, i)
    requires |infos[i].sizes| == BIN_COUNT && offsets == BinOffsets(t, infos[i].sizes)
    requires begin == base + ImageStart(t, es, i)
    ensures var next := infos[i := infos[i].(offsets := offsets, begin := begin)];
      InfosOk(t, es, next) && Located(base, t, es, next, i + 1)
    ensures var s := CreateImageSections(t, i, infos[i].end, offsets, infos[i].sizes);
      ImageStart(t, es, i + 1) == ImageStart(t, es, i) + RoundUp(s.classTable.End(), PAGE_SIZE)
  {
    hide Sizes, ImageEnd, CreateImageSections, RoundUp, BinOffsets;
  }

  // ---------- from slots to offsets ----------

  ghost predicate OffsetStored(t: Target, es: seq<Event>, n: nat, lockWords: map<nat, word>, imageOf: map<nat, nat>)
    requires n < |es|
  {
    es[n].Object? ==>
      && es[n].id in lockWords && es[n].id in imageOf && imageOf[es[n].id] == es[n].image
      && es[n].WellFormed() && Offset(t, es, n) < 0x1_0000_0000
      && lockWords[es[n].id] == FromForwardingAddress(Offset(t, es, n))
  }

  /** Every object's lock word holds its image offset. */
  ghost predicate OffsetsStored(t: Target, es: seq<Event>, lockWords: map<nat, word>, imageOf: map<nat, nat>) {
    && (forall n :: 0 <= n < |es| ==> OffsetStored(t, es, n, lockWords, imageOf))
    && (forall o :: o in imageOf ==> exists n :: 0 <= n < |es| && es[n].Object? && es[n].id == o)
  }

  ghost predicate Partly(t: Target, es: seq<Event>, lockWords: map<nat, word>, imageOf: map<nat, nat>, todo: set<nat>) {
    && (forall n :: 0 <= n < |es| ==>
         if es[n].Object? && es[n].id in todo then SlotStored(es, n, lockWords, imageOf)
         else OffsetStored(t, es, n, lockWords, imageOf))
    && (forall o :: o in imageOf ==> exists n :: 0 <= n < |es| && es[n].Object? && es[n].id == o)
  }

  ghost function EventOf(t: Target, es: seq<Event>, lockWords: map<nat, word>, imageOf: map<nat, nat>, todo: set<nat>,
                         o: nat): (n: nat)
    requires o in imageOf && Partly(t, es, lockWords, imageOf, todo)
    ensures n < |es| && es[n].Object? && es[n].id == o
  {
    var n :| 0 <= n < |es| && es[n].Object? && es[n].id == o;
    n
  }

  lemma {:induction false} SumFits(es: seq<Event>, images: nat, image: nat, n: nat)
    requires AllFit(es, images) && image < images && n <= MIRROR_BINS
    ensures Sum(Sizes(es, image), n) <= n * 0x800_0000
  {
    hide Taken;
    if n > 0 { SumFits(es, images, image, n - 1); }
  }

  lemma OffsetFits(t: Target, es: seq<Event>, images: nat, n: nat)
    requires t.Valid() && n < |es| && es[n].Object? && EventsOk(es, images) && AllFit(es, images)
    ensures es[n].WellFormed() && Offset(t, es, n) < 0x1_0000_0000 && Offset(t, es, n) % 8 == 0
  {
    hide Offset, Sum, Sizes, AllFit;
    assert es[n] in es;
    ObjectsBeforeNatives(t, es, n);
    SumFits(es, images, es[n].image, MIRROR_BINS);
  }

  // An object of a bin that fits starts below the bin's end.
  lemma IndexInBin(es: seq<Event>, images: nat, n: nat)
    requires AllFit(es, images) && n < |es| && es[n].WellFormed() && es[n].Object? && es[n].image < images
    ensures Index(es, n) < BIN_LIMIT
  {
    hide Taken;
    BinDisjoint(es, n, |es|);
    assert es[..|es|] == es;
  }

  // What the lock word of an object still to be done gives.
  lemma KnownSlot(base: nat, t: Target, es: seq<Event>, infos: seq<ImageInfo>, images: nat, lockWords: map<nat, word>,
                  imageOf: map<nat, nat>,
                  todo: set<nat>, n: nat)
    requires t.Valid() && |infos| == images && EventsOk(es, images) && AllFit(es, images)
    requires Located(base, t, es, infos, images)
    requires n < |es| && es[n].Object? && es[n].id in todo && Partly(t, es, lockWords, imageOf, todo)
    ensures es[n].id in lockWords && es[n].id in imageOf && imageOf[es[n].id] < |infos|
    ensures var slot, i := ForwardingAddress(lockWords[es[n].id]), imageOf[es[n].id];
      && BinOf(slot) < |infos[i].offsets|
      && infos[i].offsets[BinOf(slot)] + IndexOf(slot) == Offset(t, es, n) < 0x1_0000_0000
    ensures es[n].WellFormed()
  {
    hide Taken, Pack, FromForwardingAddress, ForwardingAddress, BinOf, IndexOf, BinOffset, Sizes;
    assert es[n] in es;
    assert SlotStored(es, n, lockWords, imageOf);
    assert forall f :: f in es[..n] ==> f in es;
    MirrorAligned(es[..n], es[n].image, es[n].bin);
    IndexInBin(es, images, n);
    SlotRoundTrip(es[n].bin, Index(es, n));
    OffsetFits(t, es, images, n);
  }

  lemma UnbinOne(t: Target, es: seq<Event>, images: nat, lockWords: map<nat, word>, imageOf: map<nat, nat>,
                 todo: set<nat>, n: nat)
    requires EventsOk(es, images) && n < |es| && es[n].Object? && es[n].id in imageOf && es[n].id in lockWords
    requires Partly(t, es, lockWords, imageOf, todo) && es[n].id in todo
    requires es[n].WellFormed() && Offset(t, es, n) < 0x1_0000_0000
    ensures Partly(t, es, lockWords[es[n].id := FromForwardingAddress(Offset(t, es, n))], imageOf, todo - {es[n].id})
  {
    hide Offset, Taken, Pack, FromForwardingAddress, Index;
    var o, words := es[n].id, lockWords[es[n].id := FromForwardingAddress(Offset(t, es, n))];
    assert SlotStored(es, n, lockWords, imageOf);
    forall m | 0 <= m < |es|
      ensures if es[m].Object? && es[m].id in todo - {o} then SlotStored(es, m, words, imageOf)
              else OffsetStored(t, es, m, words, imageOf)
    {
      if es[m].Object? && es[m].id in todo {
        assert SlotStored(es, m, lockWords, imageOf);
      } else {
        assert OffsetStored(t, es, m, lockWords, imageOf);
      }
    }
  }

  lemma PartlyStart(t: Target, es: seq<Event>, lockWords: map<nat, word>, imageOf: map<nat, nat>)
    requires SlotsStored(es, lockWords, imageOf)
    ensures Partly(t, es, lockWords, imageOf, imageOf.Keys)
  {
    hide Pack, FromForwardingAddress, Index, Offset;
    forall n | 0 <= n < |es|
      ensures if es[n].Object? && es[n].id in imageOf.Keys then SlotStored(es, n, lockWords, imageOf)
              else OffsetStored(t, es, n, lockWords, imageOf)
    {
      assert SlotStored(es, n, lockWords, imageOf);
    }
  }

  lemma AllUnbinned(t: Target, es: seq<Event>, lockWords: map<nat, word>, imageOf: map<nat, nat>)
    requires Partly(t, es, lockWords, imageOf, {})
    ensures OffsetsStored(t, es, lockWords, imageOf)
  {
  }

  lemma HashesStay(was: map<nat, word>, now: map<nat, word>, imageOf: map<nat, nat>, saved: map<nat, nat>, o: nat,
                   w: word)
    requires HashesSaved(was, now, imageOf, saved) && o in imageOf
    ensures HashesSaved(was, now[o := w], imageOf, saved)
  {
    hide StateOf, GetHashCode;
  }

  // ---------- native relocations ----------

  ghost predicate NativeAt(t: Target, es: seq<Event>, n: nat, natives: map<NativeId, Relocation>, moved: bool)
    requires n < |es|
  {
    es[n].Native? ==>
      && es[n].ptr in natives && es[n].WellFormed()
      && natives[es[n].ptr] == Relocation(es[n].image, if moved then Offset(t, es, n) else Index(es, n), es[n].bin)
  }

  /** Every relocation holds the image offset of its native data. */
  ghost predicate NativesMoved(t: Target, es: seq<Event>, natives: map<NativeId, Relocation>) {
    forall n :: 0 <= n < |es| ==> NativeAt(t, es, n, natives, true)
  }

  ghost predicate PartlyMoved(t: Target, es: seq<Event>, natives: map<NativeId, Relocation>, todo: set<NativeId>) {
    forall n :: 0 <= n < |es| && es[n].Native? ==> NativeAt(t, es, n, natives, es[n].ptr !in todo)
  }

  lemma AllMoved(t: Target, es: seq<Event>, natives: map<NativeId, Relocation>)
    requires PartlyMoved(t, es, natives, {})
    ensures NativesMoved(t, es, natives)
  {
    forall n | 0 <= n < |es|
      ensures NativeAt(t, es, n, natives, true)
    {
      assert es[n].Native? ==> NativeAt(t, es, n, natives, es[n].ptr !in {});
    }
  }

  lemma PartlyMovedStart(t: Target, es: seq<Event>, images: nat, natives: map<NativeId, Relocation>)
    requires NativesStored(es, natives) && EventsOk(es, images)
    ensures PartlyMoved(t, es, natives, natives.Keys)
  {
    hide Offset, Index;
  }

  ghost function NativeEventOf(es: seq<Event>, natives: map<NativeId, Relocation>, o: NativeId): (n: nat)
    requires o in natives && NativesStored(es, natives)
    ensures n < |es| && es[n].Native? && es[n].ptr == o
  {
    var n :| 0 <= n < |es| && es[n].Native? && es[n].ptr == o;
    n
  }

  lemma KnownNative(base: nat, t: Target, es: seq<Event>, infos: seq<ImageInfo>, images: nat, natives: map<NativeId,
                    Relocation>, todo: set<NativeId>, n: nat)
    requires |infos| == images && EventsOk(es, images) && Located(base, t, es, infos, images)
    requires n < |es| && es[n].Native? && es[n].ptr in todo && PartlyMoved(t, es, natives, todo)
    ensures es[n].ptr in natives && es[n].WellFormed()
    ensures var r := natives[es[n].ptr];
      && r.image == es[n].image < |infos| && r.bin == es[n].bin < |infos[r.image].offsets|
      && r.offset + infos[r.image].offsets[r.bin] == Offset(t, es, n)
  {
    hide Taken, BinOffset, Sizes;
    assert es[n] in es;
    assert NativeAt(t, es, n, natives, false);
  }

  lemma MoveOne(t: Target, es: seq<Event>, images: nat, natives: map<NativeId, Relocation>, todo: set<NativeId>, n: nat)
    requires EventsOk(es, images) && n < |es| && es[n].Native? && es[n].ptr in natives && es[n].WellFormed()
    requires PartlyMoved(t, es, natives, todo)
    ensures PartlyMoved(t, es, natives[es[n].ptr := Relocation(es[n].image, Offset(t, es, n), es[n].bin)],
      todo - {es[n].ptr})
  {
    hide Offset, Index;
    var o, now := es[n].ptr, natives[es[n].ptr := Relocation(es[n].image, Offset(t, es, n), es[n].bin)];
    forall m | 0 <= m < |es| && es[m].Native?
      ensures NativeAt(t, es, m, now, es[m].ptr !in todo - {o})
    {
      assert NativeAt(t, es, m, natives, es[m].ptr !in todo);
    }
  }
}
