/**
 One class record of an oat file: a header, a bitmap when only some methods are compiled, and one
 code offset per compiled method. The runtime's lookup by method index is the inverse.
 */
module OatClasses {
  import opened Wrappers
  import opened Align

  datatype ClassType = AllCompiled | SomeCompiled | NoneCompiled

  const CLASS_HEADER_SIZE: nat := 4

  function TypeCode(t: ClassType): half {
    match t
    case AllCompiled => 0
    case SomeCompiled => 1
    case NoneCompiled => 2
  }

  // A class without methods counts as having none compiled.
  function TypeOf(withCode: nat, methods: nat): ClassType {
    if withCode == 0 then NoneCompiled else if withCode == methods then AllCompiled else SomeCompiled
  }

  /** How many of the first `i` methods are compiled. */
  function Rank(flags: seq<bool>, i: nat): (r: nat)
    requires i <= |flags|
    ensures r <= i
  {
    if i == 0 then 0 else Rank(flags, i - 1) + (if flags[i - 1] then 1 else 0)
  }

  lemma {:induction false} RankGrows(flags: seq<bool>, i: nat, j: nat)
    requires i <= j <= |flags|
    ensures Rank(flags, i) <= Rank(flags, j) <= Rank(flags, i) + (j - i)
    decreases j - i
  {
    if i < j {
      RankGrows(flags, i, j - 1);
    }
  }

  /** A full count means every flag is set, so rank is index. */
  lemma {:induction false} FullRank(flags: seq<bool>, i: nat)
    requires i <= |flags| && Rank(flags, |flags|) == |flags|
    ensures Rank(flags, i) == i && forall j :: 0 <= j < |flags| ==> flags[j]
  {
    RankGrows(flags, 0, i);
    RankGrows(flags, i, |flags|);
    forall j | 0 <= j < |flags|
      ensures flags[j]
    {
      RankGrows(flags, 0, j);
      RankGrows(flags, j + 1, |flags|);
    }
  }

  // Bit vectors are stored in whole 32-bit words.
  function BitmapSize(methods: nat): nat { RoundUp(methods, 32) / 32 * 4 }

  // ---------- building a class record ----------

  datatype OatClass = OatClass(ty: ClassType, fromClass: seq<nat>, bitmap: seq<bool>, bitmapSize: nat, numOffsets: nat)

  function SizeOf(c: OatClass): nat {
    (if c.bitmapSize == 0 then 0 else 4) + c.bitmapSize + 4 * c.numOffsets
  }

  // Where the code offsets start, relative to the class record.
  function OffsetsStart(ty: ClassType, methods: nat): nat {
    CLASS_HEADER_SIZE + if ty == SomeCompiled then 4 + BitmapSize(methods) else 0
  }

  /** Entry, bitmap bit and recorded distance of every method. */
  ghost predicate Describes(c: OatClass, flags: seq<bool>) {
    && c.ty == TypeOf(Rank(flags, |flags|), |flags|)
    && c.numOffsets == Rank(flags, |flags|)
    && c.bitmapSize == (if c.ty == SomeCompiled then BitmapSize(|flags|) else 0)
    && c.bitmap == (if c.ty == SomeCompiled then flags else [])
    && |c.fromClass| == |flags|
    && forall i :: 0 <= i < |flags| ==>
         c.fromClass[i] == if flags[i] then OffsetsStart(c.ty, |flags|) + Rank(flags, i) * 4 else 0
  }

  function ClassOf(flags: seq<bool>): (c: OatClass)
    ensures Describes(c, flags)
  {
    var n := |flags|;
    var ty := TypeOf(Rank(flags, n), n);
    OatClass(
      ty,
      seq(n, i requires 0 <= i < n => if flags[i] then OffsetsStart(ty, n) + Rank(flags, i) * 4 else 0),
      if ty == SomeCompiled then flags else [],
      if ty == SomeCompiled then BitmapSize(n) else 0,
      Rank(flags, n))
  }

  lemma DescribedOnce(c: OatClass, d: OatClass, flags: seq<bool>)
    requires Describes(c, flags) && Describes(d, flags)
    ensures c == d
  {
    assert c.fromClass == d.fromClass;
  }

  /** The constructor of a class record. */
  method BuildClass(flags: seq<bool>, withCode: nat) returns (c: OatClass)
    requires withCode == Rank(flags, |flags|)
    ensures Describes(c, flags)
  {
    var ty := TypeOf(withCode, |flags|);
    var fromClass := seq(|flags|, _ => 0);
    var offset := CLASS_HEADER_SIZE;
    var bitmap := [];
    var bitmapSize := 0;
    if ty == SomeCompiled {
      bitmap := seq(|flags|, _ => false);
      bitmapSize := BitmapSize(|flags|);
      offset := offset + 4 + bitmapSize;
    }
    for i := 0 to |flags|
      invariant |fromClass| == |flags| && |bitmap| == (if ty == SomeCompiled then |flags| else 0)
      invariant offset == OffsetsStart(ty, |flags|) + Rank(flags, i) * 4
      invariant forall j :: 0 <= j < i ==>
        fromClass[j] == if flags[j] then OffsetsStart(ty, |flags|) + Rank(flags, j) * 4 else 0
      invariant ty == SomeCompiled ==> bitmap[..i] == flags[..i] && forall j :: i <= j < |flags| ==> !bitmap[j]
    {
      if flags[i] {
        fromClass := fromClass[i := offset];
        offset := offset + 4;
        if ty == SomeCompiled {
          bitmap := bitmap[i := true];
        }
      } else {
        fromClass := fromClass[i := 0];
      }
    }
    c := OatClass(ty, fromClass, bitmap, bitmapSize, withCode);
    assert ty == SomeCompiled ==> bitmap == bitmap[..|flags|] == flags[..|flags|] == flags;
  }

  // ---------- its bytes ----------

  // The `n` bits from index `i`, lowest first.
  function Bits(flags: seq<bool>, i: nat, n: nat): (v: nat)
    ensures v < Pow2(n)
    decreases n
  {
    if n == 0 then 0 else (if i < |flags| && flags[i] then 1 else 0) + 2 * Bits(flags, i + 1, n - 1)
  }

  function BitmapByte(flags: seq<bool>, q: nat): byte {
    assert Pow2(8) == 256 by { assert Pow2(4) == 16; }
    Bits(flags, 8 * q, 8)
  }

  function BitmapBytes(flags: seq<bool>, size: nat): (b: seq<byte>)
    ensures |b| == size
  {
    seq(size, q requires 0 <= q < size => BitmapByte(flags, q))
  }

  function Words(ws: seq<nat>): (b: seq<byte>)
    ensures |b| == 4 * |ws|
  {
    if ws == [] then [] else Word(ws[0]) + Words(ws[1..])
  }

  // The status is a signed 16-bit number in two's complement.
  function HeaderBytes(status: half, ty: ClassType): (b: seq<byte>)
    ensures |b| == CLASS_HEADER_SIZE
  {
    Half(status) + Half(TypeCode(ty))
  }

  function ClassBytes(status: half, c: OatClass, codeOffsets: seq<nat>): seq<byte> {
    HeaderBytes(status, c.ty)
    + (if c.bitmapSize != 0 then Word(c.bitmapSize) + BitmapBytes(c.bitmap, c.bitmapSize) else [])
    + Words(codeOffsets)
  }

  lemma ClassBytesSize(status: half, c: OatClass, codeOffsets: seq<nat>)
    requires |codeOffsets| == c.numOffsets
    ensures |ClassBytes(status, c, codeOffsets)| == CLASS_HEADER_SIZE + SizeOf(c)
  {
  }

  // ---------- the runtime's lookup ----------

  predicate IsBitSet(s: seq<byte>, at: nat, i: nat)
    requires at + i / 8 < |s|
  {
    ShiftRight(s[at + i / 8], i % 8) % 2 == 1
  }

  function NumSetBits(s: seq<byte>, at: nat, end: nat): nat
    requires end > 0 ==> at + (end - 1) / 8 < |s|
  {
    if end == 0 then 0 else NumSetBits(s, at, end - 1) + (if IsBitSet(s, at, end - 1) then 1 else 0)
  }

  // The code offset recorded for a method, read from the class record at `at`; nothing is returned
  // for a method that was not compiled, or when the record runs past the end.
  function Lookup(s: seq<byte>, at: nat, i: nat): (r: Option<nat>) {
    if at + 4 > |s| || ReadHalf(s, at + 2) == 2 then None
    else if ReadHalf(s, at + 2) == 0 then ReadOffset(s, at + 4, i)
    else if at + 8 > |s| || at + 8 + i / 8 >= |s| then None
    else if !IsBitSet(s, at + 8, i) then None
    else
      assert i > 0 ==> (i - 1) / 8 <= i / 8;
      ReadOffset(s, at + 8 + ReadWord(s, at + 4), NumSetBits(s, at + 8, i))
  }

  function ReadOffset(s: seq<byte>, at: nat, i: nat): Option<nat> {
    if at + 4 * i + 4 > |s| then None else Some(ReadWord(s, at + 4 * i))
  }

  // ---------- reading back what was written ----------

  lemma {:induction false} WordsReadBack(s: seq<byte>, at: nat, ws: seq<nat>, j: nat)
    requires Holds(s, at, Words(ws)) && j < |ws| && ws[j] < 0x1_0000_0000
    ensures at + 4 * j + 4 <= |s| && ReadWord(s, at + 4 * j) == ws[j]
    decreases j
  {
    HoldsTwo(s, at, Word(ws[0]), Words(ws[1..]));
    if j == 0 {
      HeldWord(s, at, ws[0]);
    } else {
      WordsReadBack(s, at + 4, ws[1..], j - 1);
    }
  }

  lemma {:induction false} ShiftedBit(flags: seq<bool>, i: nat, n: nat, k: nat)
    requires k < n
    ensures ShiftRight(Bits(flags, i, n), k) % 2 == 1 <==> i + k < |flags| && flags[i + k]
    decreases n
  {
    if k > 0 {
      ShiftedBit(flags, i + 1, n - 1, k - 1);
    }
  }

  lemma BitmapBitReadsBack(s: seq<byte>, at: nat, flags: seq<bool>, size: nat, i: nat)
    requires Holds(s, at, BitmapBytes(flags, size)) && i < |flags| && i / 8 < size
    ensures at + i / 8 < |s| && (IsBitSet(s, at, i) <==> flags[i])
  {
    var q, k := i / 8, i % 8;
    assert s[at + q] == BitmapBytes(flags, size)[q] == BitmapByte(flags, q);
    ShiftedBit(flags, 8 * q, 8, k);
  }

  lemma {:induction false} BitCountIsRank(s: seq<byte>, at: nat, flags: seq<bool>, size: nat, i: nat)
    requires Holds(s, at, BitmapBytes(flags, size)) && i <= |flags| <= 8 * size
    ensures i > 0 ==> at + (i - 1) / 8 < |s|
    ensures NumSetBits(s, at, i) == Rank(flags, i)
  {
    if i > 0 {
      BitCountIsRank(s, at, flags, size, i - 1);
      BitmapBitReadsBack(s, at, flags, size, i - 1);
    }
  }

  lemma BitmapHasRoom(methods: nat)
    ensures methods <= 8 * BitmapSize(methods) <= methods + 31
  {
  }

  ghost predicate LooksUp(s: seq<byte>, at: nat, flags: seq<bool>, codeOffsets: seq<nat>, i: nat)
    requires i < |flags|
  {
    if flags[i] then Rank(flags, i) < |codeOffsets| && Lookup(s, at, i) == Some(codeOffsets[Rank(flags, i)])
      else Lookup(s, at, i) == None
  }

  lemma RankBelow(flags: seq<bool>, i: nat)
    requires i < |flags| && flags[i]
    ensures Rank(flags, i) < Rank(flags, |flags|)
  {
    RankGrows(flags, i + 1, |flags|);
  }

  lemma PartsOf(s: seq<byte>, at: nat, status: half, c: OatClass, codeOffsets: seq<nat>)
    requires Holds(s, at, ClassBytes(status, c, codeOffsets))
    ensures at + 4 <= |s| && ReadHalf(s, at) == status && ReadHalf(s, at + 2) == TypeCode(c.ty)
    ensures c.bitmapSize == 0 ==> Holds(s, at + 4, Words(codeOffsets))
    ensures c.bitmapSize != 0 ==>
      && Holds(s, at + 4, Word(c.bitmapSize))
      && Holds(s, at + 8, BitmapBytes(c.bitmap, c.bitmapSize))
      && Holds(s, at + 8 + c.bitmapSize, Words(codeOffsets))
  {
    hide Word, BitmapBytes, Words, Half, Holds, ReadHalf;
    var header := HeaderBytes(status, c.ty);
    if c.bitmapSize == 0 {
      HoldsPart(s, at, header, [], Words(codeOffsets));
    } else {
      var w, b := Word(c.bitmapSize), BitmapBytes(c.bitmap, c.bitmapSize);
      HoldsPart(s, at, header, w + b, Words(codeOffsets));
      assert [] + w + b == w + b;
      HoldsPart(s, at + 4, [], w, b);
    }
    HoldsTwo(s, at, Half(status), Half(TypeCode(c.ty)));
    HeldHalf(s, at, status);
    HeldHalf(s, at + 2, TypeCode(c.ty));
  }

  /** The runtime reads the status that was written. */
  lemma StatusReadsBack(s: seq<byte>, at: nat, status: half, c: OatClass, codeOffsets: seq<nat>)
    requires Holds(s, at, ClassBytes(status, c, codeOffsets))
    ensures at + 2 <= |s| && ReadHalf(s, at) == status
  {
    hide ClassBytes, Holds, ReadHalf;
    PartsOf(s, at, status, c, codeOffsets);
  }

  /** A class without compiled methods answers every query with nothing. */
  lemma NothingCompiled(s: seq<byte>, at: nat, status: half, c: OatClass, codeOffsets: seq<nat>, i: nat)
    requires c.ty == NoneCompiled && Holds(s, at, ClassBytes(status, c, codeOffsets))
    ensures Lookup(s, at, i) == None
  {
    hide ClassBytes, Holds, ReadHalf;
    PartsOf(s, at, status, c, codeOffsets);
  }

  /** The runtime finds exactly the compiled methods of a class, each with its own code offset. */
  lemma LookupReadsBack(s: seq<byte>, at: nat, status: half, c: OatClass, flags: seq<bool>, codeOffsets: seq<nat>,
                        i: nat)
    requires Describes(c, flags) && |codeOffsets| == c.numOffsets && i < |flags| && c.bitmapSize < 0x1_0000_0000
    requires forall o :: o in codeOffsets ==> o < 0x1_0000_0000
    requires Holds(s, at, ClassBytes(status, c, codeOffsets))
    ensures LooksUp(s, at, flags, codeOffsets, i)
  {
    hide ClassBytes, Holds, Words, Word, ReadWord, BitmapBytes, BitmapSize, IsBitSet, NumSetBits;
    PartsOf(s, at, status, c, codeOffsets);
    BitmapHasRoom(|flags|);
    if flags[i] { RankBelow(flags, i); }
    match c.ty
    case NoneCompiled =>
    case AllCompiled =>
      FullRank(flags, i);
      assert codeOffsets[i] in codeOffsets;
      WordsReadBack(s, at + 4, codeOffsets, i);
    case SomeCompiled =>
      hide Lookup;
      SomeReadsBack(s, at, c.bitmapSize, flags, codeOffsets, i);
  }

  lemma SomeLookup(s: seq<byte>, at: nat, size: nat, i: nat, bit: bool, rank: nat, word: nat)
    requires at + 8 <= |s| && ReadHalf(s, at + 2) == 1 && at + 8 + i / 8 < |s|
    requires i > 0 ==> at + 8 + (i - 1) / 8 < |s|
    requires ReadWord(s, at + 4) == size && IsBitSet(s, at + 8, i) == bit && NumSetBits(s, at + 8, i) == rank
    requires bit ==> at + 8 + size + 4 * rank + 4 <= |s| && ReadWord(s, at + 8 + size + 4 * rank) == word
    ensures Lookup(s, at, i) == if bit then Some(word) else None
  {
    hide ReadWord, IsBitSet, NumSetBits;
  }

  lemma SomeReadsBack(s: seq<byte>, at: nat, size: nat, flags: seq<bool>, codeOffsets: seq<nat>, i: nat)
    requires i < |flags| <= 8 * size && size < 0x1_0000_0000
    requires at + 4 <= |s| && ReadHalf(s, at + 2) == 1
    requires forall o :: o in codeOffsets ==> o < 0x1_0000_0000
    requires flags[i] ==> Rank(flags, i) < |codeOffsets|
    requires Holds(s, at + 4, Word(size)) && Holds(s, at + 8, BitmapBytes(flags, size))
    requires Holds(s, at + 8 + size, Words(codeOffsets))
    ensures LooksUp(s, at, flags, codeOffsets, i)
  {
    hide Holds, Words, Word, ReadWord, BitmapBytes, IsBitSet, NumSetBits, Rank, Lookup;
    HeldWord(s, at + 4, size);
    BitmapBitReadsBack(s, at + 8, flags, size, i);
    BitCountIsRank(s, at + 8, flags, size, i);
    var rank := Rank(flags, i);
    var word := if flags[i] then codeOffsets[rank] else 0;
    if flags[i] {
      assert codeOffsets[rank] in codeOffsets;
      WordsReadBack(s, at + 8 + size, codeOffsets, rank);
    }
    SomeLookup(s, at, size, i, flags[i], rank, word);
  }

  lemma OffsetsHeld(s: seq<byte>, at: nat, status: half, c: OatClass, flags: seq<bool>, codeOffsets: seq<nat>)
    requires Describes(c, flags) && flags != []
    requires Holds(s, at, ClassBytes(status, c, codeOffsets))
    ensures Holds(s, at + OffsetsStart(c.ty, |flags|), Words(codeOffsets))
  {
    hide ClassBytes, Holds, Words, BitmapSize;
    PartsOf(s, at, status, c, codeOffsets);
    BitmapHasRoom(|flags|);
  }

  /** The recorded distance of a compiled method from its class is where its code offset was written. */
  lemma DistanceIsRight(s: seq<byte>, at: nat, status: half, c: OatClass, flags: seq<bool>, codeOffsets: seq<nat>,
                        i: nat)
    requires Describes(c, flags) && |codeOffsets| == c.numOffsets && i < |flags| && flags[i]
    requires forall o :: o in codeOffsets ==> o < 0x1_0000_0000
    requires Holds(s, at, ClassBytes(status, c, codeOffsets))
    ensures Rank(flags, i) < |codeOffsets| && at + c.fromClass[i] + 4 <= |s|
    ensures ReadWord(s, at + c.fromClass[i]) == codeOffsets[Rank(flags, i)]
  {
    hide ClassBytes, Holds, Words, ReadWord, OffsetsStart, Describes, Rank;
    OffsetsHeld(s, at, status, c, flags, codeOffsets);
    DistanceOf(c, flags, i);
    assert codeOffsets[Rank(flags, i)] in codeOffsets;
    WordsReadBack(s, at + OffsetsStart(c.ty, |flags|), codeOffsets, Rank(flags, i));
  }

  lemma DistanceOf(c: OatClass, flags: seq<bool>, i: nat)
    requires Describes(c, flags) && i < |flags| && flags[i]
    ensures i < |c.fromClass| && c.fromClass[i] == OffsetsStart(c.ty, |flags|) + 4 * Rank(flags, i)
    ensures Rank(flags, i) < c.numOffsets
  {
    RankBelow(flags, i);
  }
}
