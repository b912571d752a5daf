/**
 The encoded_value format of dex files, in all the forms the format allows, and the reader that turns
 the bytes back into values.
 */
module EncodedValues {
  import opened Align
  import opened Leb128

  // ---------- numbers of one to eight bytes ----------

  function Pow256(n: nat): (p: pos)
    ensures n >= 1 ==> p % 2 == 0
  {
    if n == 0 then 1 else 256 * Pow256(n - 1)
  }

  // Little-endian value of the first `n` bytes.
  function Little(b: seq<byte>, n: nat): (v: nat)
    requires n <= |b|
    ensures v < Pow256(n)
  {
    if n == 0 then 0 else
      var x: int := b[n - 1];
      ByteBelow(x, Pow256(n - 1));
      Little(b, n - 1) + x * Pow256(n - 1)
  }

  lemma ByteBelow(x: int, p: pos)
    requires 0 <= x < 256
    ensures 0 <= x * p <= 255 * p
  {
    assert (255 - x) * p >= 0 && x * p >= 0;
  }

  /** Two's complement reading of an `n`-byte number. */
  function SignExtended(v: nat, n: pos): int {
    if v >= Pow256(n) / 2 then v - Pow256(n) else v
  }

  // A 64-bit signed shift up and back down by whole bytes.
  lemma ShiftExtends(v: nat, n: nat)
    requires 1 <= n <= 8 && v < Pow256(n)
    ensures var up := v * Pow256(8 - n);
      (if up >= 0x8000_0000_0000_0000 then up - 0x1_0000_0000_0000_0000 else up) / Pow256(8 - n) == SignExtended(v, n)
  {
    var size, scale := Pow256(n), Pow256(8 - n);
    PowersOf256();
    assert size * scale == 0x1_0000_0000_0000_0000;
    hide Pow256;
    ShiftExtendsSign(v, size, scale, 0x1_0000_0000_0000_0000);
  }

  lemma PowersOf256()
    ensures Pow256(0) == 1 && Pow256(1) == 0x100 && Pow256(2) == 0x1_0000 && Pow256(3) == 0x100_0000
    ensures Pow256(4) == 0x1_0000_0000
    ensures Pow256(5) == 0x100_0000_0000 && Pow256(6) == 0x1_0000_0000_0000 && Pow256(7) == 0x100_0000_0000_0000
    ensures Pow256(8) == 0x1_0000_0000_0000_0000
  {
    assert Pow256(2) == 0x1_0000;
    assert Pow256(4) == 0x1_0000_0000;
    assert Pow256(6) == 0x1_0000_0000_0000;
  }

  /** Reads `length + 1` bytes. */
  method ReadVarWidth(data: seq<byte>, at: nat, length: nat, signExtend: bool, ghost b: seq<byte>)
    returns (v: int, next: nat)
    requires |b| == length + 1 <= 8 && Holds(data, at, b)
    ensures next == at + |b|
    ensures v == if signExtend then SignExtended(Little(b, |b|), |b|) else Little(b, |b|)
  {
    hide Pow256;
    var value: nat := 0;
    next := at;
    for i := 0 to length + 1
      invariant next == at + i && value == Little(b, i)
    {
      assert data[at + i] == b[i];
      var x: int := data[next];
      NextByte(b, i);
      next := next + 1;
      value := value + x * Pow256(i);
    }
    v := value;
    if signExtend {
      ShiftExtends(value, length + 1);
      var scale := Pow256(7 - length);
      var up := value * scale;
      v := (if up >= 0x8000_0000_0000_0000 then up - 0x1_0000_0000_0000_0000 else up) / scale;
    }
  }

  lemma NextByte(b: seq<byte>, i: nat)
    requires i < |b|
    ensures var x: int := b[i]; Little(b, i + 1) == Little(b, i) + x * Pow256(i) && x * Pow256(i) >= 0
  {
    var x: int := b[i];
    ByteBelow(x, Pow256(i));
  }

  // ---------- the format ----------

  const BYTE: nat := 0x00
  const SHORT: nat := 0x02
  const CHAR: nat := 0x03
  const INT: nat := 0x04
  const LONG: nat := 0x06
  const FLOAT: nat := 0x10
  const DOUBLE: nat := 0x11
  const METHOD_TYPE: nat := 0x15
  const ENUM: nat := 0x1b
  const ARRAY: nat := 0x1c
  const ANNOTATION: nat := 0x1d
  const NULL: nat := 0x1e
  const BOOLEAN: nat := 0x1f

  /** A value as it may appear in a file: numbers in any permitted width, sizes in any LEB128 form. */
  datatype Enc =
    | Number(kind: nat, b: seq<byte>)
    | Array(size: Leb, items: seq<Enc>)
    | Annotation(annotated: Leb, size: Leb, names: seq<Leb>, items: seq<Enc>)
    | Null
    | Boolean(value: bool)
    | Undefined(kind: nat, arg: nat)

  // Widest encoding of each kind of number; zero for codes that are not numbers.
  function MaxWidth(kind: nat): nat {
    if kind == BYTE then 1
    else if kind == SHORT || kind == CHAR then 2
    else if kind == INT || kind == FLOAT then 4
    else if kind == LONG || kind == DOUBLE then 8
    else if METHOD_TYPE <= kind <= ENUM then 4
    else 0
  }

  predicate WellFormed(e: Enc) {
    match e
    case Number(kind, b) => 1 <= |b| <= MaxWidth(kind)
    case Array(size, items) => Unsigned(size) == |items| && forall i :: 0 <= i < |items| ==> WellFormed(items[i])
    case Annotation(_, size, names, items) =>
      Unsigned(size) == |items| == |names| && forall i :: 0 <= i < |items| ==> WellFormed(items[i])
    case Null => true
    case Boolean(_) => true
    case Undefined(kind, arg) => kind < ARRAY && MaxWidth(kind) == 0 && arg < 8
  }

  // The low five bits of the first byte tell the kind, the high three carry an argument.
  function Head(kind: nat, arg: nat): byte
    requires kind < 32 && arg < 8
  {
    kind + 32 * arg
  }

  function Encode(e: Enc): (b: seq<byte>)
    requires WellFormed(e)
    ensures |b| >= 1
    decreases e, 1
  {
    match e
    case Number(kind, b) => [Head(kind, |b| - 1)] + b
    case Array(size, items) => [Head(ARRAY, 0)] + size + Items(e, |items|)
    case Annotation(annotated, size, names, items) => [Head(ANNOTATION, 0)] + (annotated + size) + Items(e, |items|)
    case Null => [Head(NULL, 0)]
    case Boolean(v) => [Head(BOOLEAN, if v then 1 else 0)]
    case Undefined(kind, arg) => [Head(kind, arg)]
  }

  // The first `n` elements, each with its name if it has one.
  function Items(e: Enc, n: nat): seq<byte>
    requires WellFormed(e) && (e.Array? || e.Annotation?) && n <= |e.items|
    decreases e, 0, n
  {
    if n == 0 then [] else Items(e, n - 1) + (Name(e, n - 1) + Encode(e.items[n - 1]))
  }

  function Name(e: Enc, i: nat): seq<byte>
    requires WellFormed(e) && (e.Array? || e.Annotation?) && i < |e.items|
  {
    if e.Array? then [] else e.names[i]
  }

  // ---------- its meaning ----------

  datatype Value =
    | Num(kind: nat, v: int)
    | Arr(values: seq<Value>)
    | Ann(annotated: nat, names: seq<nat>, values: seq<Value>)
    | NullValue
    | Bool(b: bool)
    | Empty(kind: nat)

  /** Integers are sign-extended, floats filled up with zeros on the right, everything else is unsigned. */
  function NumberOf(kind: nat, b: seq<byte>): int
    requires 1 <= |b| <= MaxWidth(kind)
  {
    var v := Little(b, |b|);
    if kind == BYTE then (if v >= 128 then v - 256 else v)
    else if kind == SHORT || kind == INT || kind == LONG then SignExtended(v, |b|)
    else if kind == FLOAT then v * Pow256(4 - |b|)
    else if kind == DOUBLE then v * Pow256(8 - |b|)
    else v
  }

  function Meaning(e: Enc): Value
    requires WellFormed(e)
    decreases e, 1
  {
    match e
    case Number(kind, b) => Num(kind, NumberOf(kind, b))
    case Array(_, items) => Arr(Meanings(e, |items|))
    case Annotation(annotated, _, names, items) =>
      Ann(Unsigned(annotated), NamesOf(names, |names|), Meanings(e, |items|))
    case Null => NullValue
    case Boolean(v) => Bool(v)
    case Undefined(kind, _) => Empty(kind)
  }

  function Meanings(e: Enc, n: nat): (vs: seq<Value>)
    requires WellFormed(e) && (e.Array? || e.Annotation?) && n <= |e.items|
    ensures |vs| == n
    decreases e, 0, n
  {
    if n == 0 then [] else Meanings(e, n - 1) + [Meaning(e.items[n - 1])]
  }

  function NamesOf(names: seq<Leb>, n: nat): (vs: seq<nat>)
    requires n <= |names|
    ensures |vs| == n
  {
    if n == 0 then [] else NamesOf(names, n - 1) + [Unsigned(names[n - 1])]
  }

  // ---------- reading ----------

  lemma {:induction false} ItemHeld(data: seq<byte>, base: nat, e: Enc, i: nat, n: nat)
    requires WellFormed(e) && (e.Array? || e.Annotation?) && i < n <= |e.items| && Holds(data, base, Items(e, n))
    ensures Holds(data, base + |Items(e, i)|, Name(e, i))
    ensures Holds(data, base + |Items(e, i)| + |Name(e, i)|, Encode(e.items[i]))
    ensures |Items(e, i + 1)| == |Items(e, i)| + |Name(e, i)| + |Encode(e.items[i])|
    decreases n
  {
    hide Encode, Name, Holds;
    var last := Name(e, n - 1) + Encode(e.items[n - 1]);
    HoldsTwo(data, base, Items(e, n - 1), last);
    if i < n - 1 {
      ItemHeld(data, base, e, i, n - 1);
    } else {
      HoldsTwo(data, base + |Items(e, n - 1)|, Name(e, n - 1), Encode(e.items[n - 1]));
    }
  }

  // What follows the first byte of an array or annotation.
  lemma CompoundHeld(data: seq<byte>, at: nat, e: Enc)
    requires WellFormed(e) && (e.Array? || e.Annotation?) && Holds(data, at, Encode(e))
    ensures e.Array? ==> Holds(data, at + 1, e.size) && Holds(data, at + 1 + |e.size|, Items(e, |e.items|))
    ensures e.Annotation? ==>
      && Holds(data, at + 1, e.annotated) && Holds(data, at + 1 + |e.annotated|, e.size)
      && Holds(data, at + 1 + |e.annotated| + |e.size|, Items(e, |e.items|))
  {
    hide Items, Holds;
    if e.Array? {
      HoldsPart(data, at, [Head(ARRAY, 0)], e.size, Items(e, |e.items|));
    } else {
      HoldsPart(data, at, [Head(ANNOTATION, 0)], e.annotated + e.size, Items(e, |e.items|));
      HoldsTwo(data, at + 1, e.annotated, e.size);
    }
  }

  // The first byte tells what follows.
  lemma HeadHeld(data: seq<byte>, at: nat, e: Enc)
    requires WellFormed(e) && Holds(data, at, Encode(e))
    ensures at < |data|
    ensures var head: int := data[at]; var kind, arg := head % 32, head / 32;
      match e
      case Number(k, b) => kind == k && arg == |b| - 1 && Holds(data, at + 1, b)
      case Array(_, _) => kind == ARRAY
      case Annotation(_, _, _, _) => kind == ANNOTATION
      case Null => kind == NULL
      case Boolean(v) => kind == BOOLEAN && (arg != 0 <==> v)
      case Undefined(k, _) => kind == k
  {
    hide Items;
    assert data[at + 0] == Encode(e)[0];
    if e.Number? {
      HoldsTwo(data, at, [Head(e.kind, |e.b| - 1)], e.b);
    }
  }

  method ReadNumber(data: seq<byte>, at: nat, kind: nat, length: nat, ghost b: seq<byte>) returns (v: int, next: nat)
    requires 1 <= |b| <= MaxWidth(kind) && length == |b| - 1 && Holds(data, at, b)
    ensures v == NumberOf(kind, b) && next == at + |b|
  {
    hide Little, Pow256;
    if kind == BYTE {
      v, next := ReadVarWidth(data, at, length, false, b);
      v := if v >= 128 then v - 256 else v;
    } else if kind == SHORT || kind == INT || kind == LONG {
      v, next := ReadVarWidth(data, at, length, true, b);
    } else if kind == FLOAT {
      v, next := ReadVarWidth(data, at, length, false, b);
      v := v * Pow256(3 - length);
    } else if kind == DOUBLE {
      v, next := ReadVarWidth(data, at, length, false, b);
      v := v * Pow256(7 - length);
    } else {
      v, next := ReadVarWidth(data, at, length, false, b);
    }
  }

  /**
   The reader returns the value that was encoded and stops right behind it, whatever the nesting. A code
   that the format does not define gives an empty value.
   */
  method ReadEncodedValue(data: seq<byte>, at: nat, ghost e: Enc) returns (v: Value, next: nat)
    requires WellFormed(e) && Holds(data, at, Encode(e))
    ensures v == Meaning(e) && next == at + |Encode(e)|
    decreases e, 2
  {
    hide Items, Meanings, NumberOf, Holds;
    HeadHeld(data, at, e);
    var head: int := data[at];
    var kind, length := head % 32, head / 32;
    next := at + 1;
    if kind == ARRAY {
      CompoundHeld(data, at, e);
      var size: nat, values: seq<Value>;
      size, next := DecodeUnsigned(data, next, e.size);
      values, next := ReadItems(data, next, size, e);
      v := Arr(values);
    } else if kind == ANNOTATION {
      CompoundHeld(data, at, e);
      var annotated: nat, size: nat, names: seq<nat>, values: seq<Value>;
      annotated, next := DecodeUnsigned(data, next, e.annotated);
      size, next := DecodeUnsigned(data, next, e.size);
      names, values, next := ReadPairs(data, next, size, e);
      v := Ann(annotated, names, values);
    } else if kind == NULL {
      v := NullValue;
    } else if kind == BOOLEAN {
      v := Bool(length != 0);
    } else if kind == BYTE || kind == SHORT || kind == CHAR || kind == INT || kind == LONG || kind == FLOAT
              || kind == DOUBLE || METHOD_TYPE <= kind <= ENUM {
      var n: int;
      n, next := ReadNumber(data, next, kind, length, e.b);
      v := Num(kind, n);
    } else {
      v := Empty(kind);
    }
  }

  method ReadItems(data: seq<byte>, at: nat, size: nat, ghost e: Enc) returns (values: seq<Value>, next: nat)
    requires WellFormed(e) && e.Array? && size == |e.items| && Holds(data, at, Items(e, size))
    ensures values == Meanings(e, size) && next == at + |Items(e, size)|
    decreases e, 1
  {
    values, next := [], at;
    for i := 0 to size
      invariant values == Meanings(e, i) && next == at + |Items(e, i)|
    {
      hide Items, Holds, Encode, Meaning;
      ItemHeld(data, at, e, i, size);
      var v;
      v, next := ReadEncodedValue(data, next, e.items[i]);
      values := values + [v];
    }
  }

  method ReadPairs(data: seq<byte>, at: nat, size: nat, ghost e: Enc)
    returns (names: seq<nat>, values: seq<Value>, next: nat)
    requires WellFormed(e) && e.Annotation? && size == |e.items| && Holds(data, at, Items(e, size))
    ensures names == NamesOf(e.names, size) && values == Meanings(e, size) && next == at + |Items(e, size)|
    decreases e, 1
  {
    names, values, next := [], [], at;
    NothingRead(e);
    for i := 0 to size
      invariant names == NamesOf(e.names, i) && values == Meanings(e, i) && next == at + |Items(e, i)|
    {
      hide Items, Holds, Encode, Meaning, Meanings, NamesOf, Unsigned, WellFormed;
      var name: nat, v;
      name, v, next := ReadPair(data, at, next, i, e);
      names := names + [name];
      values := values + [v];
      PairNext(e, i);
    }
  }

  lemma NothingRead(e: Enc)
    requires WellFormed(e) && e.Annotation?
    ensures NamesOf(e.names, 0) == [] && Meanings(e, 0) == [] && Items(e, 0) == []
  {
  }

  lemma PairNext(e: Enc, i: nat)
    requires WellFormed(e) && e.Annotation? && i < |e.items|
    ensures i < |e.names| && WellFormed(e.items[i])
    ensures NamesOf(e.names, i + 1) == NamesOf(e.names, i) + [Unsigned(e.names[i])]
    ensures Meanings(e, i + 1) == Meanings(e, i) + [Meaning(e.items[i])]
  {
    hide Meaning, Unsigned;
  }

  // One name with its value.
  method ReadPair(data: seq<byte>, at: nat, from: nat, i: nat, ghost e: Enc) returns (name: nat, v: Value, next: nat)
    requires WellFormed(e) && e.Annotation? && i < |e.items| && Holds(data, at, Items(e, |e.items|))
    requires from == at + |Items(e, i)|
    ensures i < |e.names| && WellFormed(e.items[i])
    ensures name == Unsigned(e.names[i]) && v == Meaning(e.items[i]) && next == at + |Items(e, i + 1)|
    decreases e, 0
  {
    hide Items, Holds, Encode, Meaning, Unsigned;
    ItemHeld(data, at, e, i, |e.items|);
    name, next := DecodeUnsigned(data, from, e.names[i]);
    v, next := ReadEncodedValue(data, next, e.items[i]);
  }
}
