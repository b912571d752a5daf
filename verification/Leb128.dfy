/**
 LEB128 numbers as dex files use them: up to five bytes of seven bits, least significant first, each
 but the last with its top bit set.
 */
module Leb128 {
  import opened Align

  /** The byte sequences that encode one number. Longer forms than necessary are allowed. */
  predicate IsLeb(b: seq<byte>) {
    && 1 <= |b| <= 5
    && (forall k :: 0 <= k < |b| - 1 ==> b[k] > 0x7f)
    && (|b| < 5 ==> b[|b| - 1] <= 0x7f)
  }

  type Leb = b: seq<byte> | IsLeb(b) witness [0]

  function Low7(b: byte): (v: nat)
    ensures v < 128
  {
    var x: int := b; x % 128
  }

  function Low4(b: byte): (v: nat)
    ensures v < 16
  {
    var x: int := b; x % 16
  }

  // Only four bits of a fifth byte fit.
  function Unsigned(b: Leb): (v: nat)
    ensures v < 0x1_0000_0000
    ensures |b| == 1 ==> v < 128
    ensures |b| == 2 ==> v < 16384
    ensures |b| == 3 ==> v < 2097152
    ensures |b| == 4 ==> v < 268435456
  {
    Low7(b[0])
    + (if |b| > 1 then 128 * Low7(b[1]) else 0)
    + (if |b| > 2 then 16384 * Low7(b[2]) else 0)
    + (if |b| > 3 then 2097152 * Low7(b[3]) else 0)
    + (if |b| > 4 then 268435456 * Low4(b[4]) else 0)
  }

  function Wrap(x: nat, size: pos): int {
    if x >= size / 2 then x - size else x
  }

  // The last bit present is the sign.
  function Signed(b: Leb): int {
    if |b| == 1 then Wrap(Unsigned(b), 128)
    else if |b| == 2 then Wrap(Unsigned(b), 16384)
    else if |b| == 3 then Wrap(Unsigned(b), 2097152)
    else if |b| == 4 then Wrap(Unsigned(b), 268435456)
    else Wrap(Unsigned(b), 0x1_0000_0000)
  }

  // ---------- decoding ----------

  /** Reads the number that starts at `at`, whatever follows it. */
  method DecodeUnsigned(data: seq<byte>, at: nat, ghost b: Leb) returns (v: nat, next: nat)
    requires Holds(data, at, b)
    ensures v == Unsigned(b) && next == at + |b|
  {
    hide Low7, Low4;
    HeldByte(data, at, b, 0);
    next := at + 1;
    v := Low7(data[at]);
    if data[at] > 0x7f {
      HeldByte(data, at, b, 1);
      var cur := data[next];
      next := next + 1;
      v := v + 128 * Low7(cur);
      if cur > 0x7f {
        HeldByte(data, at, b, 2);
        cur := data[next];
        next := next + 1;
        v := v + 16384 * Low7(cur);
        if cur > 0x7f {
          HeldByte(data, at, b, 3);
          cur := data[next];
          next := next + 1;
          v := v + 2097152 * Low7(cur);
          if cur > 0x7f {
            HeldByte(data, at, b, 4);
            cur := data[next];
            next := next + 1;
            v := v + 268435456 * Low4(cur);
          }
        }
      }
    }
  }

  // The continuation bit tells whether there is another byte.
  lemma HeldByte(data: seq<byte>, at: nat, b: Leb, k: nat)
    requires Holds(data, at, b) && k < |b|
    ensures at + k < |data| && data[at + k] == b[k]
    ensures k < 4 ==> (b[k] > 0x7f <==> k + 1 < |b|)
  {
  }

  // A 32-bit signed shift up and back down, by the power of two `scale`.
  function ShiftUpDown(v: nat, scale: pos): int {
    var up := v * scale;
    (if up >= 0x8000_0000 then up - 0x1_0000_0000 else up) / scale
  }

  /** It extends the sign of a value of `size` codes. */
  lemma ShiftIsWrap(v: nat, size: pos, scale: pos)
    requires v < size && size % 2 == 0 && size * scale == 0x1_0000_0000
    ensures ShiftUpDown(v, scale) == Wrap(v, size)
  {
    ShiftExtendsSign(v, size, scale, 0x1_0000_0000);
  }

  method DecodeSigned(data: seq<byte>, at: nat, ghost b: Leb) returns (v: int, next: nat)
    requires Holds(data, at, b)
    ensures v == Signed(b) && next == at + |b|
  {
    hide Low7, Low4, ShiftUpDown;
    HeldByte(data, at, b, 0);
    next := at + 1;
    var raw := Low7(data[at]);
    if data[at] <= 0x7f {
      ShiftIsWrap(raw, 128, 33554432);
      v := ShiftUpDown(raw, 33554432);
    } else {
      HeldByte(data, at, b, 1);
      var cur := data[next];
      next := next + 1;
      raw := raw + 128 * Low7(cur);
      if cur <= 0x7f {
        ShiftIsWrap(raw, 16384, 262144);
        v := ShiftUpDown(raw, 262144);
      } else {
        HeldByte(data, at, b, 2);
        cur := data[next];
        next := next + 1;
        raw := raw + 16384 * Low7(cur);
        if cur <= 0x7f {
          ShiftIsWrap(raw, 2097152, 2048);
          v := ShiftUpDown(raw, 2048);
        } else {
          HeldByte(data, at, b, 3);
          cur := data[next];
          next := next + 1;
          raw := raw + 2097152 * Low7(cur);
          if cur <= 0x7f {
            ShiftIsWrap(raw, 268435456, 16);
            v := ShiftUpDown(raw, 16);
          } else {
            HeldByte(data, at, b, 4);
            cur := data[next];
            next := next + 1;
            raw := raw + 268435456 * Low4(cur);
            v := if raw >= 0x8000_0000 then raw - 0x1_0000_0000 else raw;
          }
        }
      }
    }
  }

  // ---------- encoding ----------

  // What the bytes so far, the pending bits and the remaining value stand for together.
  ghost predicate Split(v: nat, b: seq<byte>, out: nat, rest: nat) {
    && out < 128 && (forall k :: 0 <= k < |b| ==> b[k] > 0x7f)
    && match |b|
       case 0 => v == out + 128 * rest && rest < 33554432
       case 1 => v == Low7(b[0]) + 128 * (out + 128 * rest) && rest < 262144
       case 2 => v == Low7(b[0]) + 128 * Low7(b[1]) + 16384 * (out + 128 * rest) && rest < 2048
       case 3 => v == Low7(b[0]) + 128 * Low7(b[1]) + 16384 * Low7(b[2]) + 2097152 * (out + 128 * rest) && rest < 16
       case 4 => v == Low7(b[0]) + 128 * Low7(b[1]) + 16384 * Low7(b[2]) + 2097152 * Low7(b[3]) + 268435456 * out &&
         rest == 0 && out < 16
       case _ => false
  }

  lemma SplitNext(v: nat, b: seq<byte>, out: nat, rest: nat)
    requires Split(v, b, out, rest) && rest != 0
    ensures Split(v, b + [out + 128], rest % 128, rest / 128)
  {
    assert Low7(out + 128) == out;
    hide Low7;
  }

  lemma SplitEnd(v: nat, b: seq<byte>, out: nat)
    requires Split(v, b, out, 0)
    ensures IsLeb(b + [out]) && Unsigned(b + [out]) == v
  {
    assert Low7(out) == out && (out < 16 ==> Low4(out) == out);
    hide Low7, Low4;
  }

  /** The writer's encoding is one that the reader turns back into the value. */
  method EncodeUnsigned(v: nat) returns (b: seq<byte>)
    requires v < 0x1_0000_0000
    ensures IsLeb(b) && Unsigned(b) == v
  {
    b := [];
    var out: nat := v % 128;
    var value: nat := v / 128;
    while value != 0
      invariant Split(v, b, out, value)
      decreases value
    {
      hide Split;
      SplitNext(v, b, out, value);
      SplitSmall(v, b, out, value);
      b := b + [out + 128];
      out := value % 128;
      value := value / 128;
    }
    SplitEnd(v, b, out);
    b := b + [out];
  }

  lemma SplitSmall(v: nat, b: seq<byte>, out: nat, rest: nat)
    requires Split(v, b, out, rest)
    ensures out < 128
  {
  }

  // The value as its 32 bits, its sign spread over seven more bits, and what is left of them.
  ghost predicate SplitSigned(v: int, b: seq<byte>, value: int, extra: nat) {
    && (forall k :: 0 <= k < |b| ==> b[k] > 0x7f)
    && extra == (if value >= 0 then value else -1 - value) / 64
    && match |b|
       case 0 => v == value && -0x8000_0000 <= value < 0x8000_0000
       case 1 => v == Low7(b[0]) + 128 * value && -0x100_0000 <= value < 0x100_0000
       case 2 => v == Low7(b[0]) + 128 * Low7(b[1]) + 16384 * value && -0x2_0000 <= value < 0x2_0000
       case 3 => v == Low7(b[0]) + 128 * Low7(b[1]) + 16384 * Low7(b[2]) + 2097152 * value && -1024 <= value < 1024
       case 4 => v == Low7(b[0]) + 128 * Low7(b[1]) + 16384 * Low7(b[2]) + 2097152 * Low7(b[3]) + 268435456 * value
                 && -8 <= value < 8
       case _ => false
  }

  lemma ExtraNext(value: int)
    ensures var next := value / 128;
      (if value >= 0 then value else -1 - value) / 64 / 128 == (if next >= 0 then next else -1 - next) / 64
  {
    if value < 0 { assert -1 - value / 128 == (-1 - value) / 128; }
  }

  lemma SplitSignedNext(v: int, b: seq<byte>, value: int, extra: nat)
    requires SplitSigned(v, b, value, extra) && extra != 0
    ensures SplitSigned(v, b + [value % 128 + 128], value / 128, extra / 128)
  {
    assert Low7(value % 128 + 128) == value % 128;
    hide Low7;
    ExtraNext(value);
    assert value == value % 128 + 128 * (value / 128);
  }

  // The value that a last byte completes.
  lemma LastByte(b: seq<byte>, x: nat)
    requires |b| <= 4 && x < 128 && forall k :: 0 <= k < |b| ==> b[k] > 0x7f
    ensures IsLeb(b + [x])
    ensures Signed(b + [x]) ==
      match |b|
      case 0 => Wrap(x, 128)
      case 1 => Wrap(Low7(b[0]) + 128 * x, 16384)
      case 2 => Wrap(Low7(b[0]) + 128 * Low7(b[1]) + 16384 * x, 2097152)
      case 3 => Wrap(Low7(b[0]) + 128 * Low7(b[1]) + 16384 * Low7(b[2]) + 2097152 * x, 268435456)
      case _ => Wrap(Low7(b[0]) + 128 * Low7(b[1]) + 16384 * Low7(b[2]) + 2097152 * Low7(b[3]) + 268435456 * (x % 16),
                     0x1_0000_0000)
  {
    assert Low7(x) == x && Low4(x) == x % 16;
    hide Low7, Low4, Wrap;
  }

  lemma TimesMore(a: int, b: int, scale: pos)
    requires a <= b
    ensures scale * a <= scale * b
  {
    assert scale * (b - a) >= 0;
  }

  // The bits above `scale` wrap around at `half`.
  lemma WrapTop(low: nat, scale: pos, value: int, x: nat, half: pos)
    requires low < scale && -(half as int) <= value < half && x == if value >= 0 then value else value + 2 * half
    ensures Wrap(low + scale * x, 2 * (scale * half)) == low + scale * value
  {
    if value >= 0 {
      TimesMore(value + 1, half, scale);
    } else {
      TimesMore(half, x, scale);
      assert scale * x == scale * value + 2 * (scale * half);
    }
  }

  lemma Residues(value: int)
    requires -64 <= value < 64
    ensures value % 128 == if value >= 0 then value else value + 128
    ensures -8 <= value < 8 ==> value % 128 % 16 == if value >= 0 then value else value + 16
  {
  }

  lemma SplitSignedEnd(v: int, b: seq<byte>, value: int)
    requires SplitSigned(v, b, value, 0)
    ensures IsLeb(b + [value % 128]) && Signed(b + [value % 128]) == v
  {
    assert -64 <= value < 64;
    Residues(value);
    var x := value % 128;
    LastByte(b, x);
    hide Low7, IsLeb, Signed, Wrap;
    if |b| == 0 {
      WrapTop(0, 1, value, x, 64);
    } else if |b| == 1 {
      WrapTop(Low7(b[0]), 128, value, x, 64);
    } else if |b| == 2 {
      WrapTop(Low7(b[0]) + 128 * Low7(b[1]), 16384, value, x, 64);
    } else if |b| == 3 {
      WrapTop(Low7(b[0]) + 128 * Low7(b[1]) + 16384 * Low7(b[2]), 2097152, value, x, 64);
    } else {
      WrapTop(Low7(b[0]) + 128 * Low7(b[1]) + 16384 * Low7(b[2]) + 2097152 * Low7(b[3]), 268435456, value, x % 16, 8);
    }
  }

  /** The same for signed values. */
  method EncodeSigned(v: int) returns (b: seq<byte>)
    requires -0x8000_0000 <= v < 0x8000_0000
    ensures IsLeb(b) && Signed(b) == v
  {
    b := [];
    var value := v;
    var extra: nat := (if v >= 0 then v else -1 - v) / 64;
    while extra != 0
      invariant SplitSigned(v, b, value, extra)
      decreases extra
    {
      hide SplitSigned;
      SplitSignedNext(v, b, value, extra);
      b := b + [value % 128 + 128];
      value := value / 128;
      extra := extra / 128;
    }
    SplitSignedEnd(v, b, value);
    b := b + [value % 128];
  }
}
