/** Rounding to an alignment, bytes and words, as used by every layout pass. */
module Align {

  type pos = n: int | 0 < n witness 1

  type byte = b: int | 0 <= b < 256

  type half = h: int | 0 <= h < 0x1_0000

  type word = w: int | 0 <= w < 0x1_0000_0000

  // The address of an array, standing for its contents.
  type Ptr = nat

  const U32: int := 0x1_0000_0000
  const PAGE_SIZE: pos := 4096

  function Pow2(k: nat): (p: pos) {
    if k == 0 then 1 else 2 * Pow2(k - 1)
  }

  function ShiftRight(v: nat, k: nat): nat {
    if k == 0 then v else ShiftRight(v / 2, k - 1)
  }

  /** The least multiple of `n` that is not below `x`. */
  function RoundUp(x: nat, n: pos): (r: nat)
    ensures x <= r < x + n
    ensures r % n == 0
    ensures x % n == 0 ==> r == x
  {
    RoundUpIsMultiple(x, n);
    if x % n == 0 then x else x + (n - x % n)
  }

  lemma RoundUpIsMultiple(x: nat, n: pos)
    ensures x % n != 0 ==> (x + (n - x % n)) % n == 0
  {
    if x % n != 0 {
      var q := x / n;
      assert x + (n - x % n) == (q + 1) * n;
      MultipleHasNoRemainder(q + 1, n);
    }
  }

  lemma MultipleHasNoRemainder(q: int, n: pos)
    ensures (q * n) % n == 0
  {
    var r, d := (q * n) % n, (q * n) / n;
    assert (q - d) * n == r;
    OnlyZeroMultipleBelow(q - d, n);
  }

  lemma OnlyZeroMultipleBelow(k: int, n: pos)
    requires 0 <= k * n < n
    ensures k == 0
  {
  }

  lemma DivideMultiple(k: int, n: pos)
    ensures k * n / n == k
  {
    MultipleHasNoRemainder(k, n);
    var d := k * n / n;
    assert (k - d) * n == 0;
    OnlyZeroMultipleBelow(k - d, n);
  }

  lemma PositiveTimes(k: int, n: pos)
    requires k >= 1
    ensures k * n >= n
  {
    assert (k - 1) * n >= 0;
  }

  /** Shifting up to a word of `total` codes and back down, both signed, extends the sign of `v`. */
  lemma ShiftExtendsSign(v: nat, size: pos, scale: pos, total: pos)
    requires v < size && size % 2 == 0 && size * scale == total
    ensures (if v * scale >= total / 2 then v * scale - total else v * scale) / scale ==
      if v >= size / 2 then v - size else v
  {
    var half := size / 2;
    assert half * scale * 2 == total;
    if v >= half {
      assert v * scale == half * scale + (v - half) * scale;
      assert (v - half) * scale >= 0;
      assert v * scale - total == (v - size) * scale;
      DivideMultiple(v - size, scale);
    } else {
      PositiveTimes(half - v, scale);
      assert v * scale == half * scale - (half - v) * scale;
      DivideMultiple(v, scale);
    }
  }

  lemma PositiveMultiple(k: int, n: pos)
    requires k * n > 0
    ensures k >= 1 && (k - 1) * n >= 0
  {
  }

  lemma MultipleOrder(a: int, b: int, n: pos)
    requires (a - 1) * n < b * n
    ensures a * n <= b * n
  {
    assert (b - a + 1) * n == b * n - (a - 1) * n;
    PositiveMultiple(b - a + 1, n);
    assert (b - a) * n == b * n - a * n;
  }

  lemma QuotientTimes(x: nat, n: pos)
    requires x % n == 0
    ensures x == x / n * n
  {
  }

  /** A multiple of `n` at or above `x` is at or above `RoundUp(x, n)`. */
  lemma RoundUpIsLeast(x: nat, y: nat, n: pos)
    requires x <= y && y % n == 0
    ensures RoundUp(x, n) <= y
  {
    var r := RoundUp(x, n);
    QuotientTimes(r, n);
    QuotientTimes(y, n);
    MultipleOrder(r / n, y / n, n);
  }

  lemma RoundUpMonotone(x: nat, y: nat, n: pos)
    requires x <= y
    ensures RoundUp(x, n) <= RoundUp(y, n)
  {
    RoundUpIsLeast(x, RoundUp(y, n), n);
  }

  lemma RemainderIs(k: int, r: nat, n: pos)
    requires r < n
    ensures (k * n + r) % n == r
  {
    var x := k * n + r;
    var d := x / n;
    assert (k - d) * n == x % n - r;
    assert (d - k) * n == r - x % n;
    if x % n >= r {
      OnlyZeroMultipleBelow(k - d, n);
    } else {
      OnlyZeroMultipleBelow(d - k, n);
    }
  }

  /** Adding a multiple does not change the remainder. */
  lemma AddMultiple(a: nat, b: nat, n: pos)
    requires a % n == 0
    ensures (a + b) % n == b % n
  {
    QuotientTimes(a, n);
    assert a + b == (a / n + b / n) * n + b % n;
    RemainderIs(a / n + b / n, b % n, n);
  }

  /** `n` bytes skipped by a seek read back as zero. */
  function Zeros(n: nat): (z: seq<byte>)
    ensures |z| == n
  {
    seq(n, _ => 0)
  }

  /** Little-endian 32-bit word. */
  function Word(v: nat): (w: seq<byte>)
    ensures |w| == 4
  {
    [v % 0x100, v / 0x100 % 0x100, v / 0x100 / 0x100 % 0x100, v / 0x100 / 0x100 / 0x100 % 0x100]
  }

  function ReadWord(s: seq<byte>, at: nat): (v: nat)
    requires at + 4 <= |s|
  {
    var a: int, b: int, c: int, d: int := s[at], s[at + 1], s[at + 2], s[at + 3];
    a + 0x100 * b + 0x1_0000 * c + 0x100_0000 * d
  }

  /** A word below 2^32 reads back wherever it was placed. */
  lemma WordReadsBack(s: seq<byte>, at: nat, v: nat)
    requires at + 4 <= |s| && v < 0x1_0000_0000
    requires s[at..at + 4] == Word(v)
    ensures ReadWord(s, at) == v
  {
    var w := s[at..at + 4];
    assert w[0] == s[at] && w[1] == s[at + 1] && w[2] == s[at + 2] && w[3] == s[at + 3];
    var a := v / 0x100;
    var b := a / 0x100;
    var c := b / 0x100;
    assert v == 0x100 * a + w[0] && a == 0x100 * b + w[1] && b == 0x100 * c + w[2];
    assert c < 0x100;
  }

  function Half(v: nat): (b: seq<byte>)
    ensures |b| == 2
  {
    [v % 0x100, v / 0x100 % 0x100]
  }

  function ReadHalf(s: seq<byte>, at: nat): (v: half)
    requires at + 2 <= |s|
  {
    var low: int, high: int := s[at], s[at + 1];
    low + 0x100 * high
  }

  /** The bytes of `item` are found in `out` from `at` on. */
  ghost predicate Holds(out: seq<byte>, at: nat, item: seq<byte>) {
    at + |item| <= |out| && forall k :: 0 <= k < |item| ==> out[at + k] == item[k]
  }

  lemma HoldsPersists(out: seq<byte>, more: seq<byte>, at: nat, item: seq<byte>)
    requires Holds(out, at, item) && out <= more
    ensures Holds(more, at, item)
  {
  }

  lemma HoldsAtEnd(front: seq<byte>, item: seq<byte>)
    ensures Holds(front + item, |front|, item)
  {
  }

  lemma HoldsFits(s: seq<byte>, at: nat, item: seq<byte>)
    requires Holds(s, at, item)
    ensures at + |item| <= |s|
  {
  }

  lemma HoldsPart(s: seq<byte>, at: nat, a: seq<byte>, b: seq<byte>, c: seq<byte>)
    requires Holds(s, at, a + b + c)
    ensures Holds(s, at, a) && Holds(s, at + |a|, b) && Holds(s, at + |a| + |b|, c)
  {
    var all := a + b + c;
    forall k | 0 <= k < |b|
      ensures s[at + |a| + k] == b[k]
    {
      assert all[|a| + k] == b[k];
    }
    forall k | 0 <= k < |c|
      ensures s[at + |a| + |b| + k] == c[k]
    {
      assert all[|a| + |b| + k] == c[k];
    }
    assert forall k :: 0 <= k < |a| ==> all[k] == a[k];
  }

  lemma HoldsTwo(s: seq<byte>, at: nat, a: seq<byte>, b: seq<byte>)
    requires Holds(s, at, a + b)
    ensures Holds(s, at, a) && Holds(s, at + |a|, b)
  {
    var all := a + b;
    assert forall k :: 0 <= k < |a| ==> all[k] == a[k];
    assert forall k :: 0 <= k < |b| ==> all[|a| + k] == b[k];
    forall k | 0 <= k < |b|
      ensures s[at + |a| + k] == b[k]
    {
      assert s[at + (|a| + k)] == all[|a| + k];
    }
  }

  lemma HoldsInside(s: seq<byte>, at: nat, outer: seq<byte>, off: nat, item: seq<byte>)
    requires Holds(s, at, outer) && Holds(outer, off, item)
    ensures Holds(s, at + off, item)
  {
    forall k | 0 <= k < |item|
      ensures s[at + off + k] == item[k]
    {
      assert s[at + (off + k)] == outer[off + k];
    }
  }

  lemma HeldHalf(s: seq<byte>, at: nat, v: nat)
    requires Holds(s, at, Half(v)) && v < 0x1_0000
    ensures at + 2 <= |s| && ReadHalf(s, at) == v
  {
    var h := Half(v);
    assert s[at + 0] == h[0] && s[at + 1] == h[1];
  }

  lemma HeldWord(s: seq<byte>, at: nat, v: nat)
    requires Holds(s, at, Word(v)) && v < 0x1_0000_0000
    ensures at + 4 <= |s| && ReadWord(s, at) == v
  {
    var w := Word(v);
    assert s[at + 0] == w[0] && s[at + 1] == w[1] && s[at + 2] == w[2] && s[at + 3] == w[3];
    WordReadsBack(s, at, v);
  }
}
