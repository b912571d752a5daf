/** Per-class vectors and the single traversal order they make up together. */
module Flatten {

  /** The vectors of the first `n` classes, one after the other. */
  function Concat<T>(ss: seq<seq<T>>, n: nat): seq<T>
    requires n <= |ss|
  {
    if n == 0 then [] else Concat(ss, n - 1) + ss[n - 1]
  }

  // Where the vector of class `c` starts in the traversal order.
  function Base<T>(ss: seq<seq<T>>, c: nat): nat
    requires c <= |ss|
  {
    |Concat(ss, c)|
  }

  lemma {:induction false} ConcatGrows<T>(ss: seq<seq<T>>, c: nat, n: nat)
    requires c <= n <= |ss|
    ensures Concat(ss, c) <= Concat(ss, n)
    decreases n - c
  {
    if c < n { ConcatGrows(ss, c, n - 1); }
  }

  /** Element `k` of class `c` is element `Base(c) + k` of the traversal. */
  lemma ConcatAt<T>(ss: seq<seq<T>>, c: nat, k: nat, n: nat)
    requires c < n <= |ss| && k < |ss[c]|
    ensures Base(ss, c) + k < |Concat(ss, n)| && Concat(ss, n)[Base(ss, c) + k] == ss[c][k]
  {
    ConcatGrows(ss, c + 1, n);
    assert Concat(ss, c + 1)[Base(ss, c) + k] == ss[c][k];
  }

  lemma {:induction false} ConcatPart<T>(ss: seq<seq<T>>, n: nat, i: nat) returns (c: nat, k: nat)
    requires n <= |ss| && i < |Concat(ss, n)|
    ensures c < n && k < |ss[c]| && Concat(ss, n)[i] == ss[c][k]
    decreases n
  {
    if i < |Concat(ss, n - 1)| {
      c, k := ConcatPart(ss, n - 1, i);
    } else {
      c, k := n - 1, i - |Concat(ss, n - 1)|;
    }
  }

  /** Cutting a flat sequence at class boundaries; the inverse of `Concat`. */
  function Cut<T, U>(ss: seq<seq<T>>, flat: seq<U>, c: nat): (cut: seq<U>)
    requires c < |ss| && |flat| == |Concat(ss, |ss|)|
    ensures |cut| == |ss[c]|
    ensures forall k :: 0 <= k < |ss[c]| ==> Base(ss, c) + k < |flat| && cut[k] == flat[Base(ss, c) + k]
  {
    ConcatGrows(ss, c + 1, |ss|);
    flat[Base(ss, c)..Base(ss, c + 1)]
  }

  lemma CutMembers<T, U>(ss: seq<seq<T>>, flat: seq<U>, c: nat)
    requires c < |ss| && |flat| == |Concat(ss, |ss|)|
    ensures forall u :: u in Cut(ss, flat, c) ==> u in flat
  {
    hide Concat;
  }
}
