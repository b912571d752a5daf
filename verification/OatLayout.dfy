/**
 Layout of a run of items with given sizes and alignments: class offset arrays, oat classes, bss
 mappings, oat dex file records and trampolines are all planned and written this way.
 */
module OatLayout {
  import opened Align

  // Size and alignment of one item; an item of size zero takes part in the alignment as well.
  datatype Chunk = Chunk(align: pos, size: nat)

  /** The cursor before item `i` is aligned. */
  function Cursor(cs: seq<Chunk>, start: nat, i: nat): (o: nat)
    requires i <= |cs|
    ensures o >= start
    decreases i, 0
  {
    if i == 0 then start else Place(cs, start, i - 1) + cs[i - 1].size
  }

  /** Where item `i` goes. */
  function Place(cs: seq<Chunk>, start: nat, i: nat): (o: nat)
    requires i < |cs|
    ensures o >= start
    decreases i, 1
  {
    RoundUp(Cursor(cs, start, i), cs[i].align)
  }

  function End(cs: seq<Chunk>, start: nat): nat {
    Cursor(cs, start, |cs|)
  }

  lemma NextCursor(cs: seq<Chunk>, start: nat, i: nat)
    requires i < |cs|
    ensures Cursor(cs, start, 0) == start
    ensures Cursor(cs, start, i + 1) == Place(cs, start, i) + cs[i].size
    ensures Place(cs, start, i) == RoundUp(Cursor(cs, start, i), cs[i].align)
    ensures cs[i].align == 1 ==> Place(cs, start, i) == Cursor(cs, start, i)
  {
  }

  lemma NoCursor(cs: seq<Chunk>, start: nat)
    ensures Cursor(cs, start, 0) == start
  {
  }

  // Alignment gaps are zero, whether written or skipped by a seek.
  function WriteItems(cs: seq<Chunk>, items: seq<seq<byte>>, before: seq<byte>, i: nat): (out: seq<byte>)
    requires i <= |cs| == |items|
    decreases i
  {
    if i == 0 then before else
      var o := WriteItems(cs, items, before, i - 1);
      o + Zeros(RoundUp(|o|, cs[i - 1].align) - |o|) + items[i - 1]
  }

  /** Items of the planned sizes are written at the planned places. */
  lemma {:induction false} ItemsLand(cs: seq<Chunk>, items: seq<seq<byte>>, before: seq<byte>, i: nat)
    requires i <= |cs| == |items| && forall j :: 0 <= j < |cs| ==> |items[j]| == cs[j].size
    ensures var out := WriteItems(cs, items, before, i);
      && |out| == Cursor(cs, |before|, i)
      && before <= out
      && forall j :: 0 <= j < i ==> Holds(out, Place(cs, |before|, j), items[j])
    decreases i
  {
    hide RoundUp, Holds;
    if i > 0 {
      ItemsLand(cs, items, before, i - 1);
      var o := WriteItems(cs, items, before, i - 1);
      var out := WriteItems(cs, items, before, i);
      var padded := o + Zeros(RoundUp(|o|, cs[i - 1].align) - |o|);
      assert out == padded + items[i - 1];
      HoldsAtEnd(padded, items[i - 1]);
      forall j | 0 <= j < i
        ensures Holds(out, Place(cs, |before|, j), items[j])
      {
        if j < i - 1 {
          HoldsPersists(o, out, Place(cs, |before|, j), items[j]);
        }
      }
    }
  }

  lemma {:induction false} CursorGrows(cs: seq<Chunk>, start: nat, i: nat, j: nat)
    requires i <= j <= |cs|
    ensures Cursor(cs, start, i) <= Cursor(cs, start, j)
    decreases j - i
  {
    if i < j {
      CursorGrows(cs, start, i, j - 1);
    }
  }

  /** Items do not overlap and keep their order. */
  lemma ItemsDisjoint(cs: seq<Chunk>, start: nat, i: nat, j: nat)
    requires i < j < |cs|
    ensures Place(cs, start, i) + cs[i].size <= Place(cs, start, j)
    ensures Place(cs, start, j) + cs[j].size <= End(cs, start)
    ensures Place(cs, start, i) % cs[i].align == 0
  {
    CursorGrows(cs, start, i + 1, j);
    CursorGrows(cs, start, j + 1, |cs|);
  }
}
