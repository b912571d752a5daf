/** The length of a debug_info_item, found by decoding it up to its end marker. */
module DebugInfo {
  import opened Align
  import opened Leb128

  const END_SEQUENCE: byte := 0

  // How many LEB128 operands an opcode has; special opcodes have none.
  function Arity(code: byte): nat {
    if code == 1 || code == 2 || code == 5 || code == 6 || code == 9 then 1
    else if code == 3 then 3
    else if code == 4 then 4
    else 0
  }

  datatype Op = Op(code: byte, args: seq<Leb>) {
    predicate Valid() { code != END_SEQUENCE && |args| == Arity(code) }
  }

  datatype Item = Item(lineStart: Leb, size: Leb, names: seq<Leb>, ops: seq<Op>) {
    predicate Valid() { Unsigned(size) == |names| && forall i :: 0 <= i < |ops| ==> ops[i].Valid() }
  }

  // The first `n` numbers one after the other.
  function Lebs(ls: seq<Leb>, n: nat): seq<byte>
    requires n <= |ls|
  {
    if n == 0 then [] else Lebs(ls, n - 1) + ls[n - 1]
  }

  function Ops(ops: seq<Op>, n: nat): seq<byte>
    requires n <= |ops|
  {
    if n == 0 then [] else Ops(ops, n - 1) + OpBytes(ops[n - 1])
  }

  function OpBytes(o: Op): seq<byte> { [o.code] + Lebs(o.args, |o.args|) }

  function Bytes(d: Item): seq<byte> {
    (d.lineStart + d.size) + Lebs(d.names, |d.names|) + (Ops(d.ops, |d.ops|) + [END_SEQUENCE])
  }

  lemma {:induction false} LebHeld(data: seq<byte>, at: nat, ls: seq<Leb>, i: nat, n: nat)
    requires i < n <= |ls| && Holds(data, at, Lebs(ls, n))
    ensures Holds(data, at + |Lebs(ls, i)|, ls[i]) && |Lebs(ls, i + 1)| == |Lebs(ls, i)| + |ls[i]|
    decreases n
  {
    hide Holds;
    HoldsTwo(data, at, Lebs(ls, n - 1), ls[n - 1]);
    if i < n - 1 { LebHeld(data, at, ls, i, n - 1); }
  }

  lemma {:induction false} OpHeld(data: seq<byte>, at: nat, ops: seq<Op>, i: nat, n: nat)
    requires i < n <= |ops| && Holds(data, at, Ops(ops, n))
    ensures Holds(data, at + |Ops(ops, i)|, OpBytes(ops[i])) && |Ops(ops, i + 1)| == |Ops(ops, i)| + |OpBytes(ops[i])|
    decreases n
  {
    hide Holds, OpBytes;
    HoldsTwo(data, at, Ops(ops, n - 1), OpBytes(ops[n - 1]));
    if i < n - 1 { OpHeld(data, at, ops, i, n - 1); }
  }

  // The parts of an item.
  lemma PartsHeld(data: seq<byte>, d: Item)
    requires Holds(data, 0, Bytes(d))
    ensures Holds(data, 0, d.lineStart) && Holds(data, |d.lineStart|, d.size)
    ensures var names := |d.lineStart| + |d.size|; var ops := names + |Lebs(d.names, |d.names|)|;
      var end := ops + |Ops(d.ops, |d.ops|)|;
      && Holds(data, names, Lebs(d.names, |d.names|)) && Holds(data, ops, Ops(d.ops, |d.ops|))
      && end < |data| && data[end] == END_SEQUENCE && |Bytes(d)| == end + 1
  {
    hide Lebs, Ops;
    HoldsPart(data, 0, d.lineStart + d.size, Lebs(d.names, |d.names|), Ops(d.ops, |d.ops|) + [END_SEQUENCE]);
    HoldsTwo(data, 0, d.lineStart, d.size);
    var ops := |d.lineStart| + |d.size| + |Lebs(d.names, |d.names|)|;
    HoldsTwo(data, ops, Ops(d.ops, |d.ops|), [END_SEQUENCE]);
    assert data[ops + |Ops(d.ops, |d.ops|)| + 0] == [END_SEQUENCE][0];
  }

  // Skips `n` unsigned numbers.
  method SkipLebs(data: seq<byte>, at: nat, n: nat, ghost ls: seq<Leb>) returns (next: nat)
    requires n == |ls| && Holds(data, at, Lebs(ls, n))
    ensures next == at + |Lebs(ls, n)|
  {
    next := at;
    for i := 0 to n
      invariant next == at + |Lebs(ls, i)|
    {
      hide Holds;
      LebHeld(data, at, ls, i, n);
      var v: nat;
      v, next := DecodeUnsigned(data, next, ls[i]);
    }
  }

  // Skips the operands of one opcode; the line advance is signed.
  method SkipOperands(data: seq<byte>, at: nat, code: byte, ghost o: Op) returns (next: nat)
    requires o.Valid() && code == o.code && Holds(data, at, Lebs(o.args, |o.args|))
    ensures next == at + |Lebs(o.args, |o.args|)|
  {
    match code
    case 1 => // DBG_ADVANCE_PC
      next := SkipLebs(data, at, 1, o.args);
    case 2 => // DBG_ADVANCE_LINE
      hide Holds;
      LebHeld(data, at, o.args, 0, 1);
      var v: int;
      v, next := DecodeSigned(data, at, o.args[0]);
    case 3 => // DBG_START_LOCAL
      next := SkipLebs(data, at, 3, o.args);
    case 4 => // DBG_START_LOCAL_EXTENDED
      next := SkipLebs(data, at, 4, o.args);
    case 5 => // DBG_END_LOCAL
      next := SkipLebs(data, at, 1, o.args);
    case 6 => // DBG_RESTART_LOCAL
      next := SkipLebs(data, at, 1, o.args);
    case 9 => // DBG_SET_FILE
      next := SkipLebs(data, at, 1, o.args);
    case _ =>
      next := at;
  }

  /**
   For every item, followed by any bytes, the size found is the length of its encoding; in
   particular a zero byte inside an operand is never taken for the end marker.
   */
  method GetDebugInfoStreamSize(data: seq<byte>, ghost d: Item) returns (size: nat)
    requires d.Valid() && Holds(data, 0, Bytes(d))
    ensures size == |Bytes(d)|
  {
    hide Holds, Lebs, Ops, Bytes;
    PartsHeld(data, d);
    var stream: nat, parameters: nat, code: byte;
    parameters, stream := DecodeUnsigned(data, 0, d.lineStart);
    parameters, stream := DecodeUnsigned(data, stream, d.size);
    stream := SkipLebs(data, stream, parameters, d.names);
    ghost var base := stream;
    ghost var i := 0;
    assert |Ops(d.ops, 0)| == 0 by { NoOps(d.ops); }
    while true
      invariant i <= |d.ops| && stream == base + |Ops(d.ops, i)|
      decreases |d.ops| - i
    {
      if i < |d.ops| {
        OpHeld(data, base, d.ops, i, |d.ops|);
        CodeHeld(data, stream, d.ops[i]);
      }
      code := data[stream];
      stream := stream + 1;
      if code == END_SEQUENCE {
        return stream;
      }
      stream := SkipOperands(data, stream, code, d.ops[i]);
      i := i + 1;
    }
  }

  lemma NoOps(ops: seq<Op>)
    ensures |Ops(ops, 0)| == 0
  {
  }

  lemma CodeHeld(data: seq<byte>, at: nat, o: Op)
    requires Holds(data, at, OpBytes(o))
    ensures at < |data| && data[at] == o.code && Holds(data, at + 1, Lebs(o.args, |o.args|))
    ensures |OpBytes(o)| == 1 + |Lebs(o.args, |o.args|)|
  {
    hide Lebs;
    HoldsTwo(data, at, [o.code], Lebs(o.args, |o.args|));
    assert data[at + 0] == [o.code][0];
  }
}
