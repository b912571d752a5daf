/**
 The control flow graph that dexdump draws: branch targets, basic blocks, and three kinds of edges
 found in passes over the instructions.
 */
module CfgDump {
  import opened Align

  datatype Kind = Branch(offset: int, conditional: bool) | Switch(offsets: seq<int>) | Return | Throw | Plain

  // `handlers` are the addresses of the catch handlers in effect at the instruction.
  datatype Inst = Inst(size: pos, kind: Kind, handlers: seq<nat>) {
    predicate EndsBlock() { kind.Branch? || kind.Return? || kind.Throw? }
    predicate FallsThrough() { !(kind.Return? || kind.Throw? || (kind.Branch? && !kind.conditional)) }
    function Offsets(): seq<int> {
      if kind.Branch? then [kind.offset] else if kind.Switch? then kind.offsets else []
    }
  }

  type Code = seq<Inst>

  function Pc(code: Code, i: nat): nat
    requires i <= |code|
  {
    if i == 0 then 0 else Pc(code, i - 1) + code[i - 1].size
  }

  lemma {:induction false} PcGrows(code: Code, i: nat, j: nat)
    requires i < j <= |code|
    ensures Pc(code, i) < Pc(code, j)
    decreases j
  {
    if i < j - 1 { PcGrows(code, i, j - 1); }
  }

  lemma PcInjective(code: Code, i: nat, j: nat)
    requires i <= |code| && j <= |code|
    ensures Pc(code, i) == Pc(code, j) <==> i == j
  {
    if i < j { PcGrows(code, i, j); } else if j < i { PcGrows(code, j, i); }
  }

  // Addresses are 32-bit.
  function Target(pc: nat, offset: int): nat { (pc + offset) % U32 }

  // ---------- branch targets ----------

  ghost predicate TargetOf(code: Code, i: nat, t: nat)
    requires i < |code|
  {
    exists k :: 0 <= k < |code[i].Offsets()| && t == Target(Pc(code, i), code[i].Offsets()[k])
  }

  ghost predicate IsTarget(code: Code, t: nat) {
    exists i :: 0 <= i < |code| && TargetOf(code, i, t)
  }

  method BranchTargets(code: Code) returns (targets: set<nat>)
    ensures forall t :: t in targets <==> IsTarget(code, t)
  {
    targets := {};
    var pc := 0;
    for i := 0 to |code|
      invariant pc == Pc(code, i)
      invariant forall t :: t in targets <==> exists j :: 0 <= j < i && TargetOf(code, j, t)
    {
      var offsets := code[i].Offsets();
      ghost var before := targets;
      for k := 0 to |offsets|
        invariant forall t :: t in targets <==> t in before || exists m :: 0 <= m < k && t == Target(pc, offsets[m])
      {
        targets := targets + {Target(pc, offsets[k])};
      }
      assert forall t :: t in targets <==> t in before || TargetOf(code, i, t);
      pc := pc + code[i].size;
    }
  }

  // ---------- basic blocks ----------

  // A block starts at the entry, at a branch target, and after whatever ends local control flow.
  ghost predicate Starts(code: Code, i: nat)
    requires i < |code|
  {
    i == 0 || IsTarget(code, Pc(code, i)) || code[i - 1].kind.Switch? || code[i - 1].EndsBlock()
  }

  /** The first instruction of the block that contains instruction `i`. */
  ghost function BlockOf(code: Code, i: nat): (b: nat)
    requires i < |code|
    ensures b <= i && Starts(code, b) && forall j :: b < j <= i ==> !Starts(code, j)
  {
    if Starts(code, i) then i else BlockOf(code, i - 1)
  }

  /** Blocks are numbered in order. */
  ghost function NodeOf(code: Code, i: nat): nat
    requires i < |code|
  {
    if i == 0 then 0 else NodeOf(code, i - 1) + if Starts(code, i) then 1 else 0
  }

  lemma {:induction false} SameBlockSameNode(code: Code, i: nat)
    requires i < |code|
    ensures NodeOf(code, BlockOf(code, i)) == NodeOf(code, i)
  {
    if !Starts(code, i) { SameBlockSameNode(code, i - 1); }
  }

  ghost predicate IsPc(code: Code, n: nat, p: nat)
    requires n <= |code|
  {
    exists i :: 0 <= i < n && Pc(code, i) == p
  }

  ghost predicate NodeKnown(code: Code, i: nat, nodeId: map<nat, nat>, inclId: map<nat, nat>)
    requires i < |code|
  {
    var pc := Pc(code, i);
    && pc in inclId && inclId[pc] == NodeOf(code, i)
    && (pc in nodeId <==> Starts(code, i)) && (pc in nodeId ==> nodeId[pc] == NodeOf(code, i))
  }

  ghost predicate KeysArePcs(code: Code, n: nat, m: map<nat, nat>)
    requires n <= |code|
  {
    forall p :: p in m ==> IsPc(code, n, p)
  }

  // The two maps after the first `n` instructions.
  ghost predicate NodesAt(code: Code, n: nat, nodeId: map<nat, nat>, inclId: map<nat, nat>)
    requires n <= |code|
  {
    && (forall i :: 0 <= i < n ==> NodeKnown(code, i, nodeId, inclId))
    && KeysArePcs(code, n, nodeId) && KeysArePcs(code, n, inclId)
    && |nodeId| == if n == 0 then 0 else NodeOf(code, n - 1) + 1
  }

  lemma NotYet(code: Code, n: nat)
    requires n < |code|
    ensures !IsPc(code, n, Pc(code, n))
  {
    forall i | 0 <= i < n
      ensures Pc(code, i) != Pc(code, n)
    {
      PcInjective(code, i, n);
    }
  }

  lemma KeysNext(code: Code, n: nat, m: map<nat, nat>, id: nat)
    requires n < |code| && KeysArePcs(code, n, m)
    ensures Pc(code, n) !in m && KeysArePcs(code, n + 1, m) && KeysArePcs(code, n + 1, m[Pc(code, n) := id])
  {
    NotYet(code, n);
    forall p | p in m
      ensures IsPc(code, n + 1, p)
    {
      var i :| 0 <= i < n && Pc(code, i) == p;
      assert i < n + 1;
    }
    assert 0 <= n < n + 1 && Pc(code, n) == Pc(code, n);
  }

  lemma KnownStays(code: Code, i: nat, n: nat, nodeId: map<nat, nat>, inclId: map<nat, nat>, id: nat, starts: bool)
    requires i < n < |code| && NodeKnown(code, i, nodeId, inclId)
    ensures NodeKnown(code, i, if starts then nodeId[Pc(code, n) := id] else nodeId, inclId[Pc(code, n) := id])
  {
    hide Starts, NodeOf;
    PcInjective(code, i, n);
  }

  lemma NodesNext(code: Code, n: nat, nodeId: map<nat, nat>, inclId: map<nat, nat>, starts: bool)
    requires n < |code| && NodesAt(code, n, nodeId, inclId) && starts == Starts(code, n)
    ensures starts || |nodeId| > 0
    ensures var id: nat := if starts then |nodeId| else |nodeId| - 1;
      NodesAt(code, n + 1, if starts then nodeId[Pc(code, n) := id] else nodeId, inclId[Pc(code, n) := id])
  {
    hide Starts, NodeOf, Pc, KeysArePcs, IsTarget;
    NodeIs(code, n);
    var id: nat := if starts then |nodeId| else |nodeId| - 1;
    KeysNext(code, n, nodeId, id);
    KeysNext(code, n, inclId, id);
    var nodes := if starts then nodeId[Pc(code, n) := id] else nodeId;
    var incl := inclId[Pc(code, n) := id];
    forall i | 0 <= i < n + 1
      ensures NodeKnown(code, i, nodes, incl)
    {
      if i < n {
        KnownStays(code, i, n, nodeId, inclId, id, starts);
      }
    }
    if starts {
      OneMoreKey(nodeId, Pc(code, n), id);
    }
  }

  lemma NodeIs(code: Code, n: nat)
    requires n < |code|
    ensures Starts(code, 0) && NodeOf(code, 0) == 0
    ensures n > 0 ==> NodeOf(code, n) == NodeOf(code, n - 1) + if Starts(code, n) then 1 else 0
  {
    hide IsTarget;
  }

  lemma OneMoreKey(m: map<nat, nat>, k: nat, v: nat)
    requires k !in m
    ensures |m[k := v]| == |m| + 1
  {
    assert m[k := v].Keys == m.Keys + {k};
    assert |m[k := v]| == |m[k := v].Keys| && |m| == |m.Keys|;
  }

  method BuildNodes(code: Code, targets: set<nat>) returns (nodeId: map<nat, nat>, inclId: map<nat, nat>)
    requires forall t :: t in targets <==> IsTarget(code, t)
    ensures NodesAt(code, |code|, nodeId, inclId)
  {
    nodeId, inclId := map[], map[];
    var pc, forceNewBlock := 0, false;
    assert NodesAt(code, 0, nodeId, inclId);
    hide NodesAt, IsTarget, NodeOf, Starts;
    for i := 0 to |code|
      invariant pc == Pc(code, i) && NodesAt(code, i, nodeId, inclId)
      invariant forceNewBlock <==> i > 0 && (code[i - 1].kind.Switch? || code[i - 1].EndsBlock())
    {
      hide Pc;
      var starts := pc == 0 || pc in targets || forceNewBlock;
      assert starts == Starts(code, i) by { StartsIs(code, i, targets); }
      NodesNext(code, i, nodeId, inclId, starts);
      NextPc(code, i);
      var id: nat := if starts then |nodeId| else |nodeId| - 1;
      if starts {
        nodeId := nodeId[pc := id];
      }
      inclId := inclId[pc := id];
      forceNewBlock := code[i].kind.Switch? || code[i].EndsBlock();
      pc := pc + code[i].size;
    }
  }

  lemma StartsIs(code: Code, i: nat, targets: set<nat>)
    requires i < |code| && forall t :: t in targets <==> IsTarget(code, t)
    ensures Starts(code, i) <==>
      Pc(code, i) == 0 || Pc(code, i) in targets || (i > 0 && (code[i - 1].kind.Switch? || code[i - 1].EndsBlock()))
  {
    PcInjective(code, i, 0);
  }

  lemma NextPc(code: Code, i: nat)
    requires i < |code|
    ensures Pc(code, i + 1) == Pc(code, i) + code[i].size
  {
  }
}