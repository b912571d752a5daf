/** The edges of the control flow graph: fall-through, taken and exception edges. */
module CfgEdges {
  import opened CfgDump

  datatype Edge = Edge(source: nat, sourcePc: nat, target: nat, targetPc: nat)

  // ---------- fall-through and taken edges ----------

  /** Control falls through from instruction `i - 1` into a block that starts at `i`. */
  ghost predicate IsRegular(code: Code, i: nat, e: Edge)
    requires 0 < i < |code|
  {
    Starts(code, i) && code[i - 1].FallsThrough() &&
      e == Edge(NodeOf(code, i - 1), Pc(code, i - 1), NodeOf(code, i), Pc(code, i))
  }

  ghost predicate RegularAt(code: Code, n: nat, es: set<Edge>)
    requires n <= |code|
  {
    forall e :: e in es <==> exists i :: 0 < i < n && IsRegular(code, i, e)
  }

  /** Instruction `i` jumps to instruction `j`. */
  ghost predicate IsTaken(code: Code, i: nat, j: nat, e: Edge)
    requires i < |code| && j < |code|
  {
    TargetOf(code, i, Pc(code, j)) && e == Edge(NodeOf(code, i), Pc(code, i), NodeOf(code, j), Pc(code, j))
  }

  ghost predicate TakenFrom(code: Code, i: nat, e: Edge)
    requires i < |code|
  {
    exists j :: 0 <= j < |code| && IsTaken(code, i, j, e)
  }

  ghost predicate TakenAt(code: Code, n: nat, es: set<Edge>)
    requires n <= |code|
  {
    forall e :: e in es <==> exists i :: 0 <= i < n && TakenFrom(code, i, e)
  }

  lemma TargetStarts(code: Code, nodeId: map<nat, nat>, inclId: map<nat, nat>, i: nat, k: nat)
    requires NodesAt(code, |code|, nodeId, inclId) && i < |code| && k < |code[i].Offsets()|
    ensures var t := Target(Pc(code, i), code[i].Offsets()[k]);
      && TargetOf(code, i, t)
      && (t in nodeId <==> IsPc(code, |code|, t))
      && (forall j :: 0 <= j < |code| && Pc(code, j) == t ==> t in nodeId && nodeId[t] == NodeOf(code, j))
  {
    hide NodeOf, Pc;
    var t := Target(Pc(code, i), code[i].Offsets()[k]);
    assert TargetOf(code, i, t);
    forall j | 0 <= j < |code| && Pc(code, j) == t
      ensures t in nodeId && nodeId[t] == NodeOf(code, j)
    {
      assert NodeKnown(code, j, nodeId, inclId);
    }
  }

  // The edges of the first `m` jump offsets of instruction `i`.
  ghost predicate TakenSome(code: Code, i: nat, m: nat, e: Edge)
    requires i < |code| && m <= |code[i].Offsets()|
  {
    exists j, k :: 0 <= j < |code| && 0 <= k < m && TakenBy(code, i, j, k, e)
  }

  ghost predicate TakenBy(code: Code, i: nat, j: nat, k: nat, e: Edge)
    requires i < |code| && j < |code| && k < |code[i].Offsets()|
  {
    Pc(code, j) == Target(Pc(code, i), code[i].Offsets()[k])
    && e == Edge(NodeOf(code, i), Pc(code, i), NodeOf(code, j), Pc(code, j))
  }

  lemma AllOffsets(code: Code, i: nat, e: Edge)
    requires i < |code|
    ensures TakenSome(code, i, |code[i].Offsets()|, e) <==> TakenFrom(code, i, e)
  {
    hide NodeOf, Pc, Target;
    if TakenFrom(code, i, e) {
      var j :| 0 <= j < |code| && IsTaken(code, i, j, e);
      var k :| 0 <= k < |code[i].Offsets()| && Pc(code, j) == Target(Pc(code, i), code[i].Offsets()[k]);
      assert TakenBy(code, i, j, k, e);
    }
    if TakenSome(code, i, |code[i].Offsets()|, e) {
      var j, k :| 0 <= j < |code| && 0 <= k < |code[i].Offsets()| && TakenBy(code, i, j, k, e);
      assert IsTaken(code, i, j, e);
    }
  }

  lemma OneOffset(code: Code, nodeId: map<nat, nat>, inclId: map<nat, nat>, i: nat, k: nat, e: Edge)
    requires NodesAt(code, |code|, nodeId, inclId) && i < |code| && k < |code[i].Offsets()|
    ensures var t := Target(Pc(code, i), code[i].Offsets()[k]);
      TakenSome(code, i, k + 1, e) <==>
        TakenSome(code, i, k, e) || (t in nodeId && e == Edge(NodeOf(code, i), Pc(code, i), nodeId[t], t))
  {
    hide NodeOf, Pc, Target, NodesAt, TargetOf;
    var t := Target(Pc(code, i), code[i].Offsets()[k]);
    TargetStarts(code, nodeId, inclId, i, k);
    if t in nodeId && e == Edge(NodeOf(code, i), Pc(code, i), nodeId[t], t) {
      var j :| 0 <= j < |code| && Pc(code, j) == t;
      assert TakenBy(code, i, j, k, e);
    }
    if TakenSome(code, i, k, e) {
      var j, m :| 0 <= j < |code| && 0 <= m < k && TakenBy(code, i, j, m, e);
      assert m < k + 1;
    }
    if TakenSome(code, i, k + 1, e) {
      var j, m :| 0 <= j < |code| && 0 <= m < k + 1 && TakenBy(code, i, j, m, e);
      if m < k { assert TakenSome(code, i, k, e); }
    }
  }

  /** The taken edges of one branch or switch. */
  method VisitJump(code: Code, nodeId: map<nat, nat>, ghost inclId: map<nat, nat>, i: nat, node: nat, pc: nat,
                   before: set<Edge>)
    returns (es: set<Edge>)
    requires NodesAt(code, |code|, nodeId, inclId) && i < |code| && node == NodeOf(code, i) && pc == Pc(code, i)
    requires TakenAt(code, i, before)
    ensures TakenAt(code, i + 1, es)
  {
    hide NodesAt, NodeOf, Pc, Target, TakenAt, TakenSome;
    es := before;
    var offsets := code[i].Offsets();
    assert forall e :: !TakenSome(code, i, 0, e) by { NoOffset(code, i); }
    for k := 0 to |offsets|
      invariant forall e :: e in es <==> e in before || TakenSome(code, i, k, e)
    {
      var t := Target(pc, offsets[k]);
      ghost var was := es;
      if t in nodeId {
        es := es + {Edge(node, pc, nodeId[t], t)};
      }
      forall e
        ensures e in es <==> e in before || TakenSome(code, i, k + 1, e)
      {
        OneOffset(code, nodeId, inclId, i, k, e);
        assert e in was <==> e in before || TakenSome(code, i, k, e);
      }
    }
    TakenNext(code, i, before, es);
  }

  lemma NoOffset(code: Code, i: nat)
    requires i < |code|
    ensures forall e :: !TakenSome(code, i, 0, e)
  {
  }

  lemma TakenNext(code: Code, i: nat, before: set<Edge>, es: set<Edge>)
    requires i < |code| && TakenAt(code, i, before)
    requires forall e :: e in es <==> e in before || TakenSome(code, i, |code[i].Offsets()|, e)
    ensures TakenAt(code, i + 1, es)
  {
    hide TakenSome, TakenFrom;
    forall e
      ensures e in es <==> exists m :: 0 <= m < i + 1 && TakenFrom(code, m, e)
    {
      AllOffsets(code, i, e);
      if e in before {
        var m :| 0 <= m < i && TakenFrom(code, m, e);
        assert m < i + 1;
      }
    }
  }

  lemma RegularNext(code: Code, i: nat, before: set<Edge>, es: set<Edge>)
    requires i < |code| && RegularAt(code, i, before)
    requires forall e :: e in es <==> e in before || (0 < i && IsRegular(code, i, e))
    ensures RegularAt(code, i + 1, es)
  {
    hide IsRegular;
    forall e
      ensures e in es <==> exists m :: 0 < m < i + 1 && IsRegular(code, m, e)
    {
      if e in before {
        var m :| 0 < m < i && IsRegular(code, m, e);
        assert m < i + 1;
      }
    }
  }

  // Which node the instruction before `n` falls through from, or -1.
  ghost function LastNode(code: Code, n: nat): int
    requires n <= |code|
  {
    if n > 0 && code[n - 1].FallsThrough() then NodeOf(code, n - 1) else -1
  }

  /**
   Entering an instruction: the node becomes the one that contains it, and falling through into a
   new block draws an edge.
   */
  method Enter(code: Code, nodeId: map<nat, nat>, ghost inclId: map<nat, nat>, i: nat, lastNode: int, oldPc: nat,
               pc: nat, before: set<Edge>)
    returns (node: int, es: set<Edge>)
    requires NodesAt(code, |code|, nodeId, inclId) && i < |code| && RegularAt(code, i, before)
    requires lastNode == LastNode(code, i) && pc == Pc(code, i) && (i > 0 ==> oldPc == Pc(code, i - 1))
    ensures node == NodeOf(code, i) && RegularAt(code, i + 1, es)
  {
    hide NodeOf, Pc, RegularAt, IsTarget;
    assert NodeKnown(code, i, nodeId, inclId);
    NodeIs(code, i);
    node, es := lastNode, before;
    if pc in nodeId {
      node := nodeId[pc];
      if lastNode != -1 {
        es := es + {Edge(lastNode, oldPc, node, pc)};
      }
    }
    RegularNext(code, i, before, es);
  }

  // ---------- exception edges ----------

  // An edge leaves a block as a whole or at one of its instructions.
  datatype Port = Whole | At(pc: nat)

  datatype Catch = Catch(source: nat, port: Port, target: nat, handler: nat)

  ghost function Caught(code: Code, i: nat): set<nat>
    requires i < |code|
  {
    set h | h in code[i].handlers
  }

  // Handlers that are not instructions of the method are ignored.
  function CatchEdges(inclId: map<nat, nat>, node: nat, port: Port, hs: set<nat>): set<Catch> {
    set h | h in hs && h in inclId :: Catch(node, port, inclId[h], h)
  }

  /** The exception edges of one instruction. */
  ghost function EdgesOf(code: Code, inclId: map<nat, nat>, i: nat, port: Port): set<Catch>
    requires i < |code|
  {
    CatchEdges(inclId, NodeOf(code, i), port, Caught(code, i))
  }

  // An edge that instruction `i` accounts for.
  ghost predicate SoundFor(code: Code, inclId: map<nat, nat>, i: nat, e: Catch)
    requires i < |code|
  {
    (e.port == Whole || e.port == At(Pc(code, i))) && e in EdgesOf(code, inclId, i, e.port)
  }

  ghost predicate Sound(code: Code, inclId: map<nat, nat>, n: nat, es: set<Catch>)
    requires n <= |code|
  {
    forall e :: e in es ==> exists i :: 0 <= i < n && SoundFor(code, inclId, i, e)
  }

  // Common edges of the block or detailed ones cover an instruction.
  ghost predicate Covered(code: Code, inclId: map<nat, nat>, i: nat, es: set<Catch>)
    requires i < |code|
  {
    EdgesOf(code, inclId, i, Whole) <= es || EdgesOf(code, inclId, i, At(Pc(code, i))) <= es
  }

  // Every handler collected so far belongs to an instruction of the current block.
  ghost predicate FromBlock(code: Code, b: nat, n: nat, hs: set<nat>)
    requires b <= n <= |code|
  {
    forall h :: h in hs ==> exists j :: b <= j < n && h in Caught(code, j)
  }

  ghost predicate BlockIn(code: Code, b: nat, n: nat, hs: set<nat>)
    requires b <= n <= |code|
  {
    forall j :: b <= j < n ==> Caught(code, j) <= hs
  }

  // An instruction is covered, or its block will be gone through in detail.
  ghost predicate Handled(code: Code, inclId: map<nat, nat>, i: nat, es: set<Catch>, detailed: set<nat>)
    requires i < |code|
  {
    Pc(code, BlockOf(code, i)) in detailed || Covered(code, inclId, i, es)
  }

  // The first exception pass before instruction `n`, in the block that starts at instruction `b`.
  ghost predicate PassAt(code: Code, inclId: map<nat, nat>, b: nat, n: nat, hs: set<nat>, es: set<Catch>,
                         detailed: set<nat>)
    requires b <= n <= |code|
  {
    && (n > 0 ==> b < n && b == BlockOf(code, n - 1)) && (n == 0 ==> b == 0)
    && Sound(code, inclId, n, es)
    && FromBlock(code, b, n, hs)
    && (b < |code| && Pc(code, b) !in detailed ==> BlockIn(code, b, n, hs))
    && (forall i :: 0 <= i < b ==> Handled(code, inclId, i, es, detailed))
    && (forall p :: p in detailed ==> exists i :: 0 <= i < n && Starts(code, i) && Pc(code, i) == p)
  }

  method EmitAll(inclId: map<nat, nat>, node: nat, port: Port, hs: set<nat>, before: set<Catch>)
    returns (es: set<Catch>)
    ensures es == before + CatchEdges(inclId, node, port, hs)
  {
    es := before;
    var todo := hs;
    while todo != {}
      invariant todo <= hs && es == before + CatchEdges(inclId, node, port, hs - todo)
      decreases todo
    {
      var h :| h in todo;
      if h in inclId {
        es := es + {Catch(node, port, inclId[h], h)};
      }
      todo := todo - {h};
    }
    assert hs - {} == hs;
  }

  lemma {:induction false} BlockContains(code: Code, b: nat, i: nat)
    requires b <= i < |code| && Starts(code, b) && forall j :: b < j <= i ==> !Starts(code, j)
    ensures BlockOf(code, i) == b && NodeOf(code, i) == NodeOf(code, b)
    decreases i
  {
    hide IsTarget;
    if b < i {
      BlockContains(code, b, i - 1);
      NodeIs(code, i);
    }
  }

  // Instructions from the start of a block to `n - 1` all belong to it.
  lemma InBlock(code: Code, n: nat, j: nat)
    requires 0 < n <= |code| && BlockOf(code, n - 1) <= j < n
    ensures BlockOf(code, j) == BlockOf(code, n - 1) && NodeOf(code, j) == NodeOf(code, BlockOf(code, n - 1))
  {
    hide IsTarget, NodeOf, Starts;
    BlockContains(code, BlockOf(code, n - 1), j);
  }

  // Drawing the common edges of a block accounts for all of its instructions.
  lemma CloseBlock(code: Code, inclId: map<nat, nat>, b: nat, n: nat, hs: set<nat>, es: set<Catch>, detailed: set<nat>)
    requires 0 < n <= |code| && b < n && PassAt(code, inclId, b, n, hs, es, detailed)
    ensures var now := es + CatchEdges(inclId, NodeOf(code, b), Whole, hs);
      && Sound(code, inclId, n, now)
      && forall i :: 0 <= i < n ==> Handled(code, inclId, i, now, detailed)
  {
    hide NodeOf, Pc, BlockOf, Starts, IsTarget;
    var now := es + CatchEdges(inclId, NodeOf(code, b), Whole, hs);
    forall e | e in now
      ensures exists i :: 0 <= i < n && SoundFor(code, inclId, i, e)
    {
      if e !in es {
        var j :| b <= j < n && e.handler in Caught(code, j);
        InBlock(code, n, j);
        assert SoundFor(code, inclId, j, e);
      }
    }
    forall i | 0 <= i < n
      ensures Handled(code, inclId, i, now, detailed)
    {
      if i < b {
        assert Handled(code, inclId, i, es, detailed);
      } else {
        InBlock(code, n, i);
        if Pc(code, b) !in detailed {
          assert Caught(code, i) <= hs;
          assert EdgesOf(code, inclId, i, Whole) <= now;
        }
      }
    }
  }

  lemma StartsStay(code: Code, n: nat, detailed: set<nat>)
    requires n < |code| && forall p :: p in detailed ==> exists i :: 0 <= i < n && Starts(code, i) && Pc(code, i) == p
    ensures forall p :: p in detailed ==> exists i :: 0 <= i < n + 1 && Starts(code, i) && Pc(code, i) == p
  {
    hide Starts, Pc;
    forall p | p in detailed
      ensures exists i :: 0 <= i < n + 1 && Starts(code, i) && Pc(code, i) == p
    {
      var i :| 0 <= i < n && Starts(code, i) && Pc(code, i) == p;
      assert i < n + 1;
    }
  }

  lemma SoundStays(code: Code, inclId: map<nat, nat>, n: nat, es: set<Catch>)
    requires n < |code| && Sound(code, inclId, n, es)
    ensures Sound(code, inclId, n + 1, es)
  {
    hide SoundFor;
    forall e | e in es
      ensures exists i :: 0 <= i < n + 1 && SoundFor(code, inclId, i, e)
    {
      var i :| 0 <= i < n && SoundFor(code, inclId, i, e);
      assert i < n + 1;
    }
  }

  // A new block starts at instruction `n`.
  lemma OpenBlock(code: Code, inclId: map<nat, nat>, n: nat, es: set<Catch>, detailed: set<nat>)
    requires n < |code| && Starts(code, n) && Sound(code, inclId, n, es)
    requires forall i :: 0 <= i < n ==> Handled(code, inclId, i, es, detailed)
    requires forall p :: p in detailed ==> exists i :: 0 <= i < n && Starts(code, i) && Pc(code, i) == p
    ensures PassAt(code, inclId, n, n + 1, Caught(code, n), es, detailed)
  {
    hide NodeOf, Pc, IsTarget, EdgesOf, Handled;
    StartsStay(code, n, detailed);
    SoundStays(code, inclId, n, es);
  }

  // Another instruction of the same block; a change of handlers asks for a detailed pass.
  lemma SameBlock(code: Code, inclId: map<nat, nat>, b: nat, n: nat, hs: set<nat>, es: set<Catch>, detailed: set<nat>)
    requires 0 < n < |code| && b < n && PassAt(code, inclId, b, n, hs, es, detailed) && !Starts(code, n)
    ensures Caught(code, n) == hs + Caught(code, n) ==>
      PassAt(code, inclId, b, n + 1, hs + Caught(code, n), es, detailed)
    ensures PassAt(code, inclId, b, n + 1, {}, es, detailed + {Pc(code, b)})
  {
    hide NodeOf, Pc, IsTarget, EdgesOf;
    StartsStay(code, n, detailed);
    SoundStays(code, inclId, n, es);
    forall h | h in hs + Caught(code, n)
      ensures exists j :: b <= j < n + 1 && h in Caught(code, j)
    {
      if h in hs {
        var j :| b <= j < n && h in Caught(code, j);
        assert j < n + 1;
      } else {
        assert h in Caught(code, n);
      }
    }
    forall i | 0 <= i < b
      ensures Handled(code, inclId, i, es, detailed + {Pc(code, b)})
    {
      assert Handled(code, inclId, i, es, detailed);
    }
    assert Starts(code, b);
    forall p | p in detailed + {Pc(code, b)}
      ensures exists i :: 0 <= i < n + 1 && Starts(code, i) && Pc(code, i) == p
    {
      if p == Pc(code, b) { assert 0 <= b < n + 1 && Starts(code, b); }
    }
  }

  // ---------- the passes ----------

  // Handler addresses of one instruction as a set.
  method Collect(hs: seq<nat>) returns (r: set<nat>)
    ensures r == set h | h in hs
  {
    r := {};
    for k := 0 to |hs|
      invariant r == set h | h in hs[..k]
    {
      assert hs[..k + 1] == hs[..k] + [hs[k]];
      r := r + {hs[k]};
    }
    assert hs[..|hs|] == hs;
  }

  /** The exception bookkeeping of one instruction in the first pass. */
  method VisitHandlers(code: Code, nodeId: map<nat, nat>, inclId: map<nat, nat>, ghost b0: nat, n: nat, pc: nat,
                       blockStart0: nat, hs0: set<nat>, es0: set<Catch>, detailed0: set<nat>)
    returns (ghost b: nat, blockStart: nat, hs: set<nat>, es: set<Catch>, detailed: set<nat>)
    requires NodesAt(code, |code|, nodeId, inclId) && n < |code| && b0 <= n && pc == Pc(code, n)
    requires PassAt(code, inclId, b0, n, hs0, es0, detailed0) && (n > 0 ==> blockStart0 == Pc(code, b0))
    ensures b <= n && PassAt(code, inclId, b, n + 1, hs, es, detailed) && blockStart == Pc(code, b)
  {
    hide NodesAt, NodeOf, Pc, PassAt, Sound, Handled, Starts, BlockOf;
    NodeAtPc(code, nodeId, inclId, n);
    b, blockStart, hs, es, detailed := b0, blockStart0, hs0, es0, detailed0;
    var current := Collect(code[n].handlers);
    assert current == Caught(code, n) && {} + current == current;
    if pc in nodeId {
      if n > 0 {
        PassBlock(code, inclId, b0, n, hs0, es0, detailed0);
        NodeAtPc(code, nodeId, inclId, b0);
        CloseBlock(code, inclId, b0, n, hs0, es0, detailed0);
      } else {
        PassStart(code, inclId, hs0, es0, detailed0);
      }
      PassDetails(code, inclId, b0, n, hs0, es0, detailed0);
      if hs != {} {
        es := EmitAll(inclId, nodeId[blockStart], Whole, hs, es);
        hs := {};
      } else {
        assert n > 0 ==> es + CatchEdges(inclId, NodeOf(code, b0), Whole, {}) == es;
      }
      blockStart := pc;
      b := n;
      OpenBlock(code, inclId, n, es, detailed);
    } else {
      PassBlock(code, inclId, b0, n, hs0, es0, detailed0);
      SameBlock(code, inclId, b0, n, hs0, es0, detailed0);
      OtherPc(code, b0, n);
    }
    hs := hs + current;
    if blockStart != pc {
      if current != hs {
        hs := {};
        detailed := detailed + {blockStart};
      }
    }
  }

  lemma NodeAtPc(code: Code, nodeId: map<nat, nat>, inclId: map<nat, nat>, i: nat)
    requires NodesAt(code, |code|, nodeId, inclId) && i < |code|
    ensures Pc(code, i) in nodeId <==> Starts(code, i)
    ensures Starts(code, i) ==> nodeId[Pc(code, i)] == NodeOf(code, i)
    ensures Pc(code, i) in inclId && inclId[Pc(code, i)] == NodeOf(code, i)
    ensures Starts(code, 0)
  {
    assert NodeKnown(code, i, nodeId, inclId);
  }

  lemma PassBlock(code: Code, inclId: map<nat, nat>, b: nat, n: nat, hs: set<nat>, es: set<Catch>, detailed: set<nat>)
    requires b <= n < |code| && PassAt(code, inclId, b, n, hs, es, detailed) && (n > 0 || !Starts(code, n))
    ensures 0 < n && b < n && Starts(code, b)
  {
    hide NodeOf, Pc, IsTarget;
  }

  lemma PassStart(code: Code, inclId: map<nat, nat>, hs: set<nat>, es: set<Catch>, detailed: set<nat>)
    requires PassAt(code, inclId, 0, 0, hs, es, detailed)
    ensures hs == {} && Sound(code, inclId, 0, es)
  {
  }

  lemma PassDetails(code: Code, inclId: map<nat, nat>, b: nat, n: nat, hs: set<nat>, es: set<Catch>, detailed: set<nat>)
    requires b <= n <= |code| && PassAt(code, inclId, b, n, hs, es, detailed)
    ensures forall p :: p in detailed ==> exists i :: 0 <= i < n && Starts(code, i) && Pc(code, i) == p
    ensures n == 0 ==> b == 0
  {
    hide Starts, Pc, BlockOf;
  }

  lemma OtherPc(code: Code, b: nat, n: nat)
    requires b < n < |code|
    ensures Pc(code, b) != Pc(code, n)
  {
    PcInjective(code, b, n);
  }

  // Every instruction is covered, or its block is still to be gone through.
  ghost predicate AllHandled(code: Code, inclId: map<nat, nat>, es: set<Catch>, detailed: set<nat>) {
    forall i :: 0 <= i < |code| ==> Handled(code, inclId, i, es, detailed)
  }

  ghost predicate BlockStarts(code: Code, detailed: set<nat>) {
    forall p :: p in detailed ==> exists i :: 0 <= i < |code| && Starts(code, i) && Pc(code, i) == p
  }

  /** The first pass over the instructions. */
  method FirstPass(code: Code, nodeId: map<nat, nat>, inclId: map<nat, nat>)
    returns (regular: set<Edge>, taken: set<Edge>, es: set<Catch>, detailed: set<nat>)
    requires NodesAt(code, |code|, nodeId, inclId)
    ensures RegularAt(code, |code|, regular) && TakenAt(code, |code|, taken)
    ensures Sound(code, inclId, |code|, es) && AllHandled(code, inclId, es, detailed) && BlockStarts(code, detailed)
  {
    regular, taken, es, detailed := {}, {}, {}, {};
    var lastNode := -1;
    var oldPc: nat, pc: nat, blockStart: nat := 0, 0, 0;
    var hs: set<nat> := {};
    ghost var b: nat := 0;
    assert RegularAt(code, 0, regular) && TakenAt(code, 0, taken) && PassAt(code, inclId, 0, 0, hs, es, detailed);
    assert Pc(code, 0) == 0 && LastNode(code, 0) == -1;
    hide NodesAt, NodeOf, RegularAt, TakenAt, PassAt, Sound, AllHandled, BlockStarts, Pc, LastNode;
    for i := 0 to |code|
      invariant pc == Pc(code, i) && (i > 0 ==> oldPc == Pc(code, i - 1)) && lastNode == LastNode(code, i)
      invariant RegularAt(code, i, regular) && TakenAt(code, i, taken)
      invariant b <= i && PassAt(code, inclId, b, i, hs, es, detailed) && (i > 0 ==> blockStart == Pc(code, b))
    {
      lastNode, regular := Enter(code, nodeId, inclId, i, lastNode, oldPc, pc, regular);
      b, blockStart, hs, es, detailed := VisitHandlers(code, nodeId, inclId, b, i, pc, blockStart, hs, es, detailed);
      taken := VisitJump(code, nodeId, inclId, i, lastNode, pc, taken);
      NextInst(code, i);
      if !code[i].FallsThrough() {
        lastNode := -1;
      }
      oldPc := pc;
      pc := pc + code[i].size;
    }
    if |code| > 0 {
      PassEnd(code, nodeId, inclId, b, hs, es, detailed);
      es := EmitAll(inclId, nodeId[blockStart], Whole, hs, es);
    } else {
      NothingToDo(code, inclId, b, hs, es, detailed);
    }
  }

  lemma NextInst(code: Code, i: nat)
    requires i < |code|
    ensures Pc(code, i + 1) == Pc(code, i) + code[i].size
    ensures LastNode(code, i + 1) == if code[i].FallsThrough() then NodeOf(code, i) else -1
  {
    hide NodeOf;
  }

  lemma PassEnd(code: Code, nodeId: map<nat, nat>, inclId: map<nat, nat>, b: nat, hs: set<nat>, es: set<Catch>,
                detailed: set<nat>)
    requires NodesAt(code, |code|, nodeId, inclId) && 0 < |code| && b <= |code|
    requires PassAt(code, inclId, b, |code|, hs, es, detailed)
    ensures b < |code| && Pc(code, b) in nodeId && nodeId[Pc(code, b)] == NodeOf(code, b)
    ensures var now := es + CatchEdges(inclId, NodeOf(code, b), Whole, hs);
      Sound(code, inclId, |code|, now) && AllHandled(code, inclId, now, detailed) && BlockStarts(code, detailed)
  {
    hide NodeOf, Pc, IsTarget, Sound, Handled;
    NodeAtPc(code, nodeId, inclId, b);
    CloseBlock(code, inclId, b, |code|, hs, es, detailed);
  }

  lemma NothingToDo(code: Code, inclId: map<nat, nat>, b: nat, hs: set<nat>, es: set<Catch>, detailed: set<nat>)
    requires |code| == 0 && b == 0 && PassAt(code, inclId, b, 0, hs, es, detailed)
    ensures Sound(code, inclId, 0, es) && AllHandled(code, inclId, es, detailed) && BlockStarts(code, detailed)
  {
  }

  // ---------- the second pass ----------

  method IndexAt(code: Code, p: nat) returns (i: nat)
    requires exists j :: 0 <= j < |code| && Pc(code, j) == p
    ensures i < |code| && Pc(code, i) == p
  {
    ghost var j :| 0 <= j < |code| && Pc(code, j) == p;
    i := 0;
    var pc := 0;
    while pc != p
      invariant i <= j && pc == Pc(code, i)
      decreases j - i
    {
      i := i + 1;
      pc := pc + code[i - 1].size;
    }
  }

  // Every instruction from `b` up to `n` has its edges.
  ghost predicate RangeCovered(code: Code, inclId: map<nat, nat>, b: nat, n: nat, es: set<Catch>)
    requires b <= n <= |code|
  {
    forall i :: b <= i < n ==> EdgesOf(code, inclId, i, At(Pc(code, i))) <= es
  }

  /** Goes through one block instruction by instruction, adding the edges of each. */
  method VisitBlock(code: Code, nodeId: map<nat, nat>, inclId: map<nat, nat>, b: nat, before: set<Catch>)
    returns (es: set<Catch>, ghost end: nat)
    requires NodesAt(code, |code|, nodeId, inclId) && b < |code| && Starts(code, b)
    requires Sound(code, inclId, |code|, before)
    ensures before <= es && Sound(code, inclId, |code|, es)
    ensures b < end <= |code| && RangeCovered(code, inclId, b, end, es)
    ensures (forall i :: b < i < end ==> !Starts(code, i)) && (end == |code| || Starts(code, end))
  {
    hide NodesAt, NodeOf, Sound, CatchEdges, IsTarget;
    es, end := before, b;
    NodeAtPc(code, nodeId, inclId, b);
    var node := inclId[Pc(code, b)];
    var i, pc := b, Pc(code, b);
    while true
      invariant b <= i < |code| && pc == Pc(code, i) && node == NodeOf(code, i) && i == end
      invariant before <= es && Sound(code, inclId, |code|, es) && RangeCovered(code, inclId, b, i, es)
      invariant forall j :: b < j <= i ==> !Starts(code, j)
      decreases |code| - i
    {
      var hs := Collect(code[i].handlers);
      assert hs == Caught(code, i);
      SoundMore(code, inclId, i, es);
      es := EmitAll(inclId, node, At(pc), hs, es);
      end := i + 1;
      if code[i].EndsBlock() {
        return;
      }
      pc := pc + code[i].size;
      i := i + 1;
      if i >= |code| {
        return;
      }
      NodeAtPc(code, nodeId, inclId, i);
      if pc in nodeId {
        return;
      }
      NodeIs(code, i);
    }
  }

  lemma SoundMore(code: Code, inclId: map<nat, nat>, i: nat, es: set<Catch>)
    requires i < |code| && Sound(code, inclId, |code|, es)
    ensures Sound(code, inclId, |code|, es + EdgesOf(code, inclId, i, At(Pc(code, i))))
  {
    hide NodeOf, Pc;
    forall e | e in es + EdgesOf(code, inclId, i, At(Pc(code, i)))
      ensures exists j :: 0 <= j < |code| && SoundFor(code, inclId, j, e)
    {
      if e !in es { assert SoundFor(code, inclId, i, e); }
    }
  }

  // After a block has been gone through, its instructions no longer depend on the detailed pass.
  lemma BlockDone(code: Code, inclId: map<nat, nat>, b: nat, end: nat, before: set<Catch>, es: set<Catch>,
                  todo: set<nat>)
    requires b < end <= |code| && Starts(code, b) && before <= es && RangeCovered(code, inclId, b, end, es)
    requires (forall i :: b < i < end ==> !Starts(code, i)) && (end == |code| || Starts(code, end))
    requires AllHandled(code, inclId, before, todo)
    ensures AllHandled(code, inclId, es, todo - {Pc(code, b)})
  {
    hide NodeOf, Pc, IsTarget, EdgesOf, Starts;
    forall i | 0 <= i < |code|
      ensures Handled(code, inclId, i, es, todo - {Pc(code, b)})
    {
      assert Handled(code, inclId, i, before, todo);
      var s := BlockOf(code, i);
      PcInjective(code, s, b);
    }
  }

  /** The blocks whose handlers vary, in any order. */
  method SecondPass(code: Code, nodeId: map<nat, nat>, inclId: map<nat, nat>, before: set<Catch>, detailed: set<nat>)
    returns (es: set<Catch>)
    requires NodesAt(code, |code|, nodeId, inclId) && Sound(code, inclId, |code|, before)
    requires AllHandled(code, inclId, before, detailed) && BlockStarts(code, detailed)
    ensures Sound(code, inclId, |code|, es) && AllHandled(code, inclId, es, {})
  {
    hide NodesAt, Sound, AllHandled, Starts, Pc, RangeCovered;
    es := before;
    var todo := detailed;
    while todo != {}
      invariant todo <= detailed && Sound(code, inclId, |code|, es) && AllHandled(code, inclId, es, todo)
      decreases todo
    {
      var p :| p in todo;
      var b := IndexAt(code, p);
      ghost var s :| 0 <= s < |code| && Starts(code, s) && Pc(code, s) == p;
      PcInjective(code, s, b);
      ghost var was := es;
      ghost var end;
      es, end := VisitBlock(code, nodeId, inclId, b, es);
      BlockDone(code, inclId, b, end, was, es, todo);
      todo := todo - {p};
    }
  }

  // Handler `h` of instruction `i` has an edge from the block, or from the instruction itself.
  ghost predicate Drawn(code: Code, inclId: map<nat, nat>, i: nat, h: nat, es: set<Catch>)
    requires i < |code|
  {
    h in inclId ==>
      || Catch(NodeOf(code, i), Whole, inclId[h], h) in es
      || Catch(NodeOf(code, i), At(Pc(code, i)), inclId[h], h) in es
  }

  /**
   Every handler of every instruction has an edge, and every edge belongs to an instruction of its block
   that has the handler; an edge that leaves at an instruction belongs to that very instruction.
   */
  ghost predicate CatchesExact(code: Code, inclId: map<nat, nat>, es: set<Catch>) {
    && (forall i, h :: 0 <= i < |code| && h in code[i].handlers ==> Drawn(code, inclId, i, h, es))
    && (forall e :: e in es ==> exists i :: 0 <= i < |code| && SoundFor(code, inclId, i, e))
  }

  lemma NothingMissing(code: Code, inclId: map<nat, nat>, es: set<Catch>)
    requires Sound(code, inclId, |code|, es) && AllHandled(code, inclId, es, {})
    ensures CatchesExact(code, inclId, es)
  {
    hide Pc, NodeOf, SoundFor, BlockOf;
    forall i, h | 0 <= i < |code| && h in code[i].handlers
      ensures Drawn(code, inclId, i, h, es)
    {
      assert Handled(code, inclId, i, es, {}) && h in Caught(code, i);
      if h in inclId {
        assert Catch(NodeOf(code, i), Whole, inclId[h], h) in EdgesOf(code, inclId, i, Whole);
        assert Catch(NodeOf(code, i), At(Pc(code, i)), inclId[h], h) in EdgesOf(code, inclId, i, At(Pc(code, i)));
      }
    }
  }

  /**
   The whole dump: fall-through edges exactly where control falls into a block, taken edges exactly
   for branch and switch targets that are instructions, and exception edges exactly for the handlers
   in effect, whichever pass drew them.
   */
  method DumpMethodCfg(code: Code)
    returns (nodeId: map<nat, nat>, inclId: map<nat, nat>, regular: set<Edge>, taken: set<Edge>, es: set<Catch>)
    ensures NodesAt(code, |code|, nodeId, inclId)
    ensures RegularAt(code, |code|, regular) && TakenAt(code, |code|, taken)
    ensures CatchesExact(code, inclId, es)
  {
    hide NodesAt, RegularAt, TakenAt, CatchesExact, Sound, AllHandled, BlockStarts;
    var targets := BranchTargets(code);
    nodeId, inclId := BuildNodes(code, targets);
    var detailed;
    regular, taken, es, detailed := FirstPass(code, nodeId, inclId);
    es := SecondPass(code, nodeId, inclId, es, detailed);
    NothingMissing(code, inclId, es);
  }
}
