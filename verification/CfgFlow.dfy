/** What the drawn graph says about running the code: its edges and blocks are exactly the ways control can go. */
module CfgFlow {
  import opened Align
  import opened CfgDump
  import opened CfgEdges

  // Addresses are 32-bit.
  ghost predicate Jump(code: Code, i: nat, j: nat, offset: int)
    requires i < |code| && j < |code|
  {
    Pc(code, j) == (Pc(code, i) + offset) % U32
  }

  /** Control may pass from instruction `i` directly to instruction `j`, exceptions aside. */
  ghost predicate Step(code: Code, i: nat, j: nat)
    requires i < |code| && j < |code|
  {
    match code[i].kind
    case Branch(offset, conditional) => Jump(code, i, j, offset) || (conditional && j == i + 1)
    case Switch(offsets) => j == i + 1 || exists k :: 0 <= k < |offsets| && Jump(code, i, j, offsets[k])
    case Return => false
    case Throw => false
    case Plain => j == i + 1
  }

  ghost function Between(code: Code, i: nat, j: nat): Edge
    requires i < |code| && j < |code|
  {
    Edge(NodeOf(code, i), Pc(code, i), NodeOf(code, j), Pc(code, j))
  }

  ghost predicate Jumps(code: Code, i: nat, j: nat)
    requires i < |code| && j < |code|
  {
    match code[i].kind
    case Branch(offset, _) => Jump(code, i, j, offset)
    case Switch(offsets) => exists k :: 0 <= k < |offsets| && Jump(code, i, j, offsets[k])
    case _ => false
  }

  lemma JumpsAreTargets(code: Code, i: nat, j: nat)
    requires i < |code| && j < |code|
    ensures Jumps(code, i, j) <==> TargetOf(code, i, Pc(code, j))
  {
    hide Pc;
    var t := Pc(code, j);
    if Jumps(code, i, j) {
      var k :| 0 <= k < |code[i].Offsets()| && Jump(code, i, j, code[i].Offsets()[k]);
      assert t == Target(Pc(code, i), code[i].Offsets()[k]);
    }
    if TargetOf(code, i, t) {
      var k :| 0 <= k < |code[i].Offsets()| && t == Target(Pc(code, i), code[i].Offsets()[k]);
      assert Jump(code, i, j, code[i].Offsets()[k]);
    }
  }

  lemma TakenExactly(code: Code, taken: set<Edge>, i: nat, j: nat)
    requires TakenAt(code, |code|, taken) && i < |code| && j < |code|
    ensures Between(code, i, j) in taken <==> Jumps(code, i, j)
  {
    hide Jumps, NodeOf, Pc, TargetOf;
    var e := Between(code, i, j);
    JumpsAreTargets(code, i, j);
    if e in taken {
      var a :| 0 <= a < |code| && TakenFrom(code, a, e);
      var b :| 0 <= b < |code| && IsTaken(code, a, b, e);
      PcInjective(code, a, i);
      PcInjective(code, b, j);
    }
    if Jumps(code, i, j) {
      assert IsTaken(code, i, j, e);
      assert TakenFrom(code, i, e);
    }
  }

  lemma RegularExactly(code: Code, regular: set<Edge>, i: nat, j: nat)
    requires RegularAt(code, |code|, regular) && i < |code| && j < |code|
    ensures Between(code, i, j) in regular <==> j == i + 1 && Starts(code, j) && code[i].FallsThrough()
  {
    hide Starts, NodeOf, Pc;
    var e := Between(code, i, j);
    if e in regular {
      var a :| 0 < a < |code| && IsRegular(code, a, e);
      PcInjective(code, a - 1, i);
      PcInjective(code, a, j);
    }
    if j == i + 1 && Starts(code, j) && code[i].FallsThrough() {
      assert IsRegular(code, j, e);
    }
  }

  /**
   Control passes from one instruction to another exactly where the dump draws a regular or a taken
   edge between them, or where the second follows the first inside a block.
   */
  lemma StepsAreDrawn(code: Code, regular: set<Edge>, taken: set<Edge>, i: nat, j: nat)
    requires RegularAt(code, |code|, regular) && TakenAt(code, |code|, taken) && i < |code| && j < |code|
    ensures Step(code, i, j) <==>
      || Between(code, i, j) in regular || Between(code, i, j) in taken
      || (j == i + 1 && NodeOf(code, j) == NodeOf(code, i))
  {
    TakenExactly(code, taken, i, j);
    RegularExactly(code, regular, i, j);
    hide RegularAt, TakenAt, Between, Pc, IsTarget;
    assert Step(code, i, j) <==> Jumps(code, i, j) || (j == i + 1 && code[i].FallsThrough());
  }

  /** Nothing else is drawn: both ends of every edge are instructions. */
  lemma EdgesAreSteps(code: Code, regular: set<Edge>, taken: set<Edge>, e: Edge)
    requires RegularAt(code, |code|, regular) && TakenAt(code, |code|, taken) && e in regular + taken
    ensures exists i, j :: 0 <= i < |code| && 0 <= j < |code| && Step(code, i, j) && e == Between(code, i, j)
  {
    if e in regular {
      var a :| 0 < a < |code| && IsRegular(code, a, e);
      StepsAreDrawn(code, regular, taken, a - 1, a);
    } else {
      var a :| 0 <= a < |code| && TakenFrom(code, a, e);
      var b :| 0 <= b < |code| && IsTaken(code, a, b, e);
      StepsAreDrawn(code, regular, taken, a, b);
    }
  }

  /** Blocks are entered only at their first instruction and left only behind their last. */
  lemma BlocksAreBasic(code: Code, i: nat, j: nat)
    requires i < |code| && j < |code| && Step(code, i, j) && (j != i + 1 || NodeOf(code, i) != NodeOf(code, j))
    ensures BlockOf(code, j) == j
    ensures i + 1 < |code| ==> BlockOf(code, i + 1) == i + 1
  {
    JumpsAreTargets(code, i, j);
    hide Pc;
    assert Step(code, i, j) ==> Jumps(code, i, j) || j == i + 1;
  }
}
