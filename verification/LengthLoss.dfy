/** A run in which error recovery overwrites the length of a leaf. The rule
    `R: P` recovers from errors; `P: 1 3` may be left out of the tree. On the
    tokens `1 2` the second one goes into an error node, which is not counted as
    a child of `P`; then `P` is popped with the leaf of the first token for its
    node, and that leaf is made to end where the tree ends. */
module LengthLoss {
  import opened Rules
  import opened Trees
  import opened ReplayBuffer
  import opened Parsing
  import opened Backtracking

  const R: nat := 0x8000
  const P: nat := 0x8001
  const R0 := StateId(R, 0)
  const R1 := StateId(R, 1)
  const P0 := StateId(P, 0)
  const P1 := StateId(P, 1)
  const P2 := StateId(P, 2)

  const ENTER := Plan([Push(P, P1, LLPush)], R1, 1, LL)

  const GRAMMAR := Grammar(
    map[
      R0 := StateInfo(false, false, false, None, map[1 := ENTER]),
      R1 := StateInfo(true, false, false, None, map[]),
      P0 := StateInfo(false, true, false, None, map[1 := Plan([], P1, 1, LL)]),
      P1 := StateInfo(false, true, false, Some(0x8002), map[3 := Plan([], P2, 3, LL)]),
      P2 := StateInfo(true, true, false, None, map[])
    ],
    {R})

  const FIRST := Token(0, 1, 1)
  const SECOND := Token(2, 1, 2)
  const INPUT := [FIRST, SECOND]

  lemma TablesAreOk()
    ensures TablesOk(GRAMMAR) && TokensOk(INPUT)
  {
    assert PushesOk(GRAMMAR, R, ENTER.pushes) by {
      assert ENTER.pushes[1..] == [];
    }
    assert PlanOk(GRAMMAR, R, ENTER) && PlanOk(GRAMMAR, P, Plan([], P1, 1, LL))
           && PlanOk(GRAMMAR, P, Plan([], P2, 3, LL));
  }

  // The steps of the run, as the machine goes through them.

  const BOTTOM := StackNode(R, 0, 1, R1, 1, Plain, false)

  const ENTERED := Machine(
    [BOTTOM, StackNode(P, 1, 1, P1, 1, Plain, false)],
    [InternalNode(0, R, 0, 0), InternalNode(0, 1, 0, 1)],
    Buffer([SECOND], [], 0, false))

  lemma Enters()
    ensures Run(GRAMMAR, Start(GRAMMAR, R, INPUT), 2) == Idle(ENTERED)
  {
    var s := Start(GRAMMAR, R, INPUT);
    assert INPUT[1..] == [SECOND];
    var m := s.machine.(buffer := Buffer([SECOND], [], 0, false));
    assert Step(GRAMMAR, s) == Pending(m, FIRST);
    assert GRAMMAR.Lookup(R0, 1) == Some(ENTER);
    var prepared := Prepare(GRAMMAR, m, ENTER);
    assert prepared == m.(stack := [StackNode(R, 0, 1, R1, 0, Plain, false)]);
    assert ENTER.pushes[1..] == [];
    var (pushed, recording) := ApplyPush(GRAMMAR, prepared, ENTER.pushes[0], FIRST, false);
    assert pushed.stack == [BOTTOM, StackNode(P, 1, 1, P1, 0, Plain, false)] && pushed.tree == m.tree;
    assert ApplyPushes(GRAMMAR, pushed, [], FIRST, recording) == pushed;
    assert ApplyPushes(GRAMMAR, prepared, ENTER.pushes, FIRST, false) == pushed;
    assert AddLeaf(pushed, 1, FIRST) == ENTERED;
    assert ApplyPlan(GRAMMAR, m, ENTER, FIRST) == ENTERED;
    assert Run(GRAMMAR, s, 2) == Run(GRAMMAR, Step(GRAMMAR, s), 1) == Run(GRAMMAR, Step(GRAMMAR, Step(GRAMMAR, s)), 0);
  }

  /** The error node and its leaf stand beside the first leaf. */
  const FAILED := Machine(
    [BOTTOM, StackNode(P, 1, 2, P1, 1, Plain, false)],
    [InternalNode(0, R, 0, 0), InternalNode(1, 1, 0, 1), InternalNode(0, 0xC002, 2, 1), InternalNode(0, 0x4002, 2, 1)],
    Buffer([], [], 0, false))

  lemma Fails()
    ensures Run(GRAMMAR, Idle(ENTERED), 2) == Idle(FAILED)
  {
    var m := ENTERED.(buffer := Buffer([], [], 0, false));
    assert [SECOND][1..] == [];
    assert Step(GRAMMAR, Idle(ENTERED)) == Pending(m, SECOND);
    assert GRAMMAR.Lookup(P1, 2) == None && !GRAMMAR.Info(P1).isFinal && GRAMMAR.Info(P1).errorNode == Some(0x8002);
    assert AddErrorNode(m, 0x8002, SECOND) == FAILED;
    assert Step(GRAMMAR, Pending(m, SECOND)) == Idle(FAILED);
    assert Run(GRAMMAR, Idle(ENTERED), 2) == Run(GRAMMAR, Pending(m, SECOND), 1) == Run(GRAMMAR, Idle(FAILED), 0);
  }

  const LOST := [InternalNode(0, 0xC000, 0, 3), InternalNode(1, 0x4001, 0, 3), InternalNode(0, 0xC002, 2, 1),
                 InternalNode(0, 0x4002, 2, 1)]

  lemma PopsBoth()
    ensures PopFailed(FAILED, 0) == Ok(Machine([], LOST, FAILED.buffer))
  {
    var t := FAILED.tree;
    var popped := Machine([BOTTOM], t[1 := InternalNode(1, 0x4001, 0, 3)], FAILED.buffer);
    assert PopNormal(FAILED).stack == [BOTTOM] && PopNormal(FAILED).tree == t[1 := InternalNode(1, 1, 0, 3)];
    assert PopNormal(FAILED).tree[1 := InternalNode(1, 0x4001, 0, 3)] == popped.tree;
    assert PopFailed(FAILED, 0) == PopFailed(popped, 0);
    var last := Machine([], LOST, FAILED.buffer);
    assert PopNormal(popped).stack == [];
    assert PopNormal(popped).tree[0 := InternalNode(0, 0xC000, 0, 3)] == LOST;
    assert PopFailed(popped, 0) == PopFailed(last, 0);
  }

  lemma Ends()
    ensures Run(GRAMMAR, Idle(FAILED), 2) == Done(LOST)
  {
    assert Recover(GRAMMAR, FAILED, 2, false) == Recovered(PopFailed(FAILED, 0), false) by {
      RecoverDown(GRAMMAR, FAILED, 1, false);
      RecoverDown(GRAMMAR, FAILED, 0, false);
    }
    PopsBoth();
    assert Step(GRAMMAR, Idle(FAILED)) == Idle(Machine([], LOST, FAILED.buffer));
    assert Run(GRAMMAR, Idle(FAILED), 2) == Run(GRAMMAR, Step(GRAMMAR, Idle(FAILED)), 1)
        == Run(GRAMMAR, Step(GRAMMAR, Step(GRAMMAR, Idle(FAILED))), 0);
  }

  /** The parser finishes with a tree whose first leaf has length 3 where the
      token has length 1. The tables are those of a grammar, and of the steps it
      is the last pop whose guard fails. */
  lemma RecoveryLosesLength()
    ensures TablesOk(GRAMMAR) && TokensOk(INPUT)
    ensures Run(GRAMMAR, Start(GRAMMAR, R, INPUT), 4) == Idle(FAILED) && !KeepsLengths(GRAMMAR, Idle(FAILED))
    ensures Run(GRAMMAR, Start(GRAMMAR, R, INPUT), 6) == Done(LOST)
    ensures Leaves(LOST, true) == [(0, 3), (2, 1)] && Keys(INPUT, true) == [(0, 1), (2, 1)]
  {
    TablesAreOk();
    Enters();
    Fails();
    Ends();
    RunJoin(GRAMMAR, Start(GRAMMAR, R, INPUT), 2, 2);
    RunJoin(GRAMMAR, Start(GRAMMAR, R, INPUT), 4, 2);
    GuardFails();
    LeavesOfLost();
  }

  lemma GuardFails()
    ensures !KeepsLengths(GRAMMAR, Idle(FAILED))
  {
    assert !CanRecover(GRAMMAR, FAILED, 1) && CanRecover(GRAMMAR, FAILED, 0);
    assert Recoverer(GRAMMAR, FAILED, 2) == Recoverer(GRAMMAR, FAILED, 1) == 0;
    assert Pops(FAILED, 0) && !UpdateIsSafe(FAILED.tree, FAILED.stack[1].treeNodeIndex);
  }

  lemma LeavesOfLost()
    ensures Leaves(LOST, true) == [(0, 3), (2, 1)]
  {
    assert LOST == LOST[..1] + [LOST[1]] + [LOST[2]] + [LOST[3]];
    LeavesOfOne(LOST[0], true);
    LeavesOfOne(LOST[2], true);
    LeavesAppend(LOST[..1], LOST[1], true);
    LeavesAppend(LOST[..1] + [LOST[1]], LOST[2], true);
    LeavesAppend(LOST[..1] + [LOST[1]] + [LOST[2]], LOST[3], true);
    assert LOST[..1] == [LOST[0]];
  }
}
