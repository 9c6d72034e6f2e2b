/** A run in which backtracking loses a token. The rule `P: a (X c c | Y d)`,
    with `X: b` and `Y: b`, may be left out of the tree; its second child is
    where the alternatives begin. On `a b c e` the first alternative gets to
    `c`; the second one, entered with one child counted, makes a second node for
    `P` below the saved count; going back to the first then drops `a`. */
module TokenLoss {
  import opened Rules
  import opened Trees
  import opened ReplayBuffer
  import opened Parsing
  import opened Backtracking

  const P: nat := 0x8000
  const X: nat := 0x8001
  const Y: nat := 0x8002

  // The states of P: at its start, after `a`, the end; those of the first
  // alternative after X, X c and X c c; those of the second after Y and Y d.
  const P0 := StateId(P, 0)
  const P1 := StateId(P, 1)
  const P_END := StateId(P, 2)
  const A1 := StateId(P, 3)
  const A2 := StateId(P, 4)
  const A3 := StateId(P, 5)
  const B1 := StateId(P, 6)
  const B2 := StateId(P, 7)
  const X0 := StateId(X, 0)
  const X1 := StateId(X, 1)
  const Y0 := StateId(Y, 0)
  const Y1 := StateId(Y, 1)

  function State(omitted: bool, final: bool, plans: map<nat, Plan>): StateInfo {
    StateInfo(final, omitted, false, None, plans)
  }

  function Take(key: nat, next: StateId): Plan {
    Plan([], next, key, LL)
  }

  const FIRST := Plan([Push(X, X1, LLPush)], A1, 2, LL)
  const SECOND := Plan([Push(Y, Y1, LLPush)], B1, 2, LL)
  const BOTH := Plan([Push(P, A1, AlternativePush(SECOND, FIRST)), Push(X, X1, LLPush)], P_END, 2, LL)

  const GRAMMAR := Grammar(
    map[
      P0 := State(true, false, map[1 := Take(1, P1)]),
      P1 := State(true, false, map[2 := BOTH]),
      P_END := State(true, true, map[]),
      A1 := State(true, false, map[3 := Take(3, A2)]),
      A2 := State(true, false, map[3 := Take(3, A3)]),
      A3 := State(true, true, map[]),
      B1 := State(true, false, map[4 := Take(4, B2)]),
      B2 := State(true, true, map[]),
      X0 := State(false, false, map[2 := Take(2, X1)]),
      X1 := State(false, true, map[]),
      Y0 := State(false, false, map[2 := Take(2, Y1)]),
      Y1 := State(false, true, map[])
    ],
    {})

  // The tables are those of a grammar.

  lemma OnePushIsOk(rule: nat, push: Push)
    requires PushOk(GRAMMAR, rule, push)
    ensures PushesOk(GRAMMAR, rule, [push])
  {
    assert [push][1..] == [];
  }

  lemma AlternativesAreOk()
    ensures PlanOk(GRAMMAR, P, FIRST) && PlanOk(GRAMMAR, P, SECOND)
  {
    OnePushIsOk(P, Push(X, X1, LLPush));
    OnePushIsOk(P, Push(Y, Y1, LLPush));
  }

  lemma BothIsOk()
    ensures PlanOk(GRAMMAR, P, BOTH)
  {
    AlternativesAreOk();
    OnePushIsOk(P, Push(X, X1, LLPush));
    assert BOTH.pushes[1..] == [Push(X, X1, LLPush)];
    assert PushOk(GRAMMAR, P, BOTH.pushes[0]);
  }

  lemma TakeIsOk(rule: nat, index: nat, key: nat)
    requires StateId(rule, index) in GRAMMAR.states && key < NODE_START
    ensures PlanOk(GRAMMAR, rule, Take(key, StateId(rule, index)))
  {
  }

  lemma RuleIsOk(id: StateId)
    requires id in {P0, P1, P_END, A1, A2, A3, B1, B2}
    ensures StateOk(GRAMMAR, id, GRAMMAR.Info(id))
  {
    BothIsOk();
    TakeIsOk(P, 1, 1);
    TakeIsOk(P, 4, 3);
    TakeIsOk(P, 5, 3);
    TakeIsOk(P, 7, 4);
  }

  lemma ChildIsOk(id: StateId)
    requires id in {X0, X1, Y0, Y1}
    ensures StateOk(GRAMMAR, id, GRAMMAR.Info(id))
  {
    TakeIsOk(X, 1, 2);
    TakeIsOk(Y, 1, 2);
  }

  lemma TablesAreOk()
    ensures TablesOk(GRAMMAR)
  {
    forall id | id in GRAMMAR.states
      ensures StateOk(GRAMMAR, id, GRAMMAR.states[id])
    {
      if id.rule == P {
        RuleIsOk(id);
      } else {
        ChildIsOk(id);
      }
    }
  }

  const A := Token(0, 1, 1)
  const B := Token(1, 1, 2)
  const C := Token(2, 1, 3)
  const E := Token(3, 1, 5)
  const INPUT := [A, B, C, E]

  const POINT := BacktrackingPoint(2, 0, 1, FIRST)

  const BOTTOM := StackNode(P, 0, 2, P_END, 2, Plain, false)

  // The steps of the run, as the machine goes through them.

  const READING := Machine([StackNode(P, 0, 0, P1, 1, Plain, false)], [InternalNode(0, 1, 0, 1)],
                           Buffer([B, C, E], [], 0, false))

  lemma ReadsA()
    ensures Run(GRAMMAR, Start(GRAMMAR, P, INPUT), 2) == Idle(READING)
  {
    var s := Start(GRAMMAR, P, INPUT);
    assert INPUT[1..] == [B, C, E];
    assert Step(GRAMMAR, s).Pending? && Step(GRAMMAR, s).token == A;
    assert Run(GRAMMAR, s, 2) == Run(GRAMMAR, Step(GRAMMAR, s), 1) == Run(GRAMMAR, Step(GRAMMAR, Step(GRAMMAR, s)), 0);
  }

  const ENTERED := Machine(
    [BOTTOM, StackNode(P, 0, 2, A1, 2, Alternative(POINT, SECOND), true), StackNode(X, 2, 3, X1, 1, Plain, true)],
    [InternalNode(0, P, 0, 0), InternalNode(1, 1, 0, 1), InternalNode(0, X, 1, 0), InternalNode(0, 2, 1, 1)],
    Buffer([C, E], [B], 1, true))

  lemma EntersFirst()
    ensures Step(GRAMMAR, Idle(READING)) == Pending(READING.(buffer := Buffer([C, E], [], 0, false)), B)
    ensures Step(GRAMMAR, Step(GRAMMAR, Idle(READING))) == Idle(ENTERED)
  {
    assert [B, C, E][1..] == [C, E];
    var m := READING.(buffer := Buffer([C, E], [], 0, false));
    assert GRAMMAR.Lookup(P1, 2) == Some(BOTH);
    var prepared := Prepare(GRAMMAR, m, BOTH);
    assert prepared
           == Machine([BOTTOM.(childrenCount := 1)], [InternalNode(0, P, 0, 0), InternalNode(1, 1, 0, 1)], m.buffer);
    var (m1, r1) := ApplyPush(GRAMMAR, prepared, BOTH.pushes[0], B, false);
    assert m1.stack == [BOTTOM, StackNode(P, 0, 2, A1, 1, Alternative(POINT, SECOND), true)] && r1;
    assert BOTH.pushes[1..] == [Push(X, X1, LLPush)] && BOTH.pushes[1..][1..] == [];
    var (m2, r2) := ApplyPush(GRAMMAR, m1, BOTH.pushes[1], B, r1);
    assert m2.stack == ENTERED.stack[2 := StackNode(X, 2, 3, X1, 0, Plain, true)];
    assert ApplyPushes(GRAMMAR, m2, [], B, r2) == m2;
    assert ApplyPushes(GRAMMAR, m1, BOTH.pushes[1..], B, r1) == m2;
    assert ApplyPushes(GRAMMAR, prepared, BOTH.pushes, B, false) == m2;
    assert AddLeaf(m2, 2, B) == ENTERED;
    assert PlanApplies(GRAMMAR, m, BOTH);
    assert ApplyPlan(GRAMMAR, m, BOTH, B) == ENTERED;
  }

  /** The first alternative has read `b` and `c`. */
  const AHEAD := Machine(
    [BOTTOM, StackNode(P, 0, 4, A2, 3, Alternative(POINT, SECOND), true)],
    [InternalNode(0, P, 0, 0), InternalNode(1, 1, 0, 1), InternalNode(2, X, 1, 1), InternalNode(0, 2, 1, 1),
     InternalNode(0, 3, 2, 1)],
    Buffer([E], [B, C], 2, true))

  lemma GetsAhead()
    ensures Run(GRAMMAR, Idle(ENTERED), 3) == Idle(AHEAD)
  {
    var m := ENTERED.(buffer := Buffer([E], [B, C], 2, true));
    assert [C, E][1..] == [E] && [B] + [C] == [B, C];
    assert Step(GRAMMAR, Idle(ENTERED)) == Pending(m, C);
    var popped := PopNormal(m);
    assert GRAMMAR.Lookup(X1, 3) == None && GRAMMAR.Info(X1).isFinal;
    assert Step(GRAMMAR, Pending(m, C)) == Pending(popped, C);
    assert popped.stack == ENTERED.stack[..2];
    assert GRAMMAR.Lookup(A1, 3) == Some(Take(3, A2));
    assert Prepare(GRAMMAR, popped, Take(3, A2)).tree == AHEAD.tree[..4];
    assert ApplyPlan(GRAMMAR, popped, Take(3, A2), C) == AHEAD;
    assert Run(GRAMMAR, Idle(ENTERED), 3) == Run(GRAMMAR, Pending(m, C), 2) == Run(GRAMMAR, Pending(popped, C), 1)
           == Run(GRAMMAR, Idle(AHEAD), 0);
  }

  /** The state in which `e` has come and the second alternative is entered. */
  const FAILING := Pending(AHEAD.(buffer := Buffer([], [B, C, E], 3, true)), E)

  /** The second alternative: `P` has two nodes now, and the saved count ends
      between them and `a`. */
  const AGAIN := Machine(
    [BOTTOM, StackNode(P, 0, 3, B1, 2, LastAlternative(POINT, 2, true), true), StackNode(Y, 3, 4, Y1, 1, Plain, true)],
    [InternalNode(0, P, 0, 0), InternalNode(2, P, 0, 0), InternalNode(1, 1, 0, 1), InternalNode(0, Y, 1, 0),
     InternalNode(0, 2, 1, 1)],
    Buffer([], [B, C, E], 1, true))

  lemma SecondApplied(ready: Machine)
    requires ready == Machine([BOTTOM, StackNode(P, 0, 4, A2, 1, LastAlternative(POINT, 2, true), true)],
                              [InternalNode(0, P, 0, 0), InternalNode(1, 1, 0, 1)], Buffer([], [B, C, E], 1, true))
    ensures PlanApplies(GRAMMAR, ready, SECOND) && ApplyPlan(GRAMMAR, ready, SECOND, B) == AGAIN
  {
    var prepared := Prepare(GRAMMAR, ready, SECOND);
    assert prepared.tree == AGAIN.tree[..3];
    assert prepared.stack == [BOTTOM, StackNode(P, 0, 3, B1, 1, LastAlternative(POINT, 2, true), true)];
    assert SECOND.pushes[1..] == [];
    var (m1, r1) := ApplyPush(GRAMMAR, prepared, SECOND.pushes[0], B, true);
    assert m1.stack
           == [BOTTOM, StackNode(P, 0, 3, B1, 2, LastAlternative(POINT, 2, true), true),
               StackNode(Y, 3, 4, Y1, 0, Plain, true)];
    assert ApplyPushes(GRAMMAR, m1, [], B, r1) == m1;
    assert ApplyPushes(GRAMMAR, prepared, SECOND.pushes, B, true) == m1;
    assert AddLeaf(m1, 2, B) == AGAIN;
  }

  lemma EntersSecond()
    ensures Run(GRAMMAR, Idle(AHEAD), 1) == FAILING && Run(GRAMMAR, Idle(AHEAD), 2) == Idle(AGAIN)
  {
    var m := AHEAD.(buffer := Buffer([], [B, C, E], 3, true));
    assert [E][1..] == [] && [B, C] + [E] == [B, C, E];
    assert Step(GRAMMAR, Idle(AHEAD)) == Pending(m, E);
    assert GRAMMAR.Lookup(A2, 5) == None && !GRAMMAR.Info(A2).isFinal && GRAMMAR.Info(A2).errorNode == None;
    assert RecoverAt(GRAMMAR, m, 1, true) == Some(Recovered(Fallback(GRAMMAR, m, 1), false));
    var (ready, token) := FallbackReady(m, 1);
    assert token == Some(B);
    assert ready == Machine([BOTTOM, StackNode(P, 0, 4, A2, 1, LastAlternative(POINT, 2, true), true)],
                            [InternalNode(0, P, 0, 0), InternalNode(1, 1, 0, 1)], Buffer([], [B, C, E], 1, true));
    SecondApplied(ready);
    assert Fallback(GRAMMAR, m, 1) == Ok(AGAIN);
    assert Step(GRAMMAR, Pending(m, E)) == Idle(AGAIN);
    assert Run(GRAMMAR, Idle(AHEAD), 2) == Run(GRAMMAR, Pending(m, E), 1) == Run(GRAMMAR, Idle(AGAIN), 0);
  }

  /** Back at the first alternative: `a` is gone. */
  const LOST := Machine(
    [StackNode(P, 0, 2, A1, 1, Plain, false), StackNode(X, 2, 3, X1, 1, Plain, false)],
    [InternalNode(0, P, 0, 0), InternalNode(2, P, 0, 0), InternalNode(0, X, 1, 0), InternalNode(0, 2, 1, 1)],
    Buffer([], [B, C, E], 1, false))

  lemma FirstApplied(ready: Machine)
    requires ready == Machine([BOTTOM.(childrenCount := 0)], [InternalNode(0, P, 0, 0), InternalNode(2, P, 0, 0)],
                              Buffer([], [B, C, E], 1, true))
    ensures PlanApplies(GRAMMAR, ready, FIRST) && ApplyPlan(GRAMMAR, ready, FIRST, B) == LOST.(buffer := ready.buffer)
  {
    var prepared := Prepare(GRAMMAR, ready, FIRST);
    assert prepared.tree == ready.tree && prepared.stack == [StackNode(P, 0, 2, A1, 0, Plain, false)];
    assert FIRST.pushes[1..] == [];
    var (m1, r1) := ApplyPush(GRAMMAR, prepared, FIRST.pushes[0], B, false);
    assert m1.stack == [StackNode(P, 0, 2, A1, 1, Plain, false), StackNode(X, 2, 3, X1, 0, Plain, false)];
    assert ApplyPushes(GRAMMAR, m1, [], B, r1) == m1;
    assert ApplyPushes(GRAMMAR, prepared, FIRST.pushes, B, false) == m1;
    assert AddLeaf(m1, 2, B) == LOST.(buffer := ready.buffer);
  }

  lemma GoesBack()
    ensures Run(GRAMMAR, Idle(AGAIN), 3) == Idle(LOST)
  {
    var m := AGAIN.(buffer := Buffer([], [B, C, E], 2, true));
    assert Step(GRAMMAR, Idle(AGAIN)) == Pending(m, C);
    assert GRAMMAR.Lookup(Y1, 3) == None && GRAMMAR.Info(Y1).isFinal;
    var popped := PopNormal(m);
    assert Step(GRAMMAR, Pending(m, C)) == Pending(popped, C);
    assert popped.stack == AGAIN.stack[..2] && popped.tree[..2] == LOST.tree[..2];
    assert GRAMMAR.Lookup(B1, 3) == None && !GRAMMAR.Info(B1).isFinal && GRAMMAR.Info(B1).errorNode == None;
    assert FirstWasBetter(popped, 1);
    assert RecoverAt(GRAMMAR, popped, 1, true) == Some(Recovered(Replay(GRAMMAR, popped, 1), false));
    var (ready, token) := ReplayReady(popped, 1);
    assert token == Some(B);
    assert ready.stack == [BOTTOM.(childrenCount := 0)];
    FirstApplied(ready);
    assert Replay(GRAMMAR, popped, 1) == Ok(LOST);
    assert Step(GRAMMAR, Pending(popped, C)) == Idle(LOST);
    assert Run(GRAMMAR, Idle(AGAIN), 3) == Run(GRAMMAR, Pending(m, C), 2) == Run(GRAMMAR, Pending(popped, C), 1)
           == Run(GRAMMAR, Idle(LOST), 0);
  }

  lemma RunLosesToken()
    ensures Run(GRAMMAR, Start(GRAMMAR, P, INPUT), 8) == FAILING
    ensures Run(GRAMMAR, Start(GRAMMAR, P, INPUT), 12) == Idle(LOST)
  {
    ReadsA();
    EntersFirst();
    GetsAhead();
    EntersSecond();
    GoesBack();
    var s := Start(GRAMMAR, P, INPUT);
    assert Run(GRAMMAR, Idle(READING), 2) == Run(GRAMMAR, Step(GRAMMAR, Idle(READING)), 1)
           == Run(GRAMMAR, Step(GRAMMAR, Step(GRAMMAR, Idle(READING))), 0);
    RunJoin(GRAMMAR, s, 2, 2);
    RunJoin(GRAMMAR, s, 4, 3);
    RunJoin(GRAMMAR, s, 7, 1);
    RunJoin(GRAMMAR, s, 7, 2);
    RunJoin(GRAMMAR, s, 9, 3);
  }

  lemma LeavesOfLost()
    ensures Leaves(LOST.tree, false) == [(1, 0)]
  {
    var t := LOST.tree;
    assert t[1..] == [t[1], t[2], t[3]] && t[1..][1..] == [t[2], t[3]];
    assert [t[2], t[3]][1..] == [t[3]];
    LeavesOfOne(t[3], false);
    assert Leaves([t[2], t[3]], false) == [] + Leaves([t[3]], false);
    assert Leaves(t[1..], false) == [] + Leaves([t[2], t[3]], false);
  }

  lemma GuardFails()
    ensures !KeepsSavedPoints(GRAMMAR, FAILING)
  {
    var m := FAILING.machine;
    var ready := FallbackReady(m, 1).0;
    assert ready.stack[1].mode == LastAlternative(POINT, 2, true) && ready.tree[1].IsLeaf();
    assert NeedsNode(GRAMMAR, ready, SECOND);
    assert !KeepsPoint(ready.tree, 0, ready.stack[1].mode.point);
    assert !RecoverAtKeeps(GRAMMAR, m, 1) && CanRecover(GRAMMAR, m, 1);
    assert GRAMMAR.Lookup(A2, 5) == None && !GRAMMAR.Info(A2).isFinal && GRAMMAR.Info(A2).errorNode == None;
    assert !ErrorKeeps(GRAMMAR, m, true);
  }

  lemma ReadSoFar()
    ensures TokensOk(INPUT) && INPUT[..Cursor(INPUT, LOST.buffer)] == [A, B]
    ensures Keys([A, B], false) == [(0, 0), (1, 0)]
  {
  }

  /** After twelve steps the leaves are not the tokens read: the second of two
      tokens is there, the first is lost. The tables are those of a grammar, and
      the guard fails at the step that enters the second alternative. */
  lemma BacktrackingLosesToken()
    ensures TablesOk(GRAMMAR) && TokensOk(INPUT)
    ensures Run(GRAMMAR, Start(GRAMMAR, P, INPUT), 8) == FAILING && !KeepsSavedPoints(GRAMMAR, FAILING)
    ensures Run(GRAMMAR, Start(GRAMMAR, P, INPUT), 12) == Idle(LOST)
    ensures INPUT[..Cursor(INPUT, LOST.buffer)] == [A, B]
    ensures Leaves(LOST.tree, false) == [(1, 0)] && Keys([A, B], false) == [(0, 0), (1, 0)]
  {
    TablesAreOk();
    ReadSoFar();
    RunLosesToken();
    LeavesOfLost();
    GuardFails();
  }
}
