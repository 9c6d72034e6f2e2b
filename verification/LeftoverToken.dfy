/** A run without errors that panics: the root rule `R: 1` on the tokens `1 1`.
    The root is finished when the second token comes. */
module LeftoverToken {
  import opened Rules
  import Powerset
  import opened Trees
  import opened ReplayBuffer
  import opened Parsing
  import opened Derivations
  import opened Plans
  import opened Soundness
  import opened ErrorFreeRuns

  const R: nat := 0x8000
  const ONE := Terminal(1)

  const R0 := StateId(R, 0)
  const R1 := StateId(R, 1)

  const ROWS := [
    Powerset.DfaState({0}, false, true, [Powerset.DfaTransition(ONE, 1)]),
    Powerset.DfaState({1}, true, true, [])]

  const TABLES := Tables(map[R := ROWS], {}, map[], map[])

  const LEAF := Plan([], R1, 1, LL)

  const GRAMMAR := Grammar(
    map[
      R0 := StateInfo(false, false, false, None, map[1 := LEAF]),
      R1 := StateInfo(true, false, false, None, map[])
    ],
    {})

  lemma GrammarIsSound()
    ensures GrammarSound(GRAMMAR, TABLES)
  {
    assert TABLES.Matches(ONE, 1) && Powerset.Next(ROWS, 0, ONE) == Some(1);
    assert PlanReads(TABLES, R0, 1, LEAF, ONE);
  }

  const FIRST := Token(3, 1, 1)
  const SECOND := Token(4, 1, 1)
  const INPUT := [FIRST, SECOND]

  const READ := Machine([StackNode(R, 0, 1, R1, 1, Plain, false)], [InternalNode(0, R, 0, 0), InternalNode(0, 1, 3, 1)],
                        Buffer([SECOND], [], 0, false))

  lemma ReadsFirst()
    ensures Run(GRAMMAR, Start(GRAMMAR, R, INPUT), 2) == Idle(READ) && NoErrors(GRAMMAR, Start(GRAMMAR, R, INPUT), 2)
  {
    var s := Start(GRAMMAR, R, INPUT);
    assert INPUT[1..] == [SECOND];
    var m := s.machine.(buffer := Buffer([SECOND], [], 0, false));
    assert Step(GRAMMAR, s) == Pending(m, FIRST);
    assert GRAMMAR.Lookup(R0, 1) == Some(LEAF);
    assert Prepare(GRAMMAR, m, LEAF) == m.(stack := [StackNode(R, 0, 1, R1, 0, Plain, false)]);
    assert ApplyPlan(GRAMMAR, m, LEAF, FIRST) == READ;
    TwoSteps(GRAMMAR, s, Pending(m, FIRST), Idle(READ));
  }

  /** The root is ended with the second token at hand. */
  const ENDED := Machine([], [InternalNode(0, R, 0, 4), InternalNode(0, 1, 3, 1)], Buffer([], [], 0, false))

  lemma EndsWithFirst(m: Machine)
    requires m == READ.(buffer := ENDED.buffer)
    ensures EndOfNode(m) == Ok(ENDED)
  {
    assert UpdatePosition(m.tree, m.Tos()) == ENDED.tree;
    assert PopNormal(m).stack == [];
  }

  lemma EndsRoot()
    ensures Run(GRAMMAR, Idle(READ), 2) == Pending(ENDED, SECOND) && NoErrors(GRAMMAR, Idle(READ), 2)
  {
    var m := READ.(buffer := Buffer([], [], 0, false));
    assert [SECOND][1..] == [];
    assert Step(GRAMMAR, Idle(READ)) == Pending(m, SECOND);
    assert GRAMMAR.Lookup(R1, 1) == None && GRAMMAR.Info(R1).isFinal;
    EndsWithFirst(m);
    TwoSteps(GRAMMAR, Idle(READ), Pending(m, SECOND), Pending(ENDED, SECOND));
  }

  /** No step needs error recovery, and the fifth one panics: a token is left when
      the root is finished. */
  lemma LeftoverTokenPanics()
    ensures GrammarSound(GRAMMAR, TABLES) && NoErrors(GRAMMAR, Start(GRAMMAR, R, INPUT), 5)
    ensures Run(GRAMMAR, Start(GRAMMAR, R, INPUT), 4) == Pending(ENDED, SECOND) && InputLeft(Pending(ENDED, SECOND))
    ensures Run(GRAMMAR, Start(GRAMMAR, R, INPUT), 5) == Panicked
  {
    GrammarIsSound();
    ReadsFirst();
    EndsRoot();
    ErrorFreeJoin(GRAMMAR, Start(GRAMMAR, R, INPUT), 2, 2);
    OneStep(Pending(ENDED, SECOND));
    ErrorFreeJoin(GRAMMAR, Start(GRAMMAR, R, INPUT), 4, 1);
  }

  lemma OneStep(s: Status)
    requires NoError(GRAMMAR, s)
    ensures Run(GRAMMAR, s, 1) == Step(GRAMMAR, s) && NoErrors(GRAMMAR, s, 1)
  {
    assert Run(GRAMMAR, s, 1) == Run(GRAMMAR, Step(GRAMMAR, s), 0);
  }
}
