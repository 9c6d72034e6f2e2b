/** A sentence that the parser refuses since it is greedy: `1 1` for the root rule
    `R: B 1` with `B: 1+`. The inner rule takes both tokens. */
module GreedyRefusal {
  import opened Rules
  import Powerset
  import opened Trees
  import opened ReplayBuffer
  import opened Parsing
  import opened Derivations
  import opened Plans
  import opened Soundness
  import opened Greedy
  import opened GreedyRuns

  const R: nat := 0x8000
  const B: nat := 0x8001
  const ONE := Terminal(1)

  const R0 := StateId(R, 0)
  const R1 := StateId(R, 1)
  const R2 := StateId(R, 2)
  const B0 := StateId(B, 0)
  const B1 := StateId(B, 1)

  const ROWS_R := [
    Powerset.DfaState({0}, false, true, [Powerset.DfaTransition(Nonterminal(B), 1)]),
    Powerset.DfaState({1}, false, true, [Powerset.DfaTransition(ONE, 2)]),
    Powerset.DfaState({2}, true, true, [])]

  const ROWS_B := [
    Powerset.DfaState({0}, false, true, [Powerset.DfaTransition(ONE, 1)]),
    Powerset.DfaState({1}, true, true, [Powerset.DfaTransition(ONE, 1)])]

  const TABLES := Tables(map[R := ROWS_R, B := ROWS_B], {}, map[], map[])

  const ENTER := Plan([Push(B, B1, LLPush)], R1, 1, LL)
  const MORE := Plan([], B1, 1, LL)

  const GRAMMAR := Grammar(
    map[
      R0 := StateInfo(false, false, false, None, map[1 := ENTER]),
      R1 := StateInfo(false, false, false, None, map[1 := Plan([], R2, 1, LL)]),
      R2 := StateInfo(true, false, false, None, map[]),
      B0 := StateInfo(false, false, false, None, map[1 := MORE]),
      B1 := StateInfo(true, false, false, None, map[1 := MORE])
    ],
    {})

  lemma RowsMove()
    ensures Powerset.Next(ROWS_R, 0, Nonterminal(B)) == Some(1) && Powerset.Next(ROWS_R, 1, ONE) == Some(2)
    ensures Powerset.Next(ROWS_B, 0, ONE) == Some(1) && Powerset.Next(ROWS_B, 1, ONE) == Some(1)
  {
  }

  lemma GrammarIsSound()
    ensures GrammarSound(GRAMMAR, TABLES)
  {
    RowsMove();
    assert TABLES.Matches(ONE, 1);
    forall id, key | id in GRAMMAR.states && key in GRAMMAR.states[id].plans
      ensures PlanReads(TABLES, id, key, GRAMMAR.states[id].plans[key], ONE)
    {
    }
  }

  const FIRST := Token(3, 1, 1)
  const SECOND := Token(4, 1, 1)
  const INPUT := [FIRST, SECOND]

  // ----- the sentence

  const INNER := DNode(B, 3, [DLeaf(ONE, 1, FIRST)])
  const LAST := DLeaf(ONE, 1, SECOND)
  const PARSE := DNode(R, 0, [INNER, LAST])

  lemma AcceptedWords()
    ensures Powerset.Accepts(ROWS_B, [ONE]) && Powerset.Accepts(ROWS_R, [Nonterminal(B), ONE])
  {
    RowsMove();
    assert [ONE][1..] == [] && [Nonterminal(B), ONE][1..] == [ONE];
    assert Powerset.Run(ROWS_B, 0, [ONE]) == Powerset.Run(ROWS_B, 1, []) == Some(1);
    assert Powerset.Run(ROWS_R, 1, [ONE]) == Powerset.Run(ROWS_R, 2, []) == Some(2);
    assert Powerset.Run(ROWS_R, 0, [Nonterminal(B), ONE]) == Powerset.Run(ROWS_R, 1, [ONE]);
  }

  lemma IsSentence()
    ensures Derives(TABLES, PARSE) && Filled(PARSE) && Label(PARSE) == Nonterminal(R) && Yield(PARSE) == INPUT
  {
    AcceptedWords();
    var inner, kids := INNER.kids, PARSE.kids;
    assert inner[1..] == [] && kids[1..] == [LAST] && [LAST][1..] == [];
    assert Labels(inner) == [ONE] + [] && YieldAll(inner) == [FIRST] + [];
    assert Labels([LAST]) == [ONE] + [] && YieldAll([LAST]) == [SECOND] + [];
    assert Labels(kids) == [Nonterminal(B)] + Labels([LAST]) && YieldAll(kids) == [FIRST] + YieldAll([LAST]);
    assert Labels(kids) == [Nonterminal(B), ONE];
    assert TABLES.Matches(ONE, 1) && Derives(TABLES, LAST) && Derives(TABLES, INNER);
  }

  // ----- the run

  const READ := Machine(
    [StackNode(R, 0, 1, R1, 1, Plain, false), StackNode(B, 1, 2, B1, 1, Plain, false)],
    [InternalNode(0, R, 0, 0), InternalNode(0, B, 3, 0), InternalNode(0, 1, 3, 1)],
    Buffer([SECOND], [], 0, false))

  lemma ReadsFirst()
    ensures Run(GRAMMAR, Start(GRAMMAR, R, INPUT), 2) == Idle(READ)
  {
    var s := Start(GRAMMAR, R, INPUT);
    assert INPUT[1..] == [SECOND];
    var m := s.machine.(buffer := Buffer([SECOND], [], 0, false));
    assert Step(GRAMMAR, s) == Pending(m, FIRST);
    assert GRAMMAR.Lookup(R0, 1) == Some(ENTER) && ENTER.pushes[1..] == [];
    var prepared := m.(stack := [StackNode(R, 0, 1, R1, 0, Plain, false)]);
    assert Prepare(GRAMMAR, m, ENTER) == prepared;
    var entered := Machine([StackNode(R, 0, 1, R1, 1, Plain, false), StackNode(B, 1, 2, B1, 0, Plain, false)],
                           [InternalNode(0, R, 0, 0), InternalNode(0, B, 3, 0)], m.buffer);
    assert ApplyPush(GRAMMAR, prepared, ENTER.pushes[0], FIRST, false).0 == entered;
    assert ApplyPushes(GRAMMAR, entered, [], FIRST, false) == entered;
    assert ApplyPlan(GRAMMAR, m, ENTER, FIRST) == READ;
    TwoSteps(GRAMMAR, s, Pending(m, FIRST), Idle(READ));
  }

  const BOTH := Machine(
    [StackNode(R, 0, 1, R1, 1, Plain, false), StackNode(B, 1, 3, B1, 2, Plain, false)],
    [InternalNode(0, R, 0, 0), InternalNode(0, B, 3, 0), InternalNode(1, 1, 3, 1), InternalNode(0, 1, 4, 1)],
    Buffer([], [], 0, false))

  lemma ReadsSecond()
    ensures Run(GRAMMAR, Idle(READ), 2) == Idle(BOTH)
  {
    var m := READ.(buffer := Buffer([], [], 0, false));
    assert [SECOND][1..] == [];
    assert Step(GRAMMAR, Idle(READ)) == Pending(m, SECOND);
    assert GRAMMAR.Lookup(B1, 1) == Some(MORE);
    assert ApplyPlan(GRAMMAR, m, MORE, SECOND) == BOTH;
    TwoSteps(GRAMMAR, Idle(READ), Pending(m, SECOND), Idle(BOTH));
  }

  /** The inner node ends with the input, and the root is not finished. */
  lemma Fails()
    ensures Run(GRAMMAR, Idle(BOTH), 1).Idle? && !NoError(GRAMMAR, Run(GRAMMAR, Idle(BOTH), 1))
  {
    assert EndOfNode(BOTH).Ok?;
    assert Run(GRAMMAR, Idle(BOTH), 1) == Run(GRAMMAR, Step(GRAMMAR, Idle(BOTH)), 0);
  }

  lemma RunFails()
    ensures !NoError(GRAMMAR, Run(GRAMMAR, Start(GRAMMAR, R, INPUT), 5))
  {
    ReadsFirst();
    ReadsSecond();
    Fails();
    RunJoin(GRAMMAR, Start(GRAMMAR, R, INPUT), 2, 2);
    RunJoin(GRAMMAR, Start(GRAMMAR, R, INPUT), 4, 1);
  }

  /** The tokens are a sentence of the root rule, the sixth step on them needs error
      recovery, and there is no greedy derivation of them or of a first part. */
  lemma SentenceIsRefused()
    ensures GrammarSound(GRAMMAR, TABLES)
    ensures Derives(TABLES, PARSE) && Filled(PARSE) && Label(PARSE) == Nonterminal(R) && Yield(PARSE) == INPUT
    ensures !NoError(GRAMMAR, Run(GRAMMAR, Start(GRAMMAR, R, INPUT), 5)) && !HasGreedy(GRAMMAR, TABLES, R, INPUT)
  {
    GrammarIsSound();
    IsSentence();
    RunFails();
    if prefix, nodes, d :| GreedyParse(GRAMMAR, TABLES, R, INPUT, prefix, nodes, d) {
      GreedyIsErrorFree(GRAMMAR, TABLES, R, INPUT, prefix, nodes, d, 6);
    }
  }
}
