/** What left recursion does to leaves and to starts: which leaves have another
    type than their label, and a run of the rule `R: R n | n`, with a soft keyword
    of `n`, in which a leaf has and a node starts before its first leaf. */
module LeftRecursion {
  import opened Rules
  import opened Powerset
  import opened Trees
  import opened ReplayBuffer
  import opened Parsing
  import opened Derivations
  import opened Plans
  import opened Soundness
  import opened Navigation
  import opened ParsedTrees

  // ----- types of leaves

  /** The label takes the key as a soft keyword, and not as its own type. */
  predicate OnlySoft(t: Tables, kind: TransitionType, key: nat) {
    t.Matches(kind, key) && !t.HasType(kind, key)
  }

  /** A plan makes a leaf of another type than its label's if and only if it is one
      of left recursion and takes a soft keyword. */
  lemma PlanTypeIsExact(t: Tables, id: StateId, key: nat, plan: Plan, kind: TransitionType)
    requires id.rule in t.dfas && id.index < |t.dfas[id.rule]| && PlanReads(t, id, key, plan, kind)
    ensures !t.HasType(kind, plan.type_) <==> plan.mode == LeftRecursive && OnlySoft(t, kind, key)
  {
  }

  predicate ValidIn(d: Deriv, path: seq<nat>)
    decreases |path|
  {
    path != [] ==> d.DNode? && path[0] < |d.kids| && ValidIn(d.kids[path[0]], path[1..])
  }

  function At(d: Deriv, path: seq<nat>): Deriv
    requires ValidIn(d, path)
    decreases |path|
  {
    if path == [] then d else At(d.kids[path[0]], path[1..])
  }

  /** Where the path leads to, a rule goes on that was its own first child. */
  predicate IsContinued(d: Deriv, path: seq<nat>, continued: bool)
    requires ValidIn(d, path)
    decreases |path|
  {
    if path == [] then continued
    else IsContinued(d.kids[path[0]], path[1..], Continues(d.rule, d.kids, path[0], continued))
  }

  /** The last step but first children is to the second child of a node that begins
      with a node of its own rule. */
  predicate BehindItself(d: Deriv, path: seq<nat>, k: nat)
    requires ValidIn(d, path) && k < |path|
    decreases k
  {
    if k > 0 then BehindItself(d.kids[path[0]], path[1..], k - 1)
    else path[0] == 1 && IsOf(d.kids[0], d.rule) && IsLeftmost(path[1..])
  }

  lemma {:induction false} LeftmostIsContinued(d: Deriv, path: seq<nat>, continued: bool)
    requires ValidIn(d, path) && IsLeftmost(path)
    ensures IsContinued(d, path, continued) <==> continued
    decreases |path|
  {
    if path != [] {
      LeftmostIsContinued(d.kids[path[0]], path[1..], continued);
    }
  }

  ghost predicate IsBehindItself(d: Deriv, path: seq<nat>)
    requires ValidIn(d, path)
  {
    exists k :: 0 <= k < |path| && BehindItself(d, path, k)
  }

  lemma BehindFurther(d: Deriv, path: seq<nat>)
    requires ValidIn(d, path) && path != []
    ensures IsBehindItself(d, path) <==> BehindItself(d, path, 0) || IsBehindItself(d.kids[path[0]], path[1..])
  {
    var kid, rest := d.kids[path[0]], path[1..];
    if IsBehindItself(kid, rest) {
      var k :| 0 <= k < |rest| && BehindItself(kid, rest, k);
      assert BehindItself(d, path, k + 1);
    }
    if IsBehindItself(d, path) && !BehindItself(d, path, 0) {
      var k :| 0 <= k < |path| && BehindItself(d, path, k);
      assert BehindItself(kid, rest, k - 1);
    }
  }

  /** What `IsContinued` says in terms of the path. */
  lemma {:induction false} ContinuedIsBehind(d: Deriv, path: seq<nat>, continued: bool)
    requires ValidIn(d, path)
    ensures IsContinued(d, path, continued) <==> (continued && IsLeftmost(path)) || IsBehindItself(d, path)
    decreases |path|
  {
    if path != [] {
      var kid, rest, next := d.kids[path[0]], path[1..], Continues(d.rule, d.kids, path[0], continued);
      ContinuedIsBehind(kid, rest, next);
      assert IsLeftmost(path) <==> path[0] == 0 && IsLeftmost(rest) by {
        assert forall i :: 0 < i < |path| ==> path[i] == rest[i - 1];
      }
      BehindFurther(d, path);
    }
  }

  /** A leaf of a derivation has another type than its label's if and only if it is
      the first leaf behind a node that its rule begins with and that is of the
      same rule, and its token is a soft keyword of the label. */
  lemma {:induction false} LeafTypeIsExact(t: Tables, d: Deriv, continued: bool, path: seq<nat>)
    requires Derives(t, d) && LeafTypes(t, d, continued) && ValidIn(d, path) && At(d, path).DLeaf?
    ensures var leaf := At(d, path);
            && (!t.HasType(leaf.kind, leaf.type_) <==>
                  IsContinued(d, path, continued) && OnlySoft(t, leaf.kind, leaf.token.transition))
            && (IsContinued(d, path, continued) ==> leaf.type_ == leaf.token.transition)
    decreases |path|
  {
    if path != [] {
      assert AllTypes(t, d.rule, d.kids, continued);
      LeafTypeIsExact(t, d.kids[path[0]], Continues(d.rule, d.kids, path[0], continued), path[1..]);
    }
  }

  /** What that comes to for a parse. */
  lemma ParsedLeafTypes(t: Tables, root: nat, tokens: seq<Token>, nodes: seq<InternalNode>, d: Deriv, path: seq<nat>)
    requires IsParse(t, root, tokens, nodes, d) && ValidIn(d, path) && At(d, path).DLeaf?
    ensures var leaf := At(d, path);
            !t.HasType(leaf.kind, leaf.type_) <==>
              IsBehindItself(d, path) && OnlySoft(t, leaf.kind, leaf.token.transition)
  {
    LeafTypeIsExact(t, d, false, path);
    ContinuedIsBehind(d, path, false);
  }

  // ----- a run of a left-recursive rule

  const R: nat := 0x8000
  const N := Terminal(1)
  const KEYWORD: nat := 2

  const R0 := StateId(R, 0)
  const R1 := StateId(R, 1)
  const R2 := StateId(R, 2)

  const ROWS := [
    DfaState({0}, false, true, [DfaTransition(Nonterminal(R), 1), DfaTransition(N, 2)]),
    DfaState({1}, false, true, [DfaTransition(N, 2)]),
    DfaState({2}, true, true, [])]

  const TABLES := Tables(map[R := ROWS], {}, map["k" := KEYWORD], map[1 := {"k"}])

  /** The token of the rule's first leaf, and of the one behind the rule itself. */
  const LEAF := Plan([], R2, 1, LL)

  const GRAMMAR := Grammar(
    map[
      R0 := StateInfo(false, false, false, None, map[1 := LEAF, KEYWORD := LEAF]),
      R1 := StateInfo(false, false, false, None, map[1 := LEAF, KEYWORD := LEAF]),
      R2 := StateInfo(true, false, false, None,
                      map[1 := Plan([], R2, 1, LeftRecursive), KEYWORD := Plan([], R2, KEYWORD, LeftRecursive)])
    ],
    {})

  lemma TransitionsOfR()
    ensures Powerset.Next(ROWS, 0, Nonterminal(R)) == Some(1)
    ensures Powerset.Next(ROWS, 0, N) == Some(2) && Powerset.Next(ROWS, 1, N) == Some(2)
  {
    NextOfRow(ROWS[0].transitions, 0);
    NextOfRow(ROWS[0].transitions, 1);
    NextOfRow(ROWS[1].transitions, 0);
  }

  lemma GrammarIsSound()
    ensures GrammarSound(GRAMMAR, TABLES)
  {
    TransitionsOfR();
    assert TABLES.Matches(N, 1);
    assert TABLES.Matches(N, KEYWORD) by {
      assert "k" in TABLES.softKeywords[1] && "k" in TABLES.keywords && TABLES.keywords["k"] == KEYWORD;
    }
    forall id, key | id in GRAMMAR.states && key in GRAMMAR.states[id].plans
      ensures PlanReads(TABLES, id, key, GRAMMAR.states[id].plans[key], N)
    {
    }
  }

  const FIRST := Token(5, 1, 1)
  const SECOND := Token(6, 1, KEYWORD)
  const INPUT := [FIRST, SECOND]

  const READ := Machine([StackNode(R, 0, 1, R2, 1, Plain, false)], [InternalNode(0, R, 0, 0), InternalNode(0, 1, 5, 1)],
                        Buffer([SECOND], [], 0, false))

  lemma ReadsFirst()
    ensures Parsing.Run(GRAMMAR, Start(GRAMMAR, R, INPUT), 2) == Idle(READ)
            && NoErrors(GRAMMAR, Start(GRAMMAR, R, INPUT), 2)
  {
    var s := Start(GRAMMAR, R, INPUT);
    assert INPUT[1..] == [SECOND];
    var m := s.machine.(buffer := Buffer([SECOND], [], 0, false));
    assert Step(GRAMMAR, s) == Pending(m, FIRST);
    assert GRAMMAR.Lookup(R0, 1) == Some(LEAF);
    assert Prepare(GRAMMAR, m, LEAF) == m.(stack := [StackNode(R, 0, 1, R2, 0, Plain, false)]);
    assert ApplyPlan(GRAMMAR, m, LEAF, FIRST) == READ;
    TwoSteps(GRAMMAR, s, Pending(m, FIRST), Idle(READ));
  }

  /** The node is the first child of a new one, and the keyword the second. */
  const WRAPPED := Machine(
    [StackNode(R, 0, 3, R2, 2, Plain, false)],
    [InternalNode(0, R, 0, 0), InternalNode(2, R, 0, 6), InternalNode(0, 1, 5, 1), InternalNode(0, KEYWORD, 6, 1)],
    Buffer([], [], 0, false))

  lemma ReadsSecond()
    ensures Parsing.Run(GRAMMAR, Idle(READ), 2) == Idle(WRAPPED) && NoErrors(GRAMMAR, Idle(READ), 2)
  {
    var m := READ.(buffer := Buffer([], [], 0, false));
    assert [SECOND][1..] == [];
    var plan := Plan([], R2, KEYWORD, LeftRecursive);
    assert Step(GRAMMAR, Idle(READ)) == Pending(m, SECOND);
    assert GRAMMAR.Lookup(R2, KEYWORD) == Some(plan);
    var t := [InternalNode(0, R, 0, 0), InternalNode(0, R, 0, 6), InternalNode(0, 1, 5, 1)];
    assert UpdatePosition(m.tree, m.Tos()) == t[1..];
    assert Insert(t[1..], 0, t[0]) == t;
    assert WrapInItself(m).tree == t;
    assert Prepare(GRAMMAR, m, plan).tree == t[1 := InternalNode(2, R, 0, 6)];
    assert ApplyPlan(GRAMMAR, m, plan, SECOND) == WRAPPED;
    TwoSteps(GRAMMAR, Idle(READ), Pending(m, SECOND), Idle(WRAPPED));
  }

  const NODES := [InternalNode(0, R, 0, 7), InternalNode(2, R, 0, 6), InternalNode(0, 1, 5, 1),
                  InternalNode(0, KEYWORD, 6, 1)]

  lemma Finishes()
    ensures Parsing.Run(GRAMMAR, Idle(WRAPPED), 2) == Done(NODES) && NoErrors(GRAMMAR, Idle(WRAPPED), 2)
  {
    assert UpdatePosition(WRAPPED.tree, WRAPPED.Tos()) == NODES;
    var m := Machine([], NODES, WRAPPED.buffer);
    assert EndOfNode(WRAPPED) == Ok(m);
    TwoSteps(GRAMMAR, Idle(WRAPPED), Idle(m), Done(NODES));
  }

  const INNER := DNode(R, 0, [DLeaf(N, 1, FIRST)])
  const SOFT := DLeaf(N, KEYWORD, SECOND)
  const PARSE := DNode(R, 0, [INNER, SOFT])

  lemma AcceptedWords()
    ensures Accepts(ROWS, [N]) && Accepts(ROWS, [Nonterminal(R), N])
  {
    TransitionsOfR();
    assert [N][1..] == [] && [Nonterminal(R), N][1..] == [N];
    assert Powerset.Run(ROWS, 2, []) == Some(2);
    assert Powerset.Run(ROWS, 0, [N]) == Powerset.Run(ROWS, 1, [N]) == Some(2);
    assert Powerset.Run(ROWS, 0, [Nonterminal(R), N]) == Powerset.Run(ROWS, 1, [N]);
  }

  lemma InnerDerives()
    ensures Derives(TABLES, INNER) && Filled(INNER) && Yield(INNER) == [FIRST] && Spans(INNER, true)
    ensures LeafTypes(TABLES, INNER, false) && End(INNER) == 6
    ensures Collapse({}, INNER) == Node(R, 0, 6, [Leaf(1, 5, 1)])
  {
    AcceptedWords();
    assert Labels(INNER.kids) == [N] by {
      assert INNER.kids[1..] == [];
    }
    assert AllSpan(R, INNER.kids, true);
    assert YieldAll(INNER.kids) == [FIRST] by {
      assert INNER.kids[1..] == [];
    }
    assert CollapseAll({}, INNER.kids) == [Leaf(1, 5, 1)] by {
      assert INNER.kids[1..] == [];
    }
  }

  lemma ParseDerives()
    ensures Derives(TABLES, PARSE) && Filled(PARSE) && Yield(PARSE) == INPUT && Spans(PARSE, true)
    ensures LeafTypes(TABLES, PARSE, false) && End(PARSE) == 7
    ensures Collapse({}, PARSE) == Node(R, 0, 7, [Node(R, 0, 6, [Leaf(1, 5, 1)]), Leaf(KEYWORD, 6, 1)])
  {
    AcceptedWords();
    InnerDerives();
    var kids := PARSE.kids;
    assert kids[1..] == [SOFT] && [SOFT][1..] == [];
    assert Labels([SOFT]) == [N] + [] && Labels(kids) == [Nonterminal(R)] + Labels(kids[1..]);
    assert AllSpan(R, kids, true);
    assert LeafTypes(TABLES, SOFT, true) && kids[0] == INNER && kids[1] == SOFT;
    assert Continues(R, kids, 1, false) && !Continues(R, kids, 0, false);
    assert AllTypes(TABLES, R, kids, false);
    assert Labels(kids) == [Nonterminal(R), N];
    assert TABLES.Matches(N, KEYWORD) by {
      assert "k" in TABLES.softKeywords[1] && "k" in TABLES.keywords && TABLES.keywords["k"] == KEYWORD;
    }
    assert Derives(TABLES, SOFT) && Accepts(ROWS, Labels(kids));
    assert YieldAll(kids) == [FIRST] + YieldAll([SOFT]) && YieldAll([SOFT]) == [SECOND] + [];
    assert CollapseAll({}, kids) == [Collapse({}, INNER)] + CollapseAll({}, [SOFT]);
    assert CollapseAll({}, [SOFT]) == [Leaf(KEYWORD, 6, 1)];
  }

  lemma ParseIsParse()
    ensures IsParse(TABLES, R, INPUT, NODES, PARSE)
  {
    ParseDerives();
    var inner, leaf := Node(R, 0, 6, [Leaf(1, 5, 1)]), Leaf(KEYWORD, 6, 1);
    assert inner.children[1..] == [] && [inner, leaf][1..] == [leaf] && [leaf][1..] == [];
    assert EncodeAll(inner.children) == Encode(Leaf(1, 5, 1), 0) + [];
    assert EncodeAll([leaf]) == Encode(leaf, 0) + [];
    assert EncodeAll([inner, leaf]) == Encode(inner, 2) + EncodeAll([leaf]);
    assert NODES == Encode(Node(R, 0, 7, [inner, leaf]), 0);
  }

  /** The parser finishes without an error, with the tree of this derivation. */
  lemma ParserFinishes()
    ensures GrammarSound(GRAMMAR, TABLES) && NoErrors(GRAMMAR, Start(GRAMMAR, R, INPUT), 6)
    ensures Parsing.Run(GRAMMAR, Start(GRAMMAR, R, INPUT), 6) == Done(NODES) && IsParse(TABLES, R, INPUT, NODES, PARSE)
  {
    GrammarIsSound();
    ReadsFirst();
    ReadsSecond();
    Finishes();
    ErrorFreeJoin(GRAMMAR, Start(GRAMMAR, R, INPUT), 2, 2);
    ErrorFreeJoin(GRAMMAR, Start(GRAMMAR, R, INPUT), 4, 2);
    ParseIsParse();
  }

  /** Its second leaf has the type of the keyword where its label is `n`. */
  lemma KeywordForLabel()
    ensures ValidIn(PARSE, [1]) && At(PARSE, [1]) == SOFT && IsBehindItself(PARSE, [1])
    ensures !TABLES.HasType(SOFT.kind, SOFT.type_) && NODES[3].type_ == KEYWORD
  {
    assert [1][1..] == [] && BehindItself(PARSE, [1], 0);
  }

  /** Its inner node starts at 0 where its first leaf starts at 5. */
  lemma StartsBeforeLeaf()
    ensures IsParse(TABLES, R, INPUT, NODES, PARSE) && !AllStartRight(Collapse(TABLES.omitted, PARSE))
    ensures NODES[1].type_ == R && NODES[1].startIndex == 0 && NODES[2].startIndex == 5
  {
    ParseIsParse();
    StartsAreExact(TABLES, R, INPUT, NODES, PARSE);
  }
}
