/** Keywords that labels of one row share: the label added last takes the plan of
    all, so that chains of the others are lost. When that happens, and a rule that
    it happens to. */
module SoftKeywords {
  import opened Rules
  import opened Powerset
  import opened Trees
  import opened ReplayBuffer
  import opened Parsing
  import opened Derivations
  import opened Plans
  import opened PlanGeneration
  import opened GrammarGeneration
  import opened Soundness

  // ----- when chains are lost

  /** All states have the plans that the generator makes for them. */
  ghost predicate AllExact(t: Tables, own: map<StateId, map<nat, Plan>>) {
    forall rule, d: nat :: rule in t.dfas && d < |t.dfas[rule]| ==>
      StateId(rule, d) in own && ExactPlans(t, rule, d, own[StateId(rule, d)])
  }

  /** No state has lost a chain. */
  ghost predicate AllChainsKept(t: Tables, own: map<StateId, map<nat, Plan>>) {
    forall rule, d: nat :: rule in t.dfas && d < |t.dfas[rule]| ==>
      StateId(rule, d) in own && HasAllChains(t, rule, d, own[StateId(rule, d)])
  }

  /** A label that a keyword can be taken by is a chain for it. */
  lemma LabelIsChain(t: Tables, rule: nat, d: nat, i: nat, k: string)
    requires TablesOk(t) && rule in t.dfas && d < |t.dfas[rule]| && i < |t.dfas[rule][d].transitions|
    requires k in t.keywords && CanRead(t, t.dfas[rule][d].transitions[i].kind, k)
    ensures var tr := t.dfas[rule][d].transitions[i];
            IsChainFor(t, rule, d, t.keywords[k], [], StateId(rule, tr.to), tr.kind)
  {
    assert RowOk(t, rule, t.dfas[rule][d].transitions);
    NextOfRow(t.dfas[rule][d].transitions, i);
  }

  /** The chain of a label for a keyword is kept if and only if the label goes where
      the last one does that the keyword can be taken by. */
  lemma ChainIsKept(t: Tables, rule: nat, d: nat, plans: map<nat, Plan>, i: nat, k: string)
    requires TablesOk(t) && rule in t.dfas && d < |t.dfas[rule]| && ExactPlans(t, rule, d, plans)
    requires i < |t.dfas[rule][d].transitions| && k in t.keywords && CanRead(t, t.dfas[rule][d].transitions[i].kind, k)
    ensures var row := t.dfas[rule][d].transitions;
            var last := LastReader(t, row, |row|, k);
            && IsChainFor(t, rule, d, t.keywords[k], [], StateId(rule, row[i].to), row[i].kind) && last.Some?
            && (PlanIs(plans, t.keywords[k], [], StateId(rule, row[i].to)) <==> row[i].to == row[last.value].to)
  {
    LabelIsChain(t, rule, d, i, k);
    assert LastReads(t, rule, d, plans, k);
  }

  /** A state without lost chains has labels that agree on keywords. */
  lemma KeptChainsAgree(t: Tables, rule: nat, d: nat, plans: map<nat, Plan>)
    requires TablesOk(t) && rule in t.dfas && d < |t.dfas[rule]| && HasAllChains(t, rule, d, plans)
    ensures KeywordsAgree(t, t.dfas[rule][d].transitions)
  {
    var row := t.dfas[rule][d].transitions;
    forall i, j, k | 0 <= i < |row| && 0 <= j < |row| && k in t.keywords
                     && CanRead(t, row[i].kind, k) && CanRead(t, row[j].kind, k)
      ensures row[i].to == row[j].to
    {
      LabelIsChain(t, rule, d, i, k);
      LabelIsChain(t, rule, d, j, k);
      assert HasChains(t, rule, d, row[i].kind, plans) && HasChains(t, rule, d, row[j].kind, plans);
    }
  }

  /** No chain is lost if and only if in every row the labels that a keyword can be
      taken by go to one state. */
  lemma ChainsKeptExactly(t: Tables, own: map<StateId, map<nat, Plan>>)
    requires TablesOk(t) && AllExact(t, own)
    ensures AllChainsKept(t, own) <==> AllAgree(t)
  {
    if AllChainsKept(t, own) {
      forall rule, d | rule in t.dfas && 0 <= d < |t.dfas[rule]|
        ensures KeywordsAgree(t, t.dfas[rule][d].transitions)
      {
        KeptChainsAgree(t, rule, d, own[StateId(rule, d)]);
      }
    }
  }

  /** That is so of what the generator makes. */
  lemma GeneratedIsExact(t: Tables, infos: map<StateId, StateInfo>, own: map<StateId, map<nat, Plan>>)
    requires AllExtended(t, infos, own) && HasEveryState(t, infos)
    ensures AllExact(t, own)
  {
    forall rule, d: nat | rule in t.dfas && d < |t.dfas[rule]|
      ensures StateId(rule, d) in own && ExactPlans(t, rule, d, own[StateId(rule, d)])
    {
      assert OwnOk(t, StateId(rule, d), infos[StateId(rule, d)], own[StateId(rule, d)]);
    }
  }

  // ----- the rule `A: n x | "k" y`, with "k" a soft keyword of `n`

  const A: nat := 0x8000
  const N := Terminal(1)
  const K := KeywordToken("k")
  const X := Terminal(3)
  const Y := Terminal(4)

  const ROWS := [
    DfaState({0}, false, true, [DfaTransition(N, 1), DfaTransition(K, 2)]),
    DfaState({1}, false, true, [DfaTransition(X, 3)]),
    DfaState({2}, false, true, [DfaTransition(Y, 3)]),
    DfaState({3}, true, true, [])]

  const TABLES := Tables(map[A := ROWS], {}, map["k" := 2], map[1 := {"k"}])

  lemma TablesAreOk()
    ensures TablesOk(TABLES) && Live(TABLES)
  {
  }

  /** What each label offers. */
  lemma OfferedTokens(d: nat, i: nat, kind: TransitionType, key: nat)
    requires d < |ROWS| && i < |ROWS[d].transitions| && OffersAt(TABLES, A, d, i, kind, key)
    ensures d == 0 ==> (key == 1 && kind == N) || (key == 2 && kind == K)
    ensures d == 1 ==> key == 3 && kind == X
    ensures d == 2 ==> key == 4 && kind == Y
    ensures d < 3
  {
  }

  lemma NoClash(d: nat)
    requires d < |ROWS|
    ensures RowMakes(TABLES, A, d)
  {
    forall key, a, b
      ensures !ClashOn(TABLES, A, d, key, a, b)
    {
      if ClashOn(TABLES, A, d, key, a, b) {
        var i :| 0 <= i < |ROWS[d].transitions| && OffersAt(TABLES, A, d, i, a, key);
        var j :| 0 <= j < |ROWS[d].transitions| && OffersAt(TABLES, A, d, j, b, key);
        OfferedTokens(d, i, a, key);
        OfferedTokens(d, j, b, key);
      }
    }
  }

  lemma NoFirstChild(b: nat)
    ensures !FirstChild(TABLES, A, b)
  {
    NextInFinds(ROWS[0].transitions, Nonterminal(b));
  }

  /** The generator has no reason to refuse the rule. */
  lemma NothingAgainstIt()
    ensures NoReason(TABLES)
  {
    forall a, b
      ensures !FirstChild(TABLES, a, b)
    {
      if a == A {
        NoFirstChild(b);
      }
    }
    forall cycle
      ensures !FirstCycle(TABLES, cycle)
    {
      assert |cycle| > 1 ==> !FirstChild(TABLES, cycle[0], cycle[1]);
    }
    forall rule, d: nat
      ensures !Clash(TABLES, rule, d) && !ReadsUnknown(TABLES, rule, d)
    {
      if rule == A && d < |ROWS| {
        NoClash(d);
      }
    }
  }

  /** The chain of `n` for the keyword is lost: its plan is that of the keyword's own
      label. */
  lemma ChainOfNIsLost(plans: map<nat, Plan>)
    requires ExactPlans(TABLES, A, 0, plans)
    ensures IsChainFor(TABLES, A, 0, 2, [], StateId(A, 1), N) && !PlanIs(plans, 2, [], StateId(A, 1))
    ensures PlanIs(plans, 2, [], StateId(A, 2))
  {
    TablesAreOk();
    var row := ROWS[0].transitions;
    assert CanRead(TABLES, row[0].kind, "k") && CanRead(TABLES, row[1].kind, "k");
    ChainIsKept(TABLES, A, 0, plans, 0, "k");
    ChainIsKept(TABLES, A, 0, plans, 1, "k");
  }

  const A0 := StateId(A, 0)
  const A2 := StateId(A, 2)

  const FIRST := Token(3, 1, 2)
  const SECOND := Token(4, 1, 3)
  const INPUT := [FIRST, SECOND]

  /** The keyword as an `n`, and `x`. */
  const SENTENCE := DNode(A, 0, [DLeaf(N, 1, FIRST), DLeaf(X, 3, SECOND)])

  lemma AcceptedWord()
    ensures Accepts(ROWS, [N, X])
  {
    NextOfRow(ROWS[0].transitions, 0);
    NextOfRow(ROWS[1].transitions, 0);
    assert [N, X][1..] == [X] && [X][1..] == [];
    assert Powerset.Run(ROWS, 3, []) == Some(3);
    assert Powerset.Run(ROWS, 1, [X]) == Some(3);
    assert Powerset.Run(ROWS, 0, [N, X]) == Powerset.Run(ROWS, 1, [X]);
  }

  lemma SentenceDerives()
    ensures Derives(TABLES, SENTENCE) && Yield(SENTENCE) == INPUT
  {
    var kids := SENTENCE.kids;
    AcceptedWord();
    assert kids[1..] == [kids[1]] && kids[1..][1..] == [];
    assert Labels(kids[1..]) == [X] + [] && Labels(kids) == [N] + Labels(kids[1..]);
    assert Labels(kids) == [N, X];
    assert YieldAll(kids[1..]) == [SECOND] + [] && YieldAll(kids) == [FIRST] + YieldAll(kids[1..]);
    assert TABLES.Matches(N, 2) by {
      assert "k" in TABLES.softKeywords[1] && "k" in TABLES.keywords && TABLES.keywords["k"] == 2;
    }
    assert TABLES.HasType(X, 3);
  }

  lemma NoPlanForX(plans: map<nat, Plan>)
    requires ExactPlans(TABLES, A, 2, plans)
    ensures 3 !in plans
  {
    if 3 in plans {
      assert TakesToken(TABLES, A, 2, 3, plans[3]);
      var kind :| PlanReads(TABLES, A2, 3, plans[3], kind);
      NextInFinds(ROWS[2].transitions, FirstLabel(plans[3].pushes, kind));
    }
  }

  lemma KeywordPlan(plans: map<nat, Plan>)
    requires ExactPlans(TABLES, A, 0, plans)
    ensures 2 in plans && plans[2].pushes == [] && plans[2].next == A2 && plans[2].mode == LL
  {
    ChainOfNIsLost(plans);
    assert TakesToken(TABLES, A, 0, 2, plans[2]);
  }

  /** States of the rule have their own plans only. */
  lemma OwnInfo(g: Grammar, own: map<StateId, map<nat, Plan>>, d: nat)
    requires AllExtended(TABLES, g.states, own) && HasEveryState(TABLES, g.states) && d < |ROWS|
    ensures StateId(A, d) in g.states && StateId(A, d) in own && g.states[StateId(A, d)].plans == own[StateId(A, d)]
    ensures OwnOk(TABLES, StateId(A, d), g.states[StateId(A, d)], own[StateId(A, d)])
  {
    NoFirstChild(A);
    assert StateId(A, d) in g.states;
  }

  /** What the parser needs to know of two states. */
  ghost predicate KeywordWins(g: Grammar) {
    && g.Lookup(A0, 2).Some? && !g.Info(A0).mayBeOmitted
    && (var plan := g.Lookup(A0, 2).value; plan.pushes == [] && plan.next == A2 && plan.mode == LL)
    && g.Lookup(A2, 3) == None
    && !g.Info(A2).isFinal && !g.Info(A2).mayBeOmitted && !g.Info(A2).isNegativeLookahead
  }

  /** The generated grammar's plan for the keyword, and none for `x` behind it. */
  lemma PlansOfA(g: Grammar, own: map<StateId, map<nat, Plan>>)
    requires AllExtended(TABLES, g.states, own) && HasEveryState(TABLES, g.states)
    ensures KeywordWins(g)
  {
    OwnInfo(g, own, 0);
    OwnInfo(g, own, 2);
    KeywordPlan(own[A0]);
    NoPlanForX(own[A2]);
  }

  lemma ErrorAt(g: Grammar, s: Status, k: nat, n: nat)
    requires k < n && !NoError(g, Parsing.Run(g, s, k))
    ensures !NoErrors(g, s, n)
  {
    var ok := (s': Status) => NoError(g, s');
    assert !ok(Parsing.Run(g, s, k));
  }

  lemma ErrorAtX(g: Grammar)
    requires KeywordWins(g)
    ensures !NoErrors(g, Start(g, A, INPUT), 4)
  {
    var plan := g.Lookup(A0, 2).value;
    var s := Start(g, A, INPUT);
    assert INPUT[1..] == [SECOND] && [SECOND][1..] == [];
    var m := s.machine.(buffer := Buffer([SECOND], [], 0, false));
    assert Step(g, s) == Pending(m, FIRST);
    var m' := ApplyPlan(g, m, plan, FIRST);
    assert Step(g, Pending(m, FIRST)) == Idle(m') && m'.Tos().state == A2 && m'.buffer == m.buffer;
    var last := Step(g, Idle(m'));
    assert last.Pending? && last.token == SECOND && !NoError(g, last);
    assert Parsing.Run(g, s, 3) == Parsing.Run(g, Pending(m, FIRST), 2) == Parsing.Run(g, Idle(m'), 1)
        == Parsing.Run(g, last, 0);
    ErrorAt(g, s, 3, 4);
  }

  /** The parser does not get past the keyword without an error, though the tokens
      are a sentence of the rule. */
  lemma SentenceIsLost(g: Grammar)
    requires KeywordWins(g)
    ensures Derives(TABLES, SENTENCE) && Yield(SENTENCE) == INPUT && !NoErrors(g, Start(g, A, INPUT), 4)
  {
    SentenceDerives();
    ErrorAtX(g);
  }

  /** The generator makes a grammar for the rule without complaint, one that loses
      the sentence. */
  method SoftKeywordOverwrites() returns (g: Grammar)
    ensures GrammarSound(g, TABLES) && KeywordWins(g)
    ensures !NoErrors(g, Start(g, A, INPUT), 4)
  {
    TablesAreOk();
    NothingAgainstIt();
    var r, own := Generate(TABLES, [A], {});
    g := r.value;
    PlansOfA(g, own);
    ErrorAtX(g);
  }
}
