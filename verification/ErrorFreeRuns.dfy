/** Runs without errors end: after a number of steps that the tokens and the
    plans bound, either all tokens are parsed, or the root was finished with
    tokens left, which the parser panics at. */
module ErrorFreeRuns {
  import opened Rules
  import opened Trees
  import opened ReplayBuffer
  import opened Parsing
  import opened Derivations
  import opened Plans
  import opened TreeBuilding
  import opened Soundness

  // ----- the one way to panic

  /** A token is at hand, but the root is finished. */
  predicate InputLeft(s: Status) {
    s.Pending? && s.machine.stack == []
  }

  lemma HeldNodeIsInTree(g: Grammar, t: Tables, m: Machine, fs: seq<Frame>, f: Frame, last: Deriv)
    requires Holding(g, t, m, fs, f, last)
    ensures m.stack != [] && m.Tos().treeNodeIndex < |m.tree|
  {
    OpenTop(g, t, m.stack, fs, f, 1, Label(last));
    LowerSnoc(t.omitted, fs, f);
    EncodeSize(Collapse(t.omitted, last), 0);
  }

  /** What a plan needs of the tree is there. */
  lemma PlansApply(g: Grammar, t: Tables, root: nat, m: Machine, tokens: seq<Token>, w: Work, key: nat)
    requires GrammarSound(g, t) && HasBuilt(g, t, root, m, tokens, w) && m.stack != [] && m.buffer.tokens == []
    requires g.Lookup(m.Tos().state, key).Some?
    ensures PlanApplies(g, m, g.Lookup(m.Tos().state, key).value)
  {
    if w.Subtrees? {
      HeldNodeIsInTree(g, t, m, w.fs, w.f, w.last);
    } else {
      KnownState(g, t, root, m, tokens, w);
      var id := m.Tos().state;
      assert StateSound(g, t, id);
      var kind :| PlanReads(t, id, key, g.states[id].plans[key], kind);
    }
  }

  /** What a step between tokens finds when there is no error. */
  predicate IdleFits(g: Grammar, m: Machine) {
    m.stack != [] && NextOf(m.buffer).1.None? ==>
      g.Info(m.Tos().state).isFinal && EndOfNode(m.(buffer := NextOf(m.buffer).0)).Ok?
  }

  lemma IdleDoesFit(g: Grammar, t: Tables, all: seq<Token>, root: nat, m: Machine, w: Work)
    requires GrammarSound(g, t) && Short(all) && Sound(g, t, all, root, Idle(m), w) && NoError(g, Idle(m))
    ensures IdleFits(g, m)
  {
    if m.stack != [] && NextOf(m.buffer).1.None? {
      NextAtCursor(all, m.buffer);
      var buffer := NextOf(m.buffer).0;
      BufferKeeps(g, t, root, m, all[..Cursor(all, m.buffer)], w, buffer);
      var _ := EndOfInput(g, t, all, root, m.(buffer := buffer), w);
    }
  }

  /** What a step with a token finds. */
  predicate PlanFits(g: Grammar, m: Machine, plan: Plan, token: Token) {
    plan.mode != PositivePeek && PlanApplies(g, m, plan) && ApplyPlan(g, m, plan, token).buffer == m.buffer
  }

  predicate PendingFits(g: Grammar, m: Machine, token: Token)
    requires m.stack != []
  {
    var plan := g.Lookup(m.Tos().state, token.transition);
    if plan.Some? then PlanFits(g, m, plan.value, token) else g.Info(m.Tos().state).isFinal && EndOfNode(m).Ok?
  }

  lemma PlanKeepsBuffer(g: Grammar, t: Tables, root: nat, m: Machine, read: seq<Token>, w: Work, token: Token,
                        plan: Plan)
    requires GrammarSound(g, t) && HasBuilt(g, t, root, m, read, w) && Short(read) && m.stack != []
             && PlanApplies(g, m, plan)
    requires g.Lookup(m.Tos().state, token.transition) == Some(plan)
    ensures PlanFits(g, m, plan, token)
  {
    KnownState(g, t, root, m, read, w);
    assert StateSound(g, t, m.Tos().state);
    var kind :| PlanReads(t, m.Tos().state, token.transition, plan, kind);
    if w.Nothing? {
      var _ := FirstPlanBuilds(g, t, root, m, plan, token, kind);
    } else {
      var _ := LaterPlanBuilds(g, t, root, m, read, w.fs, w.f, w.last, plan, token, kind);
    }
  }

  lemma PendingDoesFit(g: Grammar, t: Tables, all: seq<Token>, root: nat, m: Machine, token: Token, w: Work)
    requires GrammarSound(g, t) && Short(all) && Sound(g, t, all, root, Pending(m, token), w)
             && NoError(g, Pending(m, token))
    requires m.stack != []
    ensures PendingFits(g, m, token)
  {
    var plan := g.Lookup(m.Tos().state, token.transition);
    if plan.Some? {
      var read := all[..Cursor(all, m.buffer) - 1];
      OneMore(all, Cursor(all, m.buffer) - 1);
      PlansApply(g, t, root, m, read, w, token.transition);
      PlanKeepsBuffer(g, t, root, m, read, w, token, plan.value);
    } else {
      OneMore(all, Cursor(all, m.buffer) - 1);
      var _, _ := EndReads(g, t, root, m, all[..Cursor(all, m.buffer) - 1], w);
    }
  }

  /** A step without an error panics if and only if a token is left over. */
  lemma PanicsOnInputLeft(g: Grammar, t: Tables, all: seq<Token>, root: nat, s: Status, w: Work)
    requires GrammarSound(g, t) && Short(all) && Sound(g, t, all, root, s, w) && NoError(g, s) && !s.Panicked?
    ensures Step(g, s).Panicked? <==> InputLeft(s)
  {
    match s
    case Idle(m) => IdleDoesFit(g, t, all, root, m, w);
    case Pending(m, token) =>
      if m.stack != [] {
        PendingDoesFit(g, t, all, root, m, token, w);
      }
    case _ =>
  }

  // ----- how many nodes a plan opens at most

  ghost function MaxOf(s: set<nat>): nat {
    if s == {} then 0
    else
      var x :| x in s;
      var rest := MaxOf(s - {x});
      if x > rest then x else rest
  }

  lemma {:induction false} MaxIsMax(s: set<nat>, x: nat)
    requires x in s
    ensures x <= MaxOf(s)
    decreases s
  {
    var y :| y in s && MaxOf(s) == if y > MaxOf(s - {y}) then y else MaxOf(s - {y});
    if x != y {
      MaxIsMax(s - {y}, x);
    }
  }

  ghost function MostPushes(g: Grammar): nat {
    MaxOf(set id, key | id in g.states && key in g.states[id].plans :: |g.states[id].plans[key].pushes|)
  }

  lemma PushesBounded(g: Grammar, id: StateId, key: nat)
    requires g.Lookup(id, key).Some?
    ensures |g.Lookup(id, key).value.pushes| <= MostPushes(g)
  {
    var lengths := set id, key | id in g.states && key in g.states[id].plans :: |g.states[id].plans[key].pushes|;
    assert |g.states[id].plans[key].pushes| in lengths;
    MaxIsMax(lengths, |g.states[id].plans[key].pushes|);
  }

  // ----- every step brings the end nearer

  /** Steps that are left, at most: each token may open `bound` nodes and costs
      two steps besides, and each open node is ended once. */
  function Left(all: seq<Token>, s: Status, bound: nat): nat {
    match s
    case Idle(m) => Cost(Remaining(all, m.buffer), bound) + |m.stack| + 1
    case Pending(m, _) => Cost(Remaining(all, m.buffer), bound) + |m.stack| + bound + 2
    case _ => 0
  }

  function Cost(tokens: nat, bound: nat): nat {
    if tokens == 0 then 0 else Cost(tokens - 1, bound) + bound + 2
  }

  lemma {:induction false} CostIsProduct(tokens: nat, bound: nat)
    ensures Cost(tokens, bound) == tokens * (bound + 2)
  {
    if tokens > 0 {
      CostIsProduct(tokens - 1, bound);
    }
  }

  function Remaining(all: seq<Token>, buffer: Buffer): nat {
    if Cursor(all, buffer) <= |all| then |all| - Cursor(all, buffer) else 0
  }

  lemma EndIsShorter(all: seq<Token>, m: Machine)
    requires m.stack != [] && EndOfNode(m).Ok?
    ensures |EndOfNode(m).value.stack| == |m.stack| - 1
    ensures Remaining(all, EndOfNode(m).value.buffer) == Remaining(all, m.buffer)
  {
  }

  lemma ReadIsLess(all: seq<Token>, buffer: Buffer)
    requires Consistent(all, buffer)
    ensures Remaining(all, NextOf(buffer).0) == Remaining(all, buffer) - if NextOf(buffer).1.Some? then 1 else 0
  {
    NextAtCursor(all, buffer);
  }

  lemma IdleGetsNearer(g: Grammar, all: seq<Token>, m: Machine, bound: nat)
    requires Consistent(all, m.buffer) && IdleFits(g, m)
    ensures Left(all, StepIdle(g, m), bound) < Left(all, Idle(m), bound)
  {
    if m.stack != [] {
      ReadIsLess(all, m.buffer);
      var m' := m.(buffer := NextOf(m.buffer).0);
      if NextOf(m.buffer).1.None? {
        EndIsShorter(all, m');
      }
    }
  }

  lemma PushesGrow(g: Grammar, m: Machine, plan: Plan, token: Token)
    requires PlanApplies(g, m, plan)
    ensures |ApplyPlan(g, m, plan, token).stack| <= |m.stack| + |plan.pushes|
  {
    if !g.Info(plan.next).isNegativeLookahead {
      assert |Prepare(g, m, plan).stack| == |m.stack|;
    }
  }

  lemma PendingGetsNearer(g: Grammar, all: seq<Token>, m: Machine, token: Token)
    requires m.stack != [] ==> PendingFits(g, m, token)
    ensures Left(all, StepPending(g, m, token), MostPushes(g)) < Left(all, Pending(m, token), MostPushes(g))
  {
    if m.stack != [] {
      var plan := g.Lookup(m.Tos().state, token.transition);
      if plan.Some? {
        PushesBounded(g, m.Tos().state, token.transition);
        PushesGrow(g, m, plan.value, token);
      } else {
        EndIsShorter(all, m);
      }
    }
  }

  lemma StepGetsNearer(g: Grammar, t: Tables, all: seq<Token>, root: nat, s: Status, w: Work)
    requires GrammarSound(g, t) && Short(all) && Sound(g, t, all, root, s, w) && NoError(g, s)
    ensures s.Idle? || s.Pending? ==> Left(all, Step(g, s), MostPushes(g)) < Left(all, s, MostPushes(g))
  {
    match s
    case Idle(m) =>
      IdleDoesFit(g, t, all, root, m, w);
      IdleGetsNearer(g, all, m, MostPushes(g));
    case Pending(m, token) =>
      if m.stack != [] {
        PendingDoesFit(g, t, all, root, m, token, w);
      }
      PendingGetsNearer(g, all, m, token);
    case _ =>
  }

  // ----- whole runs

  /** A parse of all tokens, or a panic after a parse of the first of them. */
  ghost predicate Ended(t: Tables, root: nat, all: seq<Token>, s: Status, prefix: nat, nodes: seq<InternalNode>) {
    && prefix <= |all| && Parsed(t, root, all[..prefix], nodes)
    && if prefix == |all| then s == Done(nodes) else s == Panicked
  }

  lemma LeftOver(g: Grammar, t: Tables, all: seq<Token>, root: nat, m: Machine, token: Token, w: Work)
    requires Sound(g, t, all, root, Pending(m, token), w) && m.stack == []
    ensures Ended(t, root, all, StepPending(g, m, token), Cursor(all, m.buffer) - 1, m.tree)
  {
    assert IsParse(t, root, all[..Cursor(all, m.buffer) - 1], m.tree, w.d);
  }

  /** A run is over when it is done, or about to panic. */
  predicate IsOver(s: Status) {
    s.Done? || s.Panicked? || InputLeft(s)
  }

  ghost predicate GoingOn(g: Grammar, t: Tables, all: seq<Token>, root: nat, s: Status) {
    Justified(g, t, all, root, s) && !s.Panicked?
  }

  lemma OverOrNearer(g: Grammar, t: Tables, all: seq<Token>, root: nat, s: Status)
    requires GrammarSound(g, t) && Short(all) && GoingOn(g, t, all, root, s) && NoError(g, s) && !IsOver(s)
    ensures GoingOn(g, t, all, root, Step(g, s)) && Left(all, Step(g, s), MostPushes(g)) < Left(all, s, MostPushes(g))
  {
    var w :| Sound(g, t, all, root, s, w);
    StepGetsNearer(g, t, all, root, s, w);
    PanicsOnInputLeft(g, t, all, root, s, w);
    StepJustified(g, t, all, root, s);
  }

  lemma RunIsOver(g: Grammar, t: Tables, all: seq<Token>, root: nat, s: Status, n: nat, end: Status)
    returns (mid: Status, rest: nat)
    requires GrammarSound(g, t) && Short(all) && GoingOn(g, t, all, root, s) && NoErrors(g, s, n)
    requires Left(all, s, MostPushes(g)) < n && end == Run(g, s, n)
    ensures GoingOn(g, t, all, root, mid) && IsOver(mid) && rest > 0 && end == Run(g, mid, rest)
  {
    var p := (s': Status) => GoingOn(g, t, all, root, s');
    var ok := (s': Status) => NoError(g, s');
    var left := (s': Status) => Left(all, s', MostPushes(g));
    forall s' | p(s') && ok(s') && !IsOver(s')
      ensures p(Step(g, s')) && left(Step(g, s')) < left(s')
    {
      OverOrNearer(g, t, all, root, s');
    }
    mid, rest := RunGetsOver(g, p, ok, IsOver, left, s, n, end);
  }

  /** From there it stays as it is, or panics. */
  lemma OverEnds(g: Grammar, t: Tables, all: seq<Token>, root: nat, s: Status, n: nat, end: Status)
    returns (prefix: nat, nodes: seq<InternalNode>)
    requires GoingOn(g, t, all, root, s) && IsOver(s) && n > 0 && end == Run(g, s, n)
    ensures Ended(t, root, all, end, prefix, nodes)
  {
    var w :| Sound(g, t, all, root, s, w);
    if s.Done? {
      prefix, nodes := |all|, s.nodes;
      assert all[..|all|] == all && IsParse(t, root, all, nodes, w.d);
      RunDone(g, s, n);
    } else {
      prefix, nodes := Cursor(all, s.machine.buffer) - 1, s.machine.tree;
      LeftOver(g, t, all, root, s.machine, s.token, w);
      RunOnce(g, s, n);
      RunDone(g, Step(g, s), n - 1);
    }
  }

  lemma RunEnds(g: Grammar, t: Tables, all: seq<Token>, root: nat, s: Status, n: nat, end: Status)
    returns (prefix: nat, nodes: seq<InternalNode>)
    requires GrammarSound(g, t) && Short(all) && GoingOn(g, t, all, root, s) && NoErrors(g, s, n)
    requires Left(all, s, MostPushes(g)) < n && end == Run(g, s, n)
    ensures Ended(t, root, all, end, prefix, nodes)
  {
    var mid, rest := RunIsOver(g, t, all, root, s, n, end);
    prefix, nodes := OverEnds(g, t, all, root, mid, rest, end);
  }

  lemma StartGoesOn(g: Grammar, t: Tables, all: seq<Token>, root: nat)
    requires GrammarSound(g, t) && StateId(root, 0) in g.states
    ensures GoingOn(g, t, all, root, Start(g, root, all))
  {
    StartSound(g, t, all, root);
    assert Sound(g, t, all, root, Start(g, root, all), Nothing);
  }

  /** How many steps the parser takes at most when there is no error. */
  ghost function Steps(g: Grammar, all: seq<Token>): nat {
    Cost(|all|, MostPushes(g)) + 3
  }

  /** The bound grows with the tokens, each at the price of the longest plan. */
  lemma StepsAreLinear(g: Grammar, all: seq<Token>)
    ensures Steps(g, all) == |all| * (MostPushes(g) + 2) + 3
  {
    CostIsProduct(|all|, MostPushes(g));
  }

  lemma StartIsWithin(g: Grammar, all: seq<Token>, root: nat)
    ensures Left(all, Start(g, root, all), MostPushes(g)) == Steps(g, all) - 1
  {
    assert Remaining(all, Fresh(all)) == |all|;
  }

  /** A run without errors ends: either with the flat tree of a derivation of all
      tokens, or with a panic, when the tokens before a certain one are a sentence
      by themselves, and the parser has finished their tree. */
  lemma ErrorFreeRunEnds(g: Grammar, t: Tables, all: seq<Token>, root: nat)
    returns (prefix: nat, nodes: seq<InternalNode>)
    requires GrammarSound(g, t) && Short(all) && StateId(root, 0) in g.states
    requires NoErrors(g, Start(g, root, all), Steps(g, all))
    ensures Ended(t, root, all, Run(g, Start(g, root, all), Steps(g, all)), prefix, nodes)
  {
    StartGoesOn(g, t, all, root);
    StartIsWithin(g, all, root);
    var s, n := Start(g, root, all), Steps(g, all);
    prefix, nodes := RunEnds(g, t, all, root, s, n, Run(g, s, n));
  }
}
