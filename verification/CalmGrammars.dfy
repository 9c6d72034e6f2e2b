/** Grammars in which backtracking never loses a token: alternatives occur only
    in rules that are neither left out of the tree nor left-recursive. */
module CalmGrammars {
  import opened Rules
  import opened Trees
  import opened ReplayBuffer
  import opened Parsing
  import opened Backtracking

  /** The rule always has its node, and is never wrapped in itself. */
  ghost predicate Steady(g: Grammar, rule: nat) {
    && !Omits(g, rule)
    && forall id, key :: id in g.states && id.rule == rule && key in g.states[id].plans ==>
         g.states[id].plans[key].mode != LeftRecursive
  }

  ghost predicate PlanCalm(g: Grammar, plan: Plan)
    decreases plan, 1
  {
    PushesCalm(g, plan.pushes)
  }

  ghost predicate PushesCalm(g: Grammar, pushes: seq<Push>)
    decreases pushes, 0
  {
    pushes == [] || (PushCalm(g, pushes[0]) && PushesCalm(g, pushes[1..]))
  }

  ghost predicate PushCalm(g: Grammar, push: Push)
    decreases push, 0
  {
    match push.mode
    case LLPush => true
    case AlternativePush(fallback, replay) => Steady(g, push.nodeType) && PlanCalm(g, fallback) && PlanCalm(g, replay)
  }

  /** What can be read off the tables: every alternative is one of a steady rule. */
  ghost predicate Calm(g: Grammar) {
    forall id, key :: id in g.states && key in g.states[id].plans ==> PlanCalm(g, g.states[id].plans[key])
  }

  ghost predicate NodeCalm(g: Grammar, node: StackNode) {
    HasPoint(node) ==>
      && Steady(g, node.nodeId) && PlanCalm(g, node.mode.point.replayPlan)
      && (node.mode.Alternative? ==> PlanCalm(g, node.mode.fallbackPlan))
  }

  ghost predicate StackCalm(g: Grammar, stack: seq<StackNode>) {
    forall j :: 0 <= j < |stack| ==> NodeCalm(g, stack[j])
  }

  // ----- on a calm stack no saved point is lost

  lemma CalmKeeps(g: Grammar, m: Machine, plan: Plan)
    requires TablesOk(g) && StackOk(g, m) && StackCalm(g, m.stack) && m.stack != []
    requires PlanOk(g, m.Tos().nodeId, plan) && (plan.mode == LeftRecursive ==> !Steady(g, m.Tos().nodeId))
    ensures KeepsPoints(g, m, plan)
  {
    var top := |m.stack| - 1;
    if Inserts(g, m, plan) {
      forall j | 0 <= j < (if plan.mode == LeftRecursive then top else top + 1) && !m.stack[j].mode.Plain?
        ensures KeepsPoint(m.tree, m.Tos().treeNodeIndex, m.stack[j].mode.point)
      {
        assert NodeCalm(g, m.stack[j]);
        assert !Steady(g, m.Tos().nodeId);
        assert PairOk(m, j, top);
      }
    }
  }

  lemma LookedUpKeeps(g: Grammar, m: Machine, key: nat)
    requires TablesOk(g) && Calm(g) && StackOk(g, m) && StackCalm(g, m.stack) && m.stack != []
    requires g.Lookup(m.Tos().state, key).Some?
    ensures KeepsPoints(g, m, g.Lookup(m.Tos().state, key).value)
  {
    assert NodeOk(g, m, |m.stack| - 1);
    CalmKeeps(g, m, g.Lookup(m.Tos().state, key).value);
  }

  lemma FallbackCalm(g: Grammar, all: seq<Token>, full: bool, m: Machine, i: nat)
    requires TablesOk(g) && (Inv(g, all, full, m, 0) || Inv(g, all, full, m, 1)) && StackCalm(g, m.stack)
    requires i < |m.stack| && m.stack[i].mode.Alternative? && m.tree != []
    ensures StackCalm(g, FallbackReady(m, i).0.stack)
    ensures KeepsPoints(g, FallbackReady(m, i).0, m.stack[i].mode.fallbackPlan)
  {
    assert NodeCalm(g, m.stack[i]) && NodeOk(g, m, i);
    FallbackReadyOk(g, all, full, m, i);
    CalmKeeps(g, FallbackReady(m, i).0, m.stack[i].mode.fallbackPlan);
  }

  lemma ReplayCalm(g: Grammar, all: seq<Token>, full: bool, m: Machine, i: nat)
    requires TablesOk(g) && (Inv(g, all, full, m, 0) || Inv(g, all, full, m, 1)) && StackCalm(g, m.stack)
    requires 0 < i < |m.stack| && m.stack[i].mode.LastAlternative?
    ensures StackCalm(g, ReplayReady(m, i).0.stack)
    ensures KeepsPoints(g, ReplayReady(m, i).0, m.stack[i].mode.point.replayPlan)
  {
    assert NodeCalm(g, m.stack[i]) && NodeOk(g, m, i) && PairOk(m, i - 1, i);
    ReplayReadyOk(g, all, full, m, i);
    CalmKeeps(g, ReplayReady(m, i).0, m.stack[i].mode.point.replayPlan);
  }

  lemma {:induction false} RecoverCalm(g: Grammar, all: seq<Token>, full: bool, m: Machine, i: nat)
    requires TablesOk(g) && (Inv(g, all, full, m, 0) || Inv(g, all, full, m, 1)) && StackCalm(g, m.stack)
    requires i <= |m.stack|
    ensures RecoverKeeps(g, m, i)
    decreases i
  {
    if i > 0 && m.tree != [] {
      RecoverCalm(g, all, full, m, i - 1);
      if m.stack[i - 1].mode.Alternative? {
        FallbackCalm(g, all, full, m, i - 1);
      } else if m.stack[i - 1].mode.LastAlternative? && i - 1 > 0 {
        ReplayCalm(g, all, full, m, i - 1);
      }
    }
  }

  lemma StepCalmKeeps(g: Grammar, all: seq<Token>, full: bool, s: Status)
    requires TablesOk(g) && Calm(g) && Conserved(g, all, full, s) && StatusCalm(g, s)
    ensures KeepsSavedPoints(g, s)
  {
    match s
    case Idle(m) =>
      if m.stack != [] && NextOf(m.buffer).1.None? {
        ReadKeeps(g, all, full, m);
        RecoverCalm(g, all, full, m.(buffer := NextOf(m.buffer).0), |m.stack|);
      }
    case Pending(m, token) =>
      if m.stack != [] {
        if g.Lookup(m.Tos().state, token.transition).Some? {
          LookedUpKeeps(g, m, token.transition);
        } else {
          RecoverCalm(g, all, full, m, |m.stack|);
        }
      }
    case _ =>
  }

  ghost predicate StatusCalm(g: Grammar, s: Status) {
    match s
    case Idle(m) => StackCalm(g, m.stack)
    case Pending(m, _) => StackCalm(g, m.stack)
    case _ => true
  }

  // ----- every step keeps the stack calm

  lemma {:induction false} PushesStayCalm(g: Grammar, m: Machine, pushes: seq<Push>, token: Token, recording: bool)
    requires m.stack != [] && CanStart(m.buffer) && StackCalm(g, m.stack) && PushesCalm(g, pushes)
    ensures StackCalm(g, ApplyPushes(g, m, pushes, token, recording).stack)
    decreases |pushes|
  {
    if pushes != [] {
      var (m', recording') := ApplyPush(g, m, pushes[0], token, recording);
      assert NodeCalm(g, m.Tos());
      PushesStayCalm(g, m', pushes[1..], token, recording');
    }
  }

  lemma PlanStaysCalm(g: Grammar, m: Machine, plan: Plan, token: Token)
    requires PlanApplies(g, m, plan) && StackCalm(g, m.stack) && PlanCalm(g, plan)
    ensures StackCalm(g, ApplyPlan(g, m, plan, token).stack)
  {
    assert NodeCalm(g, m.Tos());
    if !g.Info(plan.next).isNegativeLookahead {
      var prepared := Prepare(g, m, plan);
      assert StackCalm(g, prepared.stack) && prepared.stack != [] && prepared.buffer == m.buffer;
      PushesStayCalm(g, prepared, plan.pushes, token, m.Tos().recording);
      var pushed := ApplyPushes(g, prepared, plan.pushes, token, m.Tos().recording);
      assert NodeCalm(g, pushed.Tos());
    }
  }

  lemma EndStaysCalm(g: Grammar, m: Machine)
    requires m.stack != [] && StackCalm(g, m.stack)
    ensures EndOfNode(m).Ok? ==> StackCalm(g, EndOfNode(m).value.stack)
  {
    if |m.stack| > 1 {
      assert NodeCalm(g, m.stack[|m.stack| - 2]);
    }
  }

  lemma {:induction false} PopFailedStaysCalm(g: Grammar, m: Machine, i: nat)
    requires StackCalm(g, m.stack)
    ensures PopFailed(m, i).Ok? ==> StackCalm(g, PopFailed(m, i).value.stack)
    decreases |m.stack|
  {
    if |m.stack| > i && m.Tos().treeNodeIndex < |m.tree| {
      var popped, k := PopNormal(m), m.Tos().treeNodeIndex;
      var marked := popped.tree[k].(type_ := SetErrorRecoveryBit(popped.tree[k].type_));
      PopFailedStaysCalm(g, popped.(tree := popped.tree[k := marked]), i);
    }
  }

  lemma FallbackStaysCalm(g: Grammar, all: seq<Token>, full: bool, m: Machine, k: nat)
    requires TablesOk(g) && (Inv(g, all, full, m, 0) || Inv(g, all, full, m, 1)) && StackCalm(g, m.stack)
    requires k < |m.stack| && m.stack[k].mode.Alternative? && Fallback(g, m, k).Ok?
    ensures StackCalm(g, Fallback(g, m, k).value.stack)
  {
    assert NodeCalm(g, m.stack[k]);
    FallbackCalm(g, all, full, m, k);
    var (ready, token) := FallbackReady(m, k);
    PlanStaysCalm(g, ready, m.stack[k].mode.fallbackPlan, token.value);
  }

  lemma ReplayStaysCalm(g: Grammar, all: seq<Token>, full: bool, m: Machine, k: nat)
    requires TablesOk(g) && (Inv(g, all, full, m, 0) || Inv(g, all, full, m, 1)) && StackCalm(g, m.stack)
    requires k < |m.stack| && m.stack[k].mode.LastAlternative? && Replay(g, m, k).Ok?
    ensures StackCalm(g, Replay(g, m, k).value.stack)
  {
    assert NodeCalm(g, m.stack[k]);
    ReplayCalm(g, all, full, m, k);
    var (ready, token) := ReplayReady(m, k);
    PlanStaysCalm(g, ready, m.stack[k].mode.point.replayPlan, token.value);
  }

  lemma RecoverAtStaysCalm(g: Grammar, all: seq<Token>, full: bool, m: Machine, k: nat, hasToken: bool)
    requires TablesOk(g) && (Inv(g, all, full, m, 0) || Inv(g, all, full, m, 1)) && StackCalm(g, m.stack)
             && k < |m.stack|
    requires RecoverAt(g, m, k, hasToken).Some? && RecoverAt(g, m, k, hasToken).value.Ok?
    ensures StackCalm(g, RecoverAt(g, m, k, hasToken).value.value.machine.stack)
  {
    if m.stack[k].mode.Alternative? {
      FallbackStaysCalm(g, all, full, m, k);
    } else if m.stack[k].mode.LastAlternative? && m.tree != [] && FirstWasBetter(m, k) {
      ReplayStaysCalm(g, all, full, m, k);
    } else {
      PopFailedStaysCalm(g, m, k);
    }
  }

  lemma RecoverStaysCalm(g: Grammar, all: seq<Token>, full: bool, m: Machine, i: nat, hasToken: bool)
    requires TablesOk(g) && (Inv(g, all, full, m, 0) || Inv(g, all, full, m, 1)) && StackCalm(g, m.stack)
             && i <= |m.stack|
    ensures var r := Recover(g, m, i, hasToken); r.Ok? ==> StackCalm(g, r.value.machine.stack)
  {
    WhoRecovers(g, m, i, hasToken);
    var k := Recoverer(g, m, i);
    if Recover(g, m, i, hasToken).Ok? {
      RecoverAtStaysCalm(g, all, full, m, k, hasToken);
    }
  }

  lemma ErrorStaysCalm(g: Grammar, all: seq<Token>, full: bool, m: Machine, token: Option<Token>)
    requires TablesOk(g) && (Inv(g, all, full, m, 0) || Inv(g, all, full, m, 1)) && StackCalm(g, m.stack)
             && m.stack != []
    ensures var r := ErrorRecovery(g, m, token); r.Ok? ==> StackCalm(g, r.value.machine.stack)
  {
    assert NodeCalm(g, m.Tos());
    RecoverStaysCalm(g, all, full, m, |m.stack|, token.Some?);
  }

  lemma StepStaysCalm(g: Grammar, all: seq<Token>, full: bool, s: Status)
    requires TablesOk(g) && Calm(g) && Conserved(g, all, full, s) && StatusCalm(g, s)
    ensures StatusCalm(g, Step(g, s))
  {
    match s
    case Idle(m) =>
      if m.stack != [] {
        var m' := m.(buffer := NextOf(m.buffer).0);
        ReadKeeps(g, all, full, m);
        EndStaysCalm(g, m');
        if NextOf(m.buffer).1.None? {
          ErrorStaysCalm(g, all, full, m', None);
        }
      }
    case Pending(m, token) =>
      if m.stack != [] {
        assert NodeCalm(g, m.Tos()) && NodeOk(g, m, |m.stack| - 1);
        EndStaysCalm(g, m);
        ErrorStaysCalm(g, all, full, m, Some(token));
        var plan := g.Lookup(m.Tos().state, token.transition);
        if plan.Some? && PlanApplies(g, m, plan.value) {
          PlanStaysCalm(g, m, plan.value, token);
        }
      }
    case _ =>
  }

  lemma {:induction false} RunStaysCalm(g: Grammar, all: seq<Token>, s: Status, n: nat)
    requires TablesOk(g) && Calm(g) && TokensOk(all) && Conserved(g, all, false, s) && StatusCalm(g, s)
    ensures Conserved(g, all, false, Run(g, s, n)) && StatusCalm(g, Run(g, s, n))
    decreases n
  {
    if n > 0 {
      StepCalmKeeps(g, all, false, s);
      match s {
        case Idle(m) => IdleConserves(g, all, false, m);
        case Pending(m, token) => PendingConserves(g, all, false, m, token);
        case _ =>
      }
      StepStaysCalm(g, all, false, s);
      RunStaysCalm(g, all, Step(g, s), n - 1);
    }
  }

  lemma StartCalm(g: Grammar, all: seq<Token>, root: nat)
    ensures StatusCalm(g, Start(g, root, all))
  {
  }

  /** On a calm grammar every run, whatever the tokens and however often it goes
      back, keeps all tokens and all saved points. */
  lemma CalmGrammarsConserve(g: Grammar, all: seq<Token>, root: nat, n: nat)
    requires TablesOk(g) && Calm(g) && TokensOk(all) && StateId(root, 0) in g.states && root >= NODE_START
    ensures Conserved(g, all, false, Run(g, Start(g, root, all), n))
  {
    StartConserves(g, all, false, root);
    StartCalm(g, all, root);
    RunStaysCalm(g, all, Start(g, root, all), n);
  }
}
