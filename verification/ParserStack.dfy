/** The parser's methods, which change the stack, the tree and the token buffer
    in place; each does to them what the function of the machine says. */
module ParserStack {
  import opened Rules
  import opened Trees
  import opened ReplayBuffer
  import opened Parsing

  class Stack {
    var stackNodes: seq<StackNode>
    var treeNodes: seq<InternalNode>

    constructor (g: Grammar, nodeId: nat, state: StateId)
      ensures Machine(stackNodes, treeNodes, Fresh([]))
              == OpenNode(g, Machine([], [], Fresh([])), nodeId, state, 0, false)
    {
      stackNodes := [StackNode(nodeId, 0, 0, state, 0, Plain, false)];
      treeNodes := if g.Info(state).mayBeOmitted then [] else [InternalNode(0, nodeId, 0, 0)];
    }

    ghost function With(buffer: Buffer): Machine
      reads this
    {
      Machine(stackNodes, treeNodes, buffer)
    }

    method Push(g: Grammar, nodeId: nat, state: StateId, start: nat, recording: bool)
      modifies this
      ensures forall b :: With(b) == OpenNode(g, old(With(b)), nodeId, state, start, recording)
    {
      stackNodes := stackNodes + [StackNode(nodeId, |treeNodes|, 0, state, 0, Plain, recording)];
      if !g.Info(state).mayBeOmitted {
        treeNodes := treeNodes + [InternalNode(0, nodeId, start, 0)];
      }
    }

    method UpdateTreeNodePosition(node: StackNode)
      requires node.treeNodeIndex < |treeNodes|
      modifies this`treeNodes
      ensures treeNodes == UpdatePosition(old(treeNodes), node)
    {
      var last := treeNodes[|treeNodes| - 1];
      var n := treeNodes[node.treeNodeIndex];
      treeNodes := treeNodes[node.treeNodeIndex := n.(length := Minus32(last.EndIndex(), n.startIndex))];
    }

    method PopNormal()
      requires stackNodes != [] && stackNodes[|stackNodes| - 1].treeNodeIndex < |treeNodes|
      modifies this
      ensures forall b :: With(b) == Parsing.PopNormal(old(With(b)))
    {
      var node := stackNodes[|stackNodes| - 1];
      stackNodes := stackNodes[..|stackNodes| - 1];
      UpdateTreeNodePosition(node);
    }

    method CalculatePreviousNextNode()
      requires stackNodes != []
      modifies this
      ensures forall b :: With(b) == LinkLatestChild(old(With(b)))
      ensures |stackNodes| == |old(stackNodes)|
    {
      var k := |stackNodes| - 1;
      var index, next := stackNodes[k].latestChild, |treeNodes|;
      if index != 0 && index < |treeNodes| {
        treeNodes := treeNodes[index := treeNodes[index].(nextNodeOffset := next - index)];
      }
      stackNodes := stackNodes[k := stackNodes[k].(latestChild := next)];
    }

    method InsertTreeNode()
      requires stackNodes != [] && stackNodes[|stackNodes| - 1].treeNodeIndex < |treeNodes|
      modifies this
      ensures forall b :: With(b) == InsertNode(old(With(b)))
      ensures |stackNodes| == |old(stackNodes)|
    {
      var k := |stackNodes| - 1;
      var tos := stackNodes[k];
      stackNodes := stackNodes[k := tos.(childrenCount := 1, latestChild := tos.treeNodeIndex + 1)];
      var start := treeNodes[tos.treeNodeIndex].startIndex;
      treeNodes := treeNodes[..tos.treeNodeIndex] + [InternalNode(0, tos.nodeId, start, 0)]
                   + treeNodes[tos.treeNodeIndex..];
    }
  }

  /** The top node moves on and is ready for the children of the plan. */
  method PrepareTop(g: Grammar, stack: Stack, plan: Plan, ghost buffer: Buffer)
    requires PlanApplies(g, stack.With(buffer), plan)
    modifies stack
    ensures stack.With(buffer) == Prepare(g, old(stack.With(buffer)), plan)
  {
    ghost var before := stack.With(buffer);
    var k := |stack.stackNodes| - 1;
    var tos := stack.stackNodes[k];
    stack.stackNodes := stack.stackNodes[k := tos.(state := plan.next)];
    ghost var moved := stack.With(buffer);
    if g.Info(plan.next).mayBeOmitted && plan.mode != LeftRecursive && tos.childrenCount == 1 {
      assert NeedsNode(g, before, plan);
      stack.InsertTreeNode();
      assert stack.With(buffer) == InsertNode(moved);
    } else if plan.mode == LeftRecursive {
      stack.stackNodes := stack.stackNodes[k := stack.stackNodes[k].(mode := Plain)];
      stack.UpdateTreeNodePosition(stack.stackNodes[k]);
      ghost var updated := stack.With(buffer);
      stack.InsertTreeNode();
      assert stack.With(buffer) == InsertNode(updated) == WrapInItself(moved);
    }
    stack.CalculatePreviousNextNode();
  }

  method ApplyPlan(g: Grammar, stack: Stack, tokenizer: BacktrackingTokenizer, plan: Plan, token: Token)
    requires PlanApplies(g, stack.With(tokenizer.State()), plan)
    modifies stack, tokenizer
    ensures stack.With(tokenizer.State()) == Parsing.ApplyPlan(g, old(stack.With(tokenizer.State())), plan, token)
  {
    var k := |stack.stackNodes| - 1;
    var recording := stack.stackNodes[k].recording;
    if g.Info(plan.next).isNegativeLookahead {
      stack.stackNodes := stack.stackNodes[k := stack.stackNodes[k].(state := plan.next)];
      return;
    }
    PrepareTop(g, stack, plan, tokenizer.State());
    ApplyAllPushes(g, stack, tokenizer, plan.pushes, token, recording);
    AddToken(stack, plan.type_, token, tokenizer.State());
  }

  method AddToken(stack: Stack, type_: nat, token: Token, ghost buffer: Buffer)
    requires stack.stackNodes != []
    modifies stack
    ensures stack.With(buffer) == AddLeaf(old(stack.With(buffer)), type_, token)
  {
    var k := |stack.stackNodes| - 1;
    var tos := stack.stackNodes[k];
    stack.stackNodes := stack.stackNodes[k := tos.(childrenCount := tos.childrenCount + 1)];
    stack.treeNodes := stack.treeNodes + [InternalNode(0, type_, token.startIndex, token.length)];
  }

  /** The loop over the pushes of a plan. */
  method ApplyAllPushes(g: Grammar, stack: Stack, tokenizer: BacktrackingTokenizer, pushes: seq<Push>, token: Token,
                        record: bool)
    requires stack.stackNodes != [] && CanStart(tokenizer.State())
    modifies stack, tokenizer
    ensures stack.With(tokenizer.State()) == ApplyPushes(g, old(stack.With(tokenizer.State())), pushes, token, record)
  {
    var recording := record;
    assert pushes[0..] == pushes;
    for i := 0 to |pushes|
      invariant stack.stackNodes != [] && CanStart(tokenizer.State())
      invariant ApplyPushes(g, stack.With(tokenizer.State()), pushes[i..], token, recording)
             == ApplyPushes(g, old(stack.With(tokenizer.State())), pushes, token, record)
    {
      assert pushes[i..][1..] == pushes[i + 1..];
      recording := ApplyOnePush(g, stack, tokenizer, pushes[i], token, recording);
    }
  }

  method ApplyOnePush(g: Grammar, stack: Stack, tokenizer: BacktrackingTokenizer, push: Push, token: Token,
                      record: bool)
    returns (recording: bool)
    requires stack.stackNodes != [] && CanStart(tokenizer.State())
    modifies stack, tokenizer
    ensures (stack.With(tokenizer.State()), recording)
         == ApplyPush(g, old(stack.With(tokenizer.State())), push, token, record)
  {
    recording := record;
    var k := |stack.stackNodes| - 1;
    var tos := stack.stackNodes[k];
    stack.stackNodes := stack.stackNodes[k := tos.(childrenCount := tos.childrenCount + 1)];
    match push.mode {
      case LLPush =>
        ghost var counted := stack.With(tokenizer.State());
        stack.Push(g, push.nodeType, push.next, token.startIndex, recording);
        assert stack.With(tokenizer.State())
               == OpenNode(g, counted, push.nodeType, push.next, token.startIndex, recording);
      case AlternativePush(fallback, replay) =>
        recording := true;
        var tokenIndex := tokenizer.Start(token);
        var point := BacktrackingPoint(|stack.treeNodes|, tokenIndex, tos.childrenCount, replay);
        stack.stackNodes := stack.stackNodes
          + [StackNode(push.nodeType, tos.treeNodeIndex, 0, push.next, tos.childrenCount, Alternative(point, fallback),
                       true)];
    }
    k := |stack.stackNodes| - 1;
    stack.stackNodes := stack.stackNodes[k := stack.stackNodes[k].(latestChild := |stack.treeNodes|)];
  }

  /** Ends the top node; false stands for a panic. */
  method EndOfNode(stack: Stack, tokenizer: BacktrackingTokenizer) returns (ok: bool)
    requires stack.stackNodes != []
    modifies stack, tokenizer
    ensures var r := Parsing.EndOfNode(old(stack.With(tokenizer.State())));
            if ok then r == Ok(stack.With(tokenizer.State())) else r == Panics
  {
    var k := |stack.stackNodes| - 1;
    var tos := stack.stackNodes[k];
    if tos.mode.Plain? {
      if tos.treeNodeIndex >= |stack.treeNodes| {
        return false;
      }
      stack.PopNormal();
    } else {
      if k == 0 {
        return false;
      }
      stack.stackNodes := stack.stackNodes[..k];
      var below := stack.stackNodes[k - 1].(childrenCount := tos.childrenCount, latestChild := tos.latestChild);
      stack.stackNodes := stack.stackNodes[k - 1 := below];
      if !below.recording {
        tokenizer.Stop();
      }
    }
    return true;
  }

  /** Back to where an alternative was entered, reading its token again. */
  method Reset(stack: Stack, tokenizer: BacktrackingTokenizer, i: nat, point: BacktrackingPoint)
    returns (token: Option<Token>)
    requires i < |stack.stackNodes|
    modifies stack, tokenizer
    ensures (stack.With(tokenizer.State()), token) == ResetTo(old(stack.With(tokenizer.State())), i, point)
  {
    stack.stackNodes := stack.stackNodes[..i + 1];
    if point.treeNodeCount <= |stack.treeNodes| {
      stack.treeNodes := stack.treeNodes[..point.treeNodeCount];
    }
    stack.stackNodes := stack.stackNodes[i := stack.stackNodes[i].(childrenCount := point.childrenCount)];
    tokenizer.Reset(point.tokenIndex);
    token := tokenizer.Next();
  }

  /** Applies a plan, unless that would panic; then false. */
  method ApplyPlanIfPossible(g: Grammar, stack: Stack, tokenizer: BacktrackingTokenizer, plan: Plan,
                             token: Option<Token>)
    returns (ok: bool)
    modifies stack, tokenizer
    ensures var r := ApplyIfPossible(g, old(stack.With(tokenizer.State())), plan, token);
            if ok then r == Ok(stack.With(tokenizer.State())) else r == Panics
  {
    if token.None? || !PlanAppliesTo(g, stack, tokenizer, plan) {
      return false;
    }
    ApplyPlan(g, stack, tokenizer, plan, token.value);
    return true;
  }

  function PlanAppliesTo(g: Grammar, stack: Stack, tokenizer: BacktrackingTokenizer, plan: Plan): (r: bool)
    reads stack, tokenizer
    ensures r == PlanApplies(g, stack.With(tokenizer.State()), plan)
  {
    PlanApplies(g, Machine(stack.stackNodes, stack.treeNodes,
                           Buffer(tokenizer.tokenizer, tokenizer.tokens, tokenizer.nextIndex, tokenizer.isRecording)),
                           plan)
  }

  method Fallback(g: Grammar, stack: Stack, tokenizer: BacktrackingTokenizer, i: nat) returns (ok: bool)
    requires i < |stack.stackNodes| && stack.stackNodes[i].mode.Alternative?
    modifies stack, tokenizer
    ensures var r := Parsing.Fallback(g, old(stack.With(tokenizer.State())), i);
            if ok then r == Ok(stack.With(tokenizer.State())) else r == Panics
  {
    if stack.treeNodes == [] {
      return false;
    }
    ghost var before := stack.With(tokenizer.State());
    var mode := stack.stackNodes[i].mode;
    var last := LastAlternative(mode.point, stack.treeNodes[|stack.treeNodes| - 1].startIndex,
                                |stack.stackNodes| == i + 1);
    var token := Reset(stack, tokenizer, i, mode.point);
    stack.stackNodes := stack.stackNodes[i := stack.stackNodes[i].(mode := last)];
    assert (stack.With(tokenizer.State()), token) == FallbackReady(before, i);
    ok := ApplyPlanIfPossible(g, stack, tokenizer, mode.fallbackPlan, token);
  }

  method Replay(g: Grammar, stack: Stack, tokenizer: BacktrackingTokenizer, i: nat) returns (ok: bool)
    requires i < |stack.stackNodes| && stack.stackNodes[i].mode.LastAlternative?
    modifies stack, tokenizer
    ensures var r := Parsing.Replay(g, old(stack.With(tokenizer.State())), i);
            if ok then r == Ok(stack.With(tokenizer.State())) else r == Panics
  {
    if i == 0 {
      return false;
    }
    ghost var before := stack.With(tokenizer.State());
    var point := stack.stackNodes[i].mode.point;
    var token := Reset(stack, tokenizer, i, point);
    stack.stackNodes := stack.stackNodes[..i];
    stack.stackNodes := stack.stackNodes[i - 1 := stack.stackNodes[i - 1].(childrenCount := 0)];
    assert (stack.With(tokenizer.State()), token) == ReplayReady(before, i);
    ok := ApplyPlanIfPossible(g, stack, tokenizer, point.replayPlan, token);
    if ok && !stack.stackNodes[|stack.stackNodes| - 1].recording {
      tokenizer.Stop();
    }
  }

  method PopFailed(stack: Stack, i: nat, ghost buffer: Buffer) returns (ok: bool)
    modifies stack
    ensures var r := Parsing.PopFailed(old(stack.With(buffer)), i);
            if ok then r == Ok(stack.With(buffer)) else r == Panics
  {
    while |stack.stackNodes| > i
      invariant Parsing.PopFailed(stack.With(buffer), i) == Parsing.PopFailed(old(stack.With(buffer)), i)
      decreases |stack.stackNodes|
    {
      var k := stack.stackNodes[|stack.stackNodes| - 1].treeNodeIndex;
      if k >= |stack.treeNodes| {
        return false;
      }
      stack.PopNormal();
      var marked := stack.treeNodes[k].(type_ := SetErrorRecoveryBit(stack.treeNodes[k].type_));
      stack.treeNodes := stack.treeNodes[k := marked];
    }
    return true;
  }

  datatype Verdict = Continue | Again | Failed

  ghost predicate Carried(r: Outcome<Recovery>, v: Verdict, m: Machine) {
    match r
    case Ok(Recovery(machine, again)) => machine == m && v == if again then Again else Continue
    case Panics => v == Failed
  }

  /** Tries to recover at one stack node; none if that node has no way to. */
  method TryRecoverAt(g: Grammar, stack: Stack, tokenizer: BacktrackingTokenizer, i: nat, hasToken: bool,
                      ghost m: Machine)
    returns (v: Option<Verdict>)
    requires i < |m.stack| && m == stack.With(tokenizer.State())
    modifies stack, tokenizer
    ensures var r := RecoverAt(g, m, i, hasToken);
            if v.None? then r.None? && stack.With(tokenizer.State()) == m
            else r.Some? && Carried(r.value, v.value, stack.With(tokenizer.State()))
  {
    var node := stack.stackNodes[i];
    var ok: bool;
    if node.mode.Alternative? {
      ok := Fallback(g, stack, tokenizer, i);
      return Some(if ok then Continue else Failed);
    }
    if node.mode.LastAlternative? {
      if stack.treeNodes == [] {
        return Some(Failed);
      }
      if FirstWasBetter(Machine(stack.stackNodes, stack.treeNodes, Fresh([])), i) {
        ok := Replay(g, stack, tokenizer, i);
        return Some(if ok then Continue else Failed);
      }
    }
    if node.nodeId in g.recovering {
      ok := PopFailed(stack, i, tokenizer.State());
      return Some(if !ok then Failed else if hasToken then Again else Continue);
    }
    return None;
  }

  method ErrorRecovery(g: Grammar, stack: Stack, tokenizer: BacktrackingTokenizer, token: Option<Token>)
    returns (v: Verdict)
    requires stack.stackNodes != []
    modifies stack, tokenizer
    ensures Carried(Parsing.ErrorRecovery(g, old(stack.With(tokenizer.State())), token), v,
                    stack.With(tokenizer.State()))
  {
    var errorNode := g.Info(stack.stackNodes[|stack.stackNodes| - 1].state).errorNode;
    if errorNode.Some? && token.Some? {
      TakeIntoErrorNode(stack, errorNode.value, token.value, tokenizer.State());
      return Continue;
    }
    v := RecoverSomewhere(g, stack, tokenizer, token.Some?, stack.With(tokenizer.State()));
  }

  /** The first stack node from the top that can recover does. */
  method RecoverSomewhere(g: Grammar, stack: Stack, tokenizer: BacktrackingTokenizer, hasToken: bool, ghost m: Machine)
    returns (v: Verdict)
    requires m == stack.With(tokenizer.State())
    modifies stack, tokenizer
    ensures Carried(Recover(g, m, |m.stack|, hasToken), v, stack.With(tokenizer.State()))
  {
    var i := |stack.stackNodes|;
    while i > 0
      invariant 0 <= i <= |m.stack| && stack.With(tokenizer.State()) == m
      invariant Recover(g, m, i, hasToken) == Recover(g, m, |m.stack|, hasToken)
    {
      i := i - 1;
      RecoverDown(g, m, i, hasToken);
      var verdict := TryRecoverAt(g, stack, tokenizer, i, hasToken, m);
      if verdict.Some? {
        return verdict.value;
      }
    }
    return Failed;
  }

  method TakeIntoErrorNode(stack: Stack, nonterminal: nat, token: Token, ghost buffer: Buffer)
    requires stack.stackNodes != []
    modifies stack
    ensures stack.With(buffer) == AddErrorNode(old(stack.With(buffer)), nonterminal, token)
  {
    stack.CalculatePreviousNextNode();
    stack.treeNodes := stack.treeNodes
      + [InternalNode(0, SetErrorRecoveryBit(nonterminal), token.startIndex, token.length)];
    stack.treeNodes := stack.treeNodes
      + [InternalNode(0, SetErrorRecoveryBit(token.transition), token.startIndex, token.length)];
  }

  datatype Result = Parsed(nodes: seq<InternalNode>) | ParsePanics | OutOfSteps

  ghost predicate Reports(result: Result, s: Status) {
    match s
    case Done(nodes) => result == Parsed(nodes)
    case Panicked => result == ParsePanics
    case _ => result == OutOfSteps
  }

  /** The parser's main loop, for at most `steps` rounds: a parser that looks
      ahead may go on forever. */
  method Parse(g: Grammar, all: seq<Token>, start: nat, steps: nat) returns (result: Result)
    ensures Reports(result, Run(g, Start(g, start, all), steps))
  {
    var stack := new Stack(g, start, StateId(start, 0));
    var tokenizer := new BacktrackingTokenizer(all);
    assert stack.With(tokenizer.State()) == Start(g, start, all).machine;
    result := Rounds(g, stack, tokenizer, steps, Start(g, start, all));
  }

  method Rounds(g: Grammar, stack: Stack, tokenizer: BacktrackingTokenizer, steps: nat, ghost first: Status)
    returns (result: Result)
    requires first == Idle(stack.With(tokenizer.State()))
    modifies stack, tokenizer
    ensures Reports(result, Run(g, first, steps))
  {
    var pending: Option<Token> := None;
    ghost var end, s := Run(g, first, steps), first;
    for n := 0 to steps
      invariant s == StatusOf(stack.With(tokenizer.State()), pending) && Run(g, s, steps - n) == end
    {
      if |stack.stackNodes| == 0 && pending.None? {
        RunDone(g, Done(stack.treeNodes), steps - n - 1);
        return Parsed(stack.treeNodes);
      }
      RunOnce(g, s, steps - n);
      var ok: bool;
      ok, pending := Round(g, stack, tokenizer, pending, s);
      s := Step(g, s);
      if !ok {
        RunDone(g, Panicked, steps - n - 1);
        return ParsePanics;
      }
    }
    return OutOfSteps;
  }

  function StatusOf(m: Machine, pending: Option<Token>): Status {
    if pending.Some? then Pending(m, pending.value) else Idle(m)
  }

  /** One round of the loops: read a token, or deal with the one at hand. */
  method Round(g: Grammar, stack: Stack, tokenizer: BacktrackingTokenizer, pending: Option<Token>, ghost s: Status)
    returns (ok: bool, pending': Option<Token>)
    requires (stack.stackNodes != [] || pending.Some?) && s == StatusOf(stack.With(tokenizer.State()), pending)
    modifies stack, tokenizer
    ensures Step(g, s)
         == if ok then StatusOf(stack.With(tokenizer.State()), pending') else Panicked
  {
    if stack.stackNodes == [] {
      return false, None;
    }
    var tos := stack.stackNodes[|stack.stackNodes| - 1];
    if pending.None? {
      var token := tokenizer.Next();
      if token.Some? {
        return true, token;
      }
    } else {
      var plan := g.Lookup(tos.state, pending.value.transition);
      if plan.Some? {
        if plan.value.mode == PositivePeek {
          stack.stackNodes := stack.stackNodes[|stack.stackNodes| - 1 := tos.(state := plan.value.next)];
          return true, pending;
        }
        if !PlanAppliesTo(g, stack, tokenizer, plan.value) {
          return false, None;
        }
        ApplyPlan(g, stack, tokenizer, plan.value, pending.value);
        return true, None;
      }
    }
    if g.Info(tos.state).isFinal {
      ok := EndOfNode(stack, tokenizer);
      return ok, pending;
    }
    var v := ErrorRecovery(g, stack, tokenizer, pending);
    return v != Failed, if v == Again then pending else None;
  }
}
