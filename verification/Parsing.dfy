/** The parser as a machine: an explicit stack, the syntax tree it builds as a
    flat array, and the token buffer. Each function is one operation on the
    machine, as the methods in `ParserStack` carry it out in place. */
module Parsing {
  import opened Rules
  import opened Trees
  import opened ReplayBuffer

  // ----- what the generated tables say

  datatype StateId = StateId(rule: nat, index: nat)

  datatype StackMode = LLPush | AlternativePush(fallback: Plan, replay: Plan)

  datatype Push = Push(nodeType: nat, next: StateId, mode: StackMode)

  datatype PlanMode = LeftRecursive | LL | PositivePeek

  /** What to do on one token: which nodes to open, and where to go. */
  datatype Plan = Plan(pushes: seq<Push>, next: StateId, type_: nat, mode: PlanMode)

  datatype StateInfo = StateInfo(
    isFinal: bool,
    mayBeOmitted: bool,
    isNegativeLookahead: bool,
    errorNode: Option<nat>,
    plans: map<nat, Plan>)

  datatype Grammar = Grammar(states: map<StateId, StateInfo>, recovering: set<nat>) {
    /** Ids stand for pointers, which always lead to a state. */
    function Info(id: StateId): StateInfo {
      if id in states then states[id] else StateInfo(false, false, false, None, map[])
    }

    function Lookup(id: StateId, transition: nat): Option<Plan> {
      if transition in Info(id).plans then Some(Info(id).plans[transition]) else None
    }
  }

  // ----- the machine

  datatype BacktrackingPoint = BacktrackingPoint(
    treeNodeCount: nat,
    tokenIndex: nat,
    childrenCount: nat,
    replayPlan: Plan)

  datatype ModeData =
    | Alternative(point: BacktrackingPoint, fallbackPlan: Plan)
    | LastAlternative(point: BacktrackingPoint, firstPlanStartIndex: nat, firstPlanHadValidStack: bool)
    | Plain

  datatype StackNode = StackNode(
    nodeId: nat,
    treeNodeIndex: nat,
    latestChild: nat,
    state: StateId,
    childrenCount: nat,
    mode: ModeData,
    recording: bool)

  datatype Machine = Machine(stack: seq<StackNode>, tree: seq<InternalNode>, buffer: Buffer) {
    function Tos(): StackNode
      requires stack != []
    {
      stack[|stack| - 1]
    }

    function WithTos(node: StackNode): Machine
      requires stack != []
    {
      this.(stack := stack[|stack| - 1 := node])
    }
  }

  const ERROR_RECOVERY_BIT: nat := 0x4000

  /** Sets bit 14 of a 16-bit type. */
  function SetErrorRecoveryBit(type_: nat): nat {
    if (type_ / ERROR_RECOVERY_BIT) % 2 == 1 then type_ else type_ + ERROR_RECOVERY_BIT
  }

  /** Subtraction of 32-bit numbers, which wraps around. */
  function Minus32(a: nat, b: nat): nat {
    (a - b) % 0x1_0000_0000
  }

  function Insert<T>(s: seq<T>, i: nat, x: T): seq<T>
    requires i <= |s|
  {
    s[..i] + [x] + s[i..]
  }

  function Truncate<T>(s: seq<T>, n: nat): seq<T> {
    if n <= |s| then s[..n] else s
  }

  // ----- operations on the stack and the tree

  /** Sets the length of a node so that it ends where the last node does. */
  function UpdatePosition(tree: seq<InternalNode>, node: StackNode): seq<InternalNode>
    requires node.treeNodeIndex < |tree|
  {
    var n := tree[node.treeNodeIndex];
    tree[node.treeNodeIndex := n.(length := Minus32(tree[|tree| - 1].EndIndex(), n.startIndex))]
  }

  /** Links the latest child of the top node to the one about to be added. */
  function LinkLatestChild(m: Machine): Machine
    requires m.stack != []
  {
    var index, next := m.Tos().latestChild, |m.tree|;
    var tree :=
      if index != 0 && index < |m.tree| then m.tree[index := m.tree[index].(nextNodeOffset := next - index)]
      else m.tree;
    Machine(m.stack, tree, m.buffer).WithTos(m.Tos().(latestChild := next))
  }

  function OpenNode(g: Grammar, m: Machine, nodeId: nat, state: StateId, start: nat, recording: bool): Machine {
    var node := StackNode(nodeId, |m.tree|, 0, state, 0, Plain, recording);
    var tree := if g.Info(state).mayBeOmitted then m.tree else m.tree + [InternalNode(0, nodeId, start, 0)];
    Machine(m.stack + [node], tree, m.buffer)
  }

  /** Ends the top node, which takes up a tree node of its own. */
  function PopNormal(m: Machine): Machine
    requires m.stack != [] && m.Tos().treeNodeIndex < |m.tree|
  {
    Machine(m.stack[..|m.stack| - 1], UpdatePosition(m.tree, m.Tos()), m.buffer)
  }

  /** A tree node for the top node, in front of what it has so far. */
  function InsertNode(m: Machine): Machine
    requires m.stack != [] && m.Tos().treeNodeIndex < |m.tree|
  {
    var tos := m.Tos();
    var node := InternalNode(0, tos.nodeId, m.tree[tos.treeNodeIndex].startIndex, 0);
    Machine(m.stack, Insert(m.tree, tos.treeNodeIndex, node), m.buffer)
      .WithTos(tos.(childrenCount := 1, latestChild := tos.treeNodeIndex + 1))
  }

  // ----- applying a plan

  /** Marking a place in the buffer needs a token before it. */
  predicate CanStart(b: Buffer) {
    b.tokens == [] || b.nextIndex > 0
  }

  function ApplyPush(g: Grammar, m: Machine, push: Push, token: Token, recording: bool): (r: (Machine, bool))
    requires m.stack != [] && CanStart(m.buffer)
    ensures |r.0.stack| == |m.stack| + 1 && CanStart(r.0.buffer)
  {
    var tos := m.Tos();
    var counted := m.WithTos(tos.(childrenCount := tos.childrenCount + 1));
    var (grown, recording') :=
      match push.mode
      case LLPush => (OpenNode(g, counted, push.nodeType, push.next, token.startIndex, recording), recording)
      case AlternativePush(fallback, replay) =>
        var (buffer, tokenIndex) := StartOf(m.buffer, token);
        var point := BacktrackingPoint(|m.tree|, tokenIndex, tos.childrenCount, replay);
        var node := StackNode(push.nodeType, tos.treeNodeIndex, 0, push.next, tos.childrenCount,
                              Alternative(point, fallback), true);
        (Machine(counted.stack + [node], m.tree, buffer), true);
    (grown.WithTos(grown.Tos().(latestChild := |grown.tree|)), recording')
  }

  function ApplyPushes(g: Grammar, m: Machine, pushes: seq<Push>, token: Token, recording: bool): (r: Machine)
    requires m.stack != [] && CanStart(m.buffer)
    ensures |r.stack| == |m.stack| + |pushes| && CanStart(r.buffer)
    decreases |pushes|
  {
    if pushes == [] then m
    else
      var (m', recording') := ApplyPush(g, m, pushes[0], token, recording);
      ApplyPushes(g, m', pushes[1..], token, recording')
  }

  /** The node of a rule that may be omitted is made when a second child comes. */
  predicate NeedsNode(g: Grammar, m: Machine, plan: Plan)
    requires m.stack != []
  {
    g.Info(plan.next).mayBeOmitted && plan.mode != LeftRecursive && m.Tos().childrenCount == 1
  }

  /** Where indexing would go out of bounds otherwise. */
  predicate PlanApplies(g: Grammar, m: Machine, plan: Plan) {
    && m.stack != [] && CanStart(m.buffer)
    && (NeedsNode(g, m, plan) || plan.mode == LeftRecursive ==> m.Tos().treeNodeIndex < |m.tree|)
  }

  /** A finished node becomes the first child of a new node of the same rule. */
  function WrapInItself(m: Machine): Machine
    requires m.stack != [] && m.Tos().treeNodeIndex < |m.tree|
  {
    InsertNode(Machine(m.stack, UpdatePosition(m.tree, m.Tos()), m.buffer).WithTos(m.Tos().(mode := Plain)))
  }

  function AddLeaf(m: Machine, type_: nat, token: Token): Machine
    requires m.stack != []
  {
    Machine(m.stack, m.tree + [InternalNode(0, type_, token.startIndex, token.length)], m.buffer)
      .WithTos(m.Tos().(childrenCount := m.Tos().childrenCount + 1))
  }

  /** The top node right before the children of a plan are added. */
  function Prepare(g: Grammar, m: Machine, plan: Plan): Machine
    requires PlanApplies(g, m, plan)
  {
    var moved := m.WithTos(m.Tos().(state := plan.next));
    LinkLatestChild(
      if NeedsNode(g, m, plan) then InsertNode(moved)
      else if plan.mode == LeftRecursive then WrapInItself(moved)
      else moved)
  }

  function ApplyPlan(g: Grammar, m: Machine, plan: Plan, token: Token): (r: Machine)
    requires PlanApplies(g, m, plan)
    ensures r.stack != []
  {
    if g.Info(plan.next).isNegativeLookahead then m.WithTos(m.Tos().(state := plan.next))
    else
      var prepared := Prepare(g, m, plan);
      AddLeaf(ApplyPushes(g, prepared, plan.pushes, token, m.Tos().recording), plan.type_, token)
  }

  // ----- ending nodes and recovering from errors

  function EndOfNode(m: Machine): Outcome<Machine>
    requires m.stack != []
  {
    if m.Tos().mode.Plain? then
      if m.Tos().treeNodeIndex < |m.tree| then Ok(PopNormal(m)) else Panics
    else if |m.stack| == 1 then Panics
    else
      var old_, rest := m.Tos(), m.stack[..|m.stack| - 1];
      var tos := rest[|rest| - 1].(childrenCount := old_.childrenCount, latestChild := old_.latestChild);
      Ok(Machine(rest[|rest| - 1 := tos], m.tree, if tos.recording then m.buffer else StopOf(m.buffer)))
  }

  /** Back to where the alternative at `i` was entered, and its token again. */
  function ResetTo(m: Machine, i: nat, point: BacktrackingPoint): (Machine, Option<Token>)
    requires i < |m.stack|
  {
    var (buffer, token) := NextOf(ResetOf(m.buffer, point.tokenIndex));
    var stack := m.stack[..i + 1];
    (Machine(stack[i := stack[i].(childrenCount := point.childrenCount)], Truncate(m.tree, point.treeNodeCount),
             buffer), token)
  }

  /** Back at the alternative, its token read again, its other plan to be tried. */
  function FallbackReady(m: Machine, i: nat): (Machine, Option<Token>)
    requires i < |m.stack| && m.stack[i].mode.Alternative? && m.tree != []
  {
    var point := m.stack[i].mode.point;
    var last := LastAlternative(point, m.tree[|m.tree| - 1].startIndex, |m.stack| == i + 1);
    var (reset, token) := ResetTo(m, i, point);
    (reset.WithTos(reset.Tos().(mode := last)), token)
  }

  function ApplyIfPossible(g: Grammar, m: Machine, plan: Plan, token: Option<Token>): (r: Outcome<Machine>)
    ensures r.Ok? ==> r.value.stack != []
  {
    if token.Some? && PlanApplies(g, m, plan) then Ok(ApplyPlan(g, m, plan, token.value)) else Panics
  }

  /** Tries the other alternative. */
  function Fallback(g: Grammar, m: Machine, i: nat): Outcome<Machine>
    requires i < |m.stack| && m.stack[i].mode.Alternative?
  {
    if m.tree == [] then Panics
    else
      var (ready, token) := FallbackReady(m, i);
      ApplyIfPossible(g, ready, m.stack[i].mode.fallbackPlan, token)
  }

  /** Back before the alternative was entered, its token read again. */
  function ReplayReady(m: Machine, i: nat): (Machine, Option<Token>)
    requires 0 < i < |m.stack| && m.stack[i].mode.LastAlternative?
  {
    var (reset, token) := ResetTo(m, i, m.stack[i].mode.point);
    var popped := Machine(reset.stack[..i], reset.tree, reset.buffer);
    (popped.WithTos(popped.Tos().(childrenCount := 0)), token)
  }

  function StopUnlessRecording(m: Machine): Machine
    requires m.stack != []
  {
    if m.Tos().recording then m else m.(buffer := StopOf(m.buffer))
  }

  /** The first alternative got further: it is entered again, to fail there. */
  function Replay(g: Grammar, m: Machine, i: nat): Outcome<Machine>
    requires i < |m.stack| && m.stack[i].mode.LastAlternative?
  {
    if i == 0 then Panics
    else
      var (ready, token) := ReplayReady(m, i);
      match ApplyIfPossible(g, ready, m.stack[i].mode.point.replayPlan, token)
      case Ok(m') => Ok(StopUnlessRecording(m'))
      case Panics => Panics
  }

  predicate FirstWasBetter(m: Machine, i: nat)
    requires i < |m.stack| && m.stack[i].mode.LastAlternative? && m.tree != []
  {
    var mode, start := m.stack[i].mode, m.tree[|m.tree| - 1].startIndex;
    || mode.firstPlanStartIndex > start
    || (mode.firstPlanStartIndex == start && mode.firstPlanHadValidStack
        && 0xFFFF_FFFF_FFFF_FFFF - |m.stack| != i + 1)
  }

  /** Pops the nodes from `i` on and marks each as failed. */
  function PopFailed(m: Machine, i: nat): Outcome<Machine>
    decreases |m.stack|
  {
    if |m.stack| <= i then Ok(m)
    else if m.Tos().treeNodeIndex >= |m.tree| then Panics
    else
      var popped := PopNormal(m);
      var k := m.Tos().treeNodeIndex;
      var marked := popped.tree[k].(type_ := SetErrorRecoveryBit(popped.tree[k].type_));
      PopFailed(popped.(tree := popped.tree[k := marked]), i)
  }

  /** `again` says that the token is still to be dealt with. */
  datatype Recovery = Recovery(machine: Machine, again: bool)

  function Recovered(m: Outcome<Machine>, again: bool): Outcome<Recovery> {
    match m
    case Ok(machine) => Ok(Recovery(machine, again))
    case Panics => Panics
  }

  /** What the stack node at `k` can do about an error, if anything. */
  function RecoverAt(g: Grammar, m: Machine, k: nat, hasToken: bool): Option<Outcome<Recovery>>
    requires k < |m.stack|
  {
    var node := m.stack[k];
    if node.mode.Alternative? then Some(Recovered(Fallback(g, m, k), false))
    else if node.mode.LastAlternative? && m.tree == [] then Some(Panics)
    else if node.mode.LastAlternative? && FirstWasBetter(m, k) then Some(Recovered(Replay(g, m, k), false))
    else if node.nodeId in g.recovering then Some(Recovered(PopFailed(m, k), hasToken))
    else None
  }

  /** Looks down the stack, from `i - 1`, for an alternative or a rule that can
      take the failed nodes. */
  function Recover(g: Grammar, m: Machine, i: nat, hasToken: bool): Outcome<Recovery>
    requires i <= |m.stack|
    decreases i
  {
    if i == 0 then Panics
    else
      match RecoverAt(g, m, i - 1, hasToken)
      case Some(r) => r
      case None => Recover(g, m, i - 1, hasToken)
  }

  lemma RecoverDown(g: Grammar, m: Machine, i: nat, hasToken: bool)
    requires i < |m.stack|
    ensures var r := RecoverAt(g, m, i, hasToken);
            Recover(g, m, i + 1, hasToken) == if r.Some? then r.value else Recover(g, m, i, hasToken)
  {
  }

  /** Takes the token into an error node of its own. */
  function AddErrorNode(m: Machine, nonterminal: nat, token: Token): Machine
    requires m.stack != []
  {
    var linked := LinkLatestChild(m);
    linked.(tree := linked.tree
      + [InternalNode(0, SetErrorRecoveryBit(nonterminal), token.startIndex, token.length)]
      + [InternalNode(0, SetErrorRecoveryBit(token.transition), token.startIndex, token.length)])
  }

  function ErrorRecovery(g: Grammar, m: Machine, token: Option<Token>): Outcome<Recovery>
    requires m.stack != []
  {
    var errorNode := g.Info(m.Tos().state).errorNode;
    if errorNode.Some? && token.Some? then Ok(Recovery(AddErrorNode(m, errorNode.value, token.value), false))
    else Recover(g, m, |m.stack|, token.Some?)
  }

  // ----- the parser, step by step

  datatype Status =
    | Idle(machine: Machine)
    | Pending(machine: Machine, token: Token)
    | Done(nodes: seq<InternalNode>)
    | Panicked

  function Start(g: Grammar, nodeId: nat, all: seq<Token>): Status {
    var start := StateId(nodeId, 0);
    Idle(OpenNode(g, Machine([], [], Fresh(all)), nodeId, start, 0, false))
  }

  /** The next token is read, or, at the end, the top node is ended. */
  function StepIdle(g: Grammar, m: Machine): Status {
    if m.stack == [] then Done(m.tree)
    else
      var (buffer, token) := NextOf(m.buffer);
      var m' := m.(buffer := buffer);
      if token.Some? then Pending(m', token.value)
      else if g.Info(m.Tos().state).isFinal then
        match EndOfNode(m')
        case Ok(m'') => Idle(m'')
        case Panics => Panicked
      else
        match ErrorRecovery(g, m', None)
        case Ok(r) => Idle(r.machine)
        case Panics => Panicked
  }

  /** One round of dealing with a token. */
  function StepPending(g: Grammar, m: Machine, token: Token): Status {
    if m.stack == [] then Panicked
    else
      var plan := g.Lookup(m.Tos().state, token.transition);
      if plan.Some? then
        if plan.value.mode == PositivePeek then Pending(m.WithTos(m.Tos().(state := plan.value.next)), token)
        else if PlanApplies(g, m, plan.value) then Idle(ApplyPlan(g, m, plan.value, token))
        else Panicked
      else if g.Info(m.Tos().state).isFinal then
        match EndOfNode(m)
        case Ok(m') => Pending(m', token)
        case Panics => Panicked
      else
        match ErrorRecovery(g, m, Some(token))
        case Ok(r) => if r.again then Pending(r.machine, token) else Idle(r.machine)
        case Panics => Panicked
  }

  function Step(g: Grammar, s: Status): Status {
    match s
    case Idle(m) => StepIdle(g, m)
    case Pending(m, token) => StepPending(g, m, token)
    case Done(_) => s
    case Panicked => s
  }

  function Run(g: Grammar, s: Status, n: nat): Status
    decreases n
  {
    if n == 0 then s else Run(g, Step(g, s), n - 1)
  }

  lemma {:induction false} RunDone(g: Grammar, s: Status, n: nat)
    requires s.Done? || s.Panicked?
    ensures Run(g, s, n) == s
    decreases n
  {
    if n > 0 {
      RunDone(g, s, n - 1);
    }
  }

  lemma RunOnce(g: Grammar, s: Status, n: nat)
    requires n > 0
    ensures Run(g, s, n) == Run(g, Step(g, s), n - 1)
  {
  }

  lemma {:induction false} RunJoin(g: Grammar, s: Status, i: nat, j: nat)
    ensures Run(g, s, i + j) == Run(g, Run(g, s, i), j)
    decreases i
  {
    if i > 0 {
      RunOnce(g, s, i);
      RunOnce(g, s, i + j);
      var next := Step(g, s);
      RunJoin(g, next, i - 1, j);
    }
  }

  /** Each of the first `n` states of a run is as it should be. */
  ghost predicate AllAlong(g: Grammar, ok: Status -> bool, s: Status, n: nat) {
    forall k: nat :: k < n ==> ok(Run(g, s, k))
  }

  lemma AllLater(g: Grammar, ok: Status -> bool, s: Status, n: nat)
    requires n > 0 && AllAlong(g, ok, s, n)
    ensures ok(s) && AllAlong(g, ok, Step(g, s), n - 1)
  {
    assert ok(Run(g, s, 0));
    forall k: nat | k < n - 1
      ensures ok(Run(g, Step(g, s), k))
    {
      RunOnce(g, s, k + 1);
    }
  }

  /** What every step keeps, a run keeps. */
  lemma {:induction false} RunKeeps(g: Grammar, p: Status -> bool, ok: Status -> bool, s: Status, n: nat)
    requires p(s) && AllAlong(g, ok, s, n)
    requires forall s' {:trigger ok(s')} :: p(s') && ok(s') ==> p(Step(g, s'))
    ensures p(Run(g, s, n))
    decreases n
  {
    if n > 0 {
      AllLater(g, ok, s, n);
      RunOnce(g, s, n);
      RunKeeps(g, p, ok, Step(g, s), n - 1);
    }
  }

  /** If every step is over or has less left, a run comes to where it is over, and
      goes on to its end from there. */
  lemma {:induction false} RunGetsOver(g: Grammar, p: Status -> bool, ok: Status -> bool, over: Status -> bool,
                                       left: Status -> nat, s: Status, n: nat, end: Status)
    returns (mid: Status, rest: nat)
    requires p(s) && left(s) < n && AllAlong(g, ok, s, n) && end == Run(g, s, n)
    requires forall s' {:trigger ok(s')} :: p(s') && ok(s') && !over(s') ==>
               p(Step(g, s')) && left(Step(g, s')) < left(s')
    ensures p(mid) && over(mid) && rest > 0 && end == Run(g, mid, rest)
    decreases n
  {
    if over(s) {
      mid, rest := s, n;
    } else {
      AllLater(g, ok, s, n);
      RunOnce(g, s, n);
      mid, rest := RunGetsOver(g, p, ok, over, left, Step(g, s), n - 1, end);
    }
  }
}
