/** Which nodes of the tree are marked as failed: bit 14 of a node's type tells.
    Recovering from an error sets it, nothing clears it, and without errors it is
    never set. */
module ErrorMarks {
  import opened Rules
  import opened Trees
  import opened ReplayBuffer
  import opened Parsing
  import opened Soundness

  // ----- the mark of a type

  predicate IsError(type_: nat) {
    (type_ / 0x4000) % 2 == 1
  }

  /** The type without the mark. */
  function BaseType(type_: nat): (base: nat)
    ensures !IsError(base)
  {
    if IsError(type_) then
      assert (type_ - 0x4000) / 0x4000 == type_ / 0x4000 - 1;
      type_ - 0x4000
    else type_
  }

  lemma SettingMarks(type_: nat)
    ensures IsError(SetErrorRecoveryBit(type_)) && BaseType(SetErrorRecoveryBit(type_)) == BaseType(type_)
  {
    assert (type_ + 0x4000) / 0x4000 == type_ / 0x4000 + 1;
  }

  // ----- popping failed nodes

  /** The tree node belongs to a stack node from `i` on. */
  ghost predicate IsPopped(m: Machine, i: nat, k: nat) {
    exists j :: i <= j < |m.stack| && m.stack[j].treeNodeIndex == k
  }

  /** A node before and after: marked if it was before or has failed now. */
  predicate NodeMarked(a: InternalNode, b: InternalNode, failed: bool) {
    && (IsError(b.type_) <==> IsError(a.type_) || failed) && BaseType(b.type_) == BaseType(a.type_)
    && b.startIndex == a.startIndex && b.nextNodeOffset == a.nextNodeOffset
  }

  ghost predicate AllMarked(m: Machine, i: nat, m': Machine) {
    |m'.tree| == |m.tree| && forall k :: 0 <= k < |m.tree| ==> NodeMarked(m.tree[k], m'.tree[k], IsPopped(m, i, k))
  }

  /** The top node popped and marked. */
  function OnePopped(m: Machine): Machine
    requires m.stack != [] && m.Tos().treeNodeIndex < |m.tree|
  {
    var popped, k := PopNormal(m), m.Tos().treeNodeIndex;
    popped.(tree := popped.tree[k := popped.tree[k].(type_ := SetErrorRecoveryBit(popped.tree[k].type_))])
  }

  lemma OneMarked(m: Machine, k: nat)
    requires m.stack != [] && m.Tos().treeNodeIndex < |m.tree| && k < |m.tree|
    ensures |OnePopped(m).tree| == |m.tree|
    ensures NodeMarked(m.tree[k], OnePopped(m).tree[k], k == m.Tos().treeNodeIndex)
  {
    SettingMarks(m.tree[k].type_);
  }

  lemma PoppedFirst(m: Machine, i: nat, k: nat)
    requires i < |m.stack| && m.Tos().treeNodeIndex < |m.tree|
    ensures IsPopped(m, i, k) <==> k == m.Tos().treeNodeIndex || IsPopped(OnePopped(m), i, k)
  {
    var n, rest := |m.stack| - 1, OnePopped(m).stack;
    assert rest == m.stack[..n];
    if k == m.Tos().treeNodeIndex {
      assert i <= n < |m.stack| && m.stack[n].treeNodeIndex == k;
    }
    if j :| i <= j < |rest| && rest[j].treeNodeIndex == k {
      assert m.stack[j].treeNodeIndex == k;
    }
    if j :| i <= j < |m.stack| && m.stack[j].treeNodeIndex == k && k != m.Tos().treeNodeIndex {
      assert rest[j].treeNodeIndex == k;
    }
  }

  /** After popping failed nodes a node is marked if and only if it was marked before
      or one of them is it, however many of them share it. */
  lemma {:induction false} PopFailedMarks(m: Machine, i: nat)
    requires i <= |m.stack| && PopFailed(m, i).Ok?
    ensures AllMarked(m, i, PopFailed(m, i).value) && PopFailed(m, i).value.stack == m.stack[..i]
    decreases |m.stack|
  {
    if |m.stack| == i {
      assert m.stack[..i] == m.stack;
    } else {
      var m1 := OnePopped(m);
      assert PopFailed(m, i) == PopFailed(m1, i) && m1.stack[..i] == m.stack[..i];
      PopFailedMarks(m1, i);
      forall k | 0 <= k < |m.tree|
        ensures NodeMarked(m.tree[k], PopFailed(m, i).value.tree[k], IsPopped(m, i, k))
      {
        OneMarked(m, k);
        PoppedFirst(m, i, k);
        assert NodeMarked(m1.tree[k], PopFailed(m1, i).value.tree[k], IsPopped(m1, i, k));
      }
    }
  }

  // ----- nodes that stay

  /** Where a node is after an insertion, if there is one. */
  function Moved(k: nat, at: Option<nat>): nat {
    if at.Some? && at.value <= k then k + 1 else k
  }

  /** The first `n` nodes stay, with their types. */
  ghost predicate TypesStay(a: seq<InternalNode>, b: seq<InternalNode>, n: nat, at: Option<nat>) {
    n <= |a| && forall k :: 0 <= k < n ==> Moved(k, at) < |b| && b[Moved(k, at)].type_ == a[k].type_
  }

  /** The first `n` nodes stay, with their types but for marks that are added. */
  ghost predicate MarksStay(a: seq<InternalNode>, b: seq<InternalNode>, n: nat, at: Option<nat>) {
    && n <= |a|
    && forall k :: 0 <= k < n ==>
         && Moved(k, at) < |b| && BaseType(b[Moved(k, at)].type_) == BaseType(a[k].type_)
         && (IsError(a[k].type_) ==> IsError(b[Moved(k, at)].type_))
  }

  /** A token in an error node: both nodes are marked. */
  lemma ErrorNodeMarked(m: Machine, nonterminal: nat, token: Token)
    requires m.stack != []
    ensures var t, n := AddErrorNode(m, nonterminal, token).tree, |m.tree|;
            && |t| == n + 2 && TypesStay(m.tree, t, n, None)
            && IsError(t[n].type_) && BaseType(t[n].type_) == BaseType(nonterminal)
            && IsError(t[n + 1].type_) && BaseType(t[n + 1].type_) == BaseType(token.transition)
  {
    SettingMarks(nonterminal);
    SettingMarks(token.transition);
  }

  lemma PushTypes(g: Grammar, m: Machine, push: Push, token: Token, recording: bool)
    requires m.stack != [] && CanStart(m.buffer)
    ensures TypesStay(m.tree, ApplyPush(g, m, push, token, recording).0.tree, |m.tree|, None)
  {
  }

  lemma {:induction false} PushesTypes(g: Grammar, m: Machine, pushes: seq<Push>, token: Token, recording: bool)
    requires m.stack != [] && CanStart(m.buffer)
    ensures TypesStay(m.tree, ApplyPushes(g, m, pushes, token, recording).tree, |m.tree|, None)
    decreases |pushes|
  {
    if pushes != [] {
      PushTypes(g, m, pushes[0], token, recording);
      var (m1, recording1) := ApplyPush(g, m, pushes[0], token, recording);
      PushesTypes(g, m1, pushes[1..], token, recording1);
      assert forall k :: 0 <= k < |m.tree| ==> Moved(k, None) < |m1.tree| && m1.tree[k].type_ == m.tree[k].type_;
    }
  }

  /** Where a plan inserts a node, if it does. */
  function InsertedAt(g: Grammar, m: Machine, plan: Plan): Option<nat>
    requires m.stack != []
  {
    if !g.Info(plan.next).isNegativeLookahead && (NeedsNode(g, m, plan) || plan.mode == LeftRecursive)
    then Some(m.Tos().treeNodeIndex)
    else None
  }

  lemma InsertTypes(m: Machine)
    requires m.stack != [] && m.Tos().treeNodeIndex < |m.tree|
    ensures TypesStay(m.tree, InsertNode(m).tree, |m.tree|, Some(m.Tos().treeNodeIndex))
    ensures TypesStay(m.tree, WrapInItself(m).tree, |m.tree|, Some(m.Tos().treeNodeIndex))
  {
  }

  lemma LinkTypes(m: Machine)
    requires m.stack != []
    ensures |LinkLatestChild(m).tree| == |m.tree| && TypesStay(m.tree, LinkLatestChild(m).tree, |m.tree|, None)
  {
  }

  lemma TypesThen(a: seq<InternalNode>, b: seq<InternalNode>, c: seq<InternalNode>, at: Option<nat>)
    requires TypesStay(a, b, |a|, at) && TypesStay(b, c, |b|, None)
    ensures TypesStay(a, c, |a|, at)
  {
    assert forall k :: 0 <= k < |b| ==> Moved(k, None) < |c| && c[Moved(k, None)].type_ == b[k].type_;
  }

  lemma PrepareTypes(g: Grammar, m: Machine, plan: Plan)
    requires PlanApplies(g, m, plan) && !g.Info(plan.next).isNegativeLookahead
    ensures TypesStay(m.tree, Prepare(g, m, plan).tree, |m.tree|, InsertedAt(g, m, plan))
  {
    var moved := m.WithTos(m.Tos().(state := plan.next));
    if NeedsNode(g, m, plan) {
      InsertTypes(moved);
      LinkTypes(InsertNode(moved));
      TypesThen(m.tree, InsertNode(moved).tree, Prepare(g, m, plan).tree, InsertedAt(g, m, plan));
    } else if plan.mode == LeftRecursive {
      InsertTypes(moved);
      LinkTypes(WrapInItself(moved));
      TypesThen(m.tree, WrapInItself(moved).tree, Prepare(g, m, plan).tree, InsertedAt(g, m, plan));
    } else {
      LinkTypes(moved);
    }
  }

  /** A plan leaves the types of all nodes as they are. */
  lemma PlanTypes(g: Grammar, m: Machine, plan: Plan, token: Token)
    requires PlanApplies(g, m, plan)
    ensures TypesStay(m.tree, ApplyPlan(g, m, plan, token).tree, |m.tree|, InsertedAt(g, m, plan))
  {
    if !g.Info(plan.next).isNegativeLookahead {
      var prepared := Prepare(g, m, plan);
      PrepareTypes(g, m, plan);
      PushesTypes(g, prepared, plan.pushes, token, m.Tos().recording);
      var pushed := ApplyPushes(g, prepared, plan.pushes, token, m.Tos().recording);
      TypesThen(m.tree, prepared.tree, pushed.tree, InsertedAt(g, m, plan));
      assert TypesStay(pushed.tree, AddLeaf(pushed, plan.type_, token).tree, |pushed.tree|, None);
      TypesThen(m.tree, pushed.tree, AddLeaf(pushed, plan.type_, token).tree, InsertedAt(g, m, plan));
    }
  }

  // ----- every step

  /** The tree was cut at a count that an open alternative had saved. */
  ghost predicate IsSaved(m: Machine, n: nat) {
    exists j :: 0 <= j < |m.stack| && !m.stack[j].mode.Plain? && m.stack[j].mode.point.treeNodeCount == n
  }

  /** What a step does to the nodes: all stay, or those before a saved count. */
  ghost predicate Stays(m: Machine, tree: seq<InternalNode>, n: nat, at: Option<nat>) {
    MarksStay(m.tree, tree, n, at) && (n == |m.tree| || IsSaved(m, n))
  }

  ghost predicate RecoveryStays(m: Machine, r: Outcome<Recovery>) {
    r.Ok? ==> exists n, at :: Stays(m, r.value.machine.tree, n, at)
  }

  lemma TypesAreMarks(m: Machine, tree: seq<InternalNode>, n: nat, at: Option<nat>)
    requires TypesStay(m.tree, tree, n, at) && (n == |m.tree| || IsSaved(m, n))
    ensures Stays(m, tree, n, at)
  {
  }

  /** Back to a saved point, and a plan from there. */
  lemma BackTypes(g: Grammar, m: Machine, j: nat, ready: Machine, plan: Plan, token: Option<Token>)
    returns (n: nat, at: Option<nat>)
    requires j < |m.stack| && !m.stack[j].mode.Plain?
    requires ready.tree == Truncate(m.tree, m.stack[j].mode.point.treeNodeCount)
    ensures var r := ApplyIfPossible(g, ready, plan, token); r.Ok? ==> Stays(m, r.value.tree, n, at)
  {
    var count := m.stack[j].mode.point.treeNodeCount;
    n, at := if count <= |m.tree| then count else |m.tree|, None;
    if token.Some? && PlanApplies(g, ready, plan) {
      PlanTypes(g, ready, plan, token.value);
      at := InsertedAt(g, ready, plan);
      var tree := ApplyPlan(g, ready, plan, token.value).tree;
      assert forall k :: 0 <= k < n ==> ready.tree[k] == m.tree[k];
      TypesAreMarks(m, tree, n, at);
    }
  }

  lemma PoppedStays(m: Machine, i: nat, hasToken: bool)
    requires i <= |m.stack|
    ensures RecoveryStays(m, Recovered(PopFailed(m, i), hasToken))
  {
    if PopFailed(m, i).Ok? {
      PopFailedMarks(m, i);
      var tree := PopFailed(m, i).value.tree;
      forall k | 0 <= k < |m.tree|
        ensures Moved(k, None) < |tree| && BaseType(tree[k].type_) == BaseType(m.tree[k].type_)
        ensures IsError(m.tree[k].type_) ==> IsError(tree[k].type_)
      {
        assert NodeMarked(m.tree[k], tree[k], IsPopped(m, i, k));
      }
      assert Stays(m, tree, |m.tree|, None);
    }
  }

  lemma RecoverAtStays(g: Grammar, m: Machine, k: nat, hasToken: bool)
    requires k < |m.stack|
    ensures var r := RecoverAt(g, m, k, hasToken); r.Some? ==> RecoveryStays(m, r.value)
  {
    var node := m.stack[k];
    if node.mode.Alternative? {
      if m.tree != [] {
        var (ready, token) := FallbackReady(m, k);
        var n, at := BackTypes(g, m, k, ready, node.mode.fallbackPlan, token);
      }
    } else if node.mode.LastAlternative? && m.tree != [] && FirstWasBetter(m, k) {
      if k > 0 {
        var (ready, token) := ReplayReady(m, k);
        var n, at := BackTypes(g, m, k, ready, node.mode.point.replayPlan, token);
      }
    } else if node.nodeId in g.recovering {
      PoppedStays(m, k, hasToken);
    }
  }

  lemma {:induction false} RecoverStays(g: Grammar, m: Machine, i: nat, hasToken: bool)
    requires i <= |m.stack|
    ensures RecoveryStays(m, Recover(g, m, i, hasToken))
    decreases i
  {
    if i > 0 {
      RecoverAtStays(g, m, i - 1, hasToken);
      RecoverStays(g, m, i - 1, hasToken);
    }
  }

  lemma ErrorRecoveryStays(g: Grammar, m: Machine, token: Option<Token>)
    requires m.stack != []
    ensures RecoveryStays(m, ErrorRecovery(g, m, token))
  {
    var errorNode := g.Info(m.Tos().state).errorNode;
    if errorNode.Some? && token.Some? {
      ErrorNodeMarked(m, errorNode.value, token.value);
      TypesAreMarks(m, AddErrorNode(m, errorNode.value, token.value).tree, |m.tree|, None);
    } else {
      RecoverStays(g, m, |m.stack|, token.Some?);
    }
  }

  lemma EndTypes(m: Machine)
    requires m.stack != []
    ensures EndOfNode(m).Ok? ==> Stays(m, EndOfNode(m).value.tree, |m.tree|, None)
  {
  }

  function TreeOf(s: Status): seq<InternalNode> {
    match s
    case Idle(m) => m.tree
    case Pending(m, _) => m.tree
    case Done(nodes) => nodes
    case Panicked => []
  }

  lemma IdleStays(g: Grammar, m: Machine) returns (n: nat, at: Option<nat>)
    ensures StepIdle(g, m).Panicked? || Stays(m, TreeOf(StepIdle(g, m)), n, at)
  {
    n, at := |m.tree|, None;
    if m.stack != [] && NextOf(m.buffer).1.None? {
      var m' := m.(buffer := NextOf(m.buffer).0);
      if g.Info(m.Tos().state).isFinal {
        EndTypes(m');
      } else {
        ErrorRecoveryStays(g, m', None);
        var r := ErrorRecovery(g, m', None);
        if r.Ok? {
          n, at :| Stays(m', r.value.machine.tree, n, at);
          assert Stays(m, r.value.machine.tree, n, at);
        }
      }
    }
  }

  lemma PendingStays(g: Grammar, m: Machine, token: Token) returns (n: nat, at: Option<nat>)
    ensures StepPending(g, m, token).Panicked? || Stays(m, TreeOf(StepPending(g, m, token)), n, at)
  {
    n, at := |m.tree|, None;
    if m.stack != [] {
      var plan := g.Lookup(m.Tos().state, token.transition);
      if plan.Some? {
        if plan.value.mode != PositivePeek && PlanApplies(g, m, plan.value) {
          at := InsertedAt(g, m, plan.value);
          PlanTypes(g, m, plan.value, token);
          TypesAreMarks(m, ApplyPlan(g, m, plan.value, token).tree, n, at);
        }
      } else if g.Info(m.Tos().state).isFinal {
        EndTypes(m);
      } else {
        ErrorRecoveryStays(g, m, Some(token));
        var r := ErrorRecovery(g, m, Some(token));
        if r.Ok? {
          n, at :| Stays(m, r.value.machine.tree, n, at);
        }
      }
    }
  }

  /** No step clears the mark of a node that stays, or changes its type otherwise;
      and all nodes stay, but when the parser goes back to a saved count. */
  lemma StepKeepsMarks(g: Grammar, s: Status) returns (n: nat, at: Option<nat>)
    requires (s.Idle? || s.Pending?) && !Step(g, s).Panicked?
    ensures Stays(s.machine, TreeOf(Step(g, s)), n, at)
  {
    match s {
      case Idle(m) => n, at := IdleStays(g, m);
      case Pending(m, token) => n, at := PendingStays(g, m, token);
    }
  }

  // ----- runs without errors

  /** The grammar itself has no marked types. */
  ghost predicate PlansUnmarked(g: Grammar) {
    forall id, key :: id in g.states && key in g.states[id].plans ==> PlanUnmarked(g.states[id].plans[key])
  }

  predicate PlanUnmarked(plan: Plan) {
    !IsError(plan.type_) && PushesUnmarked(plan.pushes)
  }

  predicate PushesUnmarked(pushes: seq<Push>) {
    forall i :: 0 <= i < |pushes| ==> !IsError(pushes[i].nodeType)
  }

  predicate TreeUnmarked(tree: seq<InternalNode>) {
    forall k :: 0 <= k < |tree| ==> !IsError(tree[k].type_)
  }

  predicate StackUnmarked(stack: seq<StackNode>) {
    forall j :: 0 <= j < |stack| ==> !IsError(stack[j].nodeId)
  }

  predicate Unmarked(m: Machine) {
    TreeUnmarked(m.tree) && StackUnmarked(m.stack)
  }

  predicate StatusUnmarked(s: Status) {
    match s
    case Idle(m) => Unmarked(m)
    case Pending(m, _) => Unmarked(m)
    case Done(nodes) => TreeUnmarked(nodes)
    case Panicked => true
  }

  lemma PushUnmarked(g: Grammar, m: Machine, push: Push, token: Token, recording: bool)
    requires m.stack != [] && CanStart(m.buffer) && Unmarked(m) && !IsError(push.nodeType)
    ensures Unmarked(ApplyPush(g, m, push, token, recording).0)
  {
  }

  lemma {:induction false} AppliedUnmarked(g: Grammar, m: Machine, pushes: seq<Push>, token: Token, recording: bool)
    requires m.stack != [] && CanStart(m.buffer) && Unmarked(m) && PushesUnmarked(pushes)
    ensures Unmarked(ApplyPushes(g, m, pushes, token, recording))
    decreases |pushes|
  {
    if pushes != [] {
      PushUnmarked(g, m, pushes[0], token, recording);
      var (m1, recording1) := ApplyPush(g, m, pushes[0], token, recording);
      AppliedUnmarked(g, m1, pushes[1..], token, recording1);
    }
  }

  lemma InsertUnmarked(m: Machine)
    requires m.stack != [] && m.Tos().treeNodeIndex < |m.tree| && Unmarked(m)
    ensures Unmarked(InsertNode(m)) && Unmarked(WrapInItself(m))
  {
  }

  lemma LinkUnmarked(m: Machine)
    requires m.stack != [] && Unmarked(m)
    ensures Unmarked(LinkLatestChild(m))
  {
  }

  lemma PlanStaysUnmarked(g: Grammar, m: Machine, plan: Plan, token: Token)
    requires PlanApplies(g, m, plan) && Unmarked(m) && PlanUnmarked(plan)
    ensures Unmarked(ApplyPlan(g, m, plan, token))
  {
    var moved := m.WithTos(m.Tos().(state := plan.next));
    if !g.Info(plan.next).isNegativeLookahead {
      if NeedsNode(g, m, plan) {
        InsertUnmarked(moved);
        LinkUnmarked(InsertNode(moved));
      } else if plan.mode == LeftRecursive {
        InsertUnmarked(moved);
        LinkUnmarked(WrapInItself(moved));
      } else {
        LinkUnmarked(moved);
      }
      AppliedUnmarked(g, Prepare(g, m, plan), plan.pushes, token, m.Tos().recording);
    }
  }

  lemma EndUnmarked(m: Machine)
    requires m.stack != [] && Unmarked(m)
    ensures EndOfNode(m).Ok? ==> Unmarked(EndOfNode(m).value)
  {
  }

  lemma StepUnmarked(g: Grammar, s: Status)
    requires PlansUnmarked(g) && StatusUnmarked(s) && NoError(g, s)
    ensures StatusUnmarked(Step(g, s))
  {
    match s
    case Idle(m) =>
      if m.stack != [] {
        EndUnmarked(m.(buffer := NextOf(m.buffer).0));
      }
    case Pending(m, token) =>
      if m.stack != [] {
        var plan := g.Lookup(m.Tos().state, token.transition);
        if plan.Some? && PlanApplies(g, m, plan.value) {
          PlanStaysUnmarked(g, m, plan.value, token);
        }
        EndUnmarked(m);
      }
    case _ =>
  }

  /** A run without errors marks no node. */
  lemma ErrorFreeMarksNone(g: Grammar, root: nat, all: seq<Token>, n: nat)
    requires PlansUnmarked(g) && !IsError(root) && NoErrors(g, Start(g, root, all), n)
    ensures StatusUnmarked(Run(g, Start(g, root, all), n))
  {
    var p := (s: Status) => StatusUnmarked(s);
    var ok := (s: Status) => NoError(g, s);
    forall s | p(s) && ok(s)
      ensures p(Step(g, s))
    {
      StepUnmarked(g, s);
    }
    RunKeeps(g, p, ok, Start(g, root, all), n);
  }
}
