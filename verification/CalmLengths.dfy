/** Grammars in which leaves keep their lengths as well: calm ones where a rule
    that may be left out of the tree takes no token into an error node. A stack
    node without a tree node of its own then stands for at most one leaf, the
    last one of the tree. */
module CalmLengths {
  import opened Rules
  import opened Trees
  import opened ReplayBuffer
  import opened Parsing
  import opened Backtracking
  import opened CalmGrammars
  import opened ExactConservation

  /** What can be read off the tables: error nodes are added to nodes only that
      are in the tree. */
  ghost predicate ErrorsHaveNodes(g: Grammar) {
    forall id :: id in g.states && Omits(g, id.rule) ==> g.states[id].errorNode.None?
  }

  predicate LeafAt(tree: seq<InternalNode>, k: nat) {
    k < |tree| && tree[k].IsLeaf()
  }

  ghost predicate PointIsInside(g: Grammar, node: StackNode) {
    HasPoint(node) ==> !Omits(g, node.nodeId) && node.treeNodeIndex < node.mode.point.treeNodeCount
  }

  /** Between two steps: a rule that is in the tree has its node; one that is left
      out has at most one leaf, the last one. */
  ghost predicate Headed(g: Grammar, m: Machine, j: nat)
    requires j < |m.stack|
  {
    var node := m.stack[j];
    && (node.treeNodeIndex < |m.tree| || (m.tree == [] && |m.stack| == 1 && node.childrenCount == 0))
    && (!Omits(g, node.nodeId) ==> node.treeNodeIndex < |m.tree| && !LeafAt(m.tree, node.treeNodeIndex))
    && PointIsInside(g, node)
    && (LeafAt(m.tree, node.treeNodeIndex) ==> node.treeNodeIndex == |m.tree| - 1 && node.childrenCount == 1)
  }

  ghost predicate AllHeaded(g: Grammar, m: Machine) {
    forall j :: 0 <= j < |m.stack| ==> Headed(g, m, j)
  }

  // ----- headed stacks pop no leaf but the last

  lemma HeadedIsSafe(g: Grammar, m: Machine, tokens: seq<Token>, j: nat)
    requires j < |m.stack| && Headed(g, m, j)
    requires Leaves(m.tree, true) == Keys(tokens, true) && Short(tokens)
    ensures UpdateIsSafe(m.tree, m.stack[j].treeNodeIndex)
  {
    var k := m.stack[j].treeNodeIndex;
    if LeafAt(m.tree, k) {
      LeafIsShort(m.tree, tokens, k);
    }
  }

  lemma AllAreSafe(g: Grammar, m: Machine, tokens: seq<Token>)
    requires AllHeaded(g, m) && Leaves(m.tree, true) == Keys(tokens, true) && Short(tokens)
    ensures PopsAreSafe(m, 0)
  {
    forall j | 0 <= j < |m.stack|
      ensures UpdateIsSafe(m.tree, m.stack[j].treeNodeIndex)
    {
      HeadedIsSafe(g, m, tokens, j);
    }
  }

  lemma HeadedKeepsLengths(g: Grammar, all: seq<Token>, s: Status)
    requires Conserved(g, all, true, s) && Short(all) && StatusHeaded(g, s)
    ensures KeepsLengths(g, s)
  {
    match s
    case Idle(m) => AllAreSafe(g, m, all[..Cursor(all, m.buffer)]);
    case Pending(m, token) => AllAreSafe(g, m, all[..Cursor(all, m.buffer) - 1]);
    case _ =>
  }

  ghost predicate StatusHeaded(g: Grammar, s: Status) {
    match s
    case Idle(m) => AllHeaded(g, m)
    case Pending(m, _) => AllHeaded(g, m)
    case _ => true
  }

  // ----- applying a plan

  /** While a plan is applied: no stack node stands for a leaf; those opened last
      may have nothing yet, each counting the next one as its child. */
  ghost predicate Bare(g: Grammar, m: Machine, j: nat)
    requires j < |m.stack|
  {
    var node := m.stack[j];
    && PointIsInside(g, node)
    && if node.treeNodeIndex < |m.tree| then !LeafAt(m.tree, node.treeNodeIndex)
       else
         && node.treeNodeIndex == |m.tree| && Omits(g, node.nodeId)
         && node.childrenCount == if j == |m.stack| - 1 then 0 else 1
  }

  ghost predicate AllBare(g: Grammar, m: Machine) {
    forall j :: 0 <= j < |m.stack| ==> Bare(g, m, j)
  }

  /** What stands for a leaf stands for the one of the top node. */
  lemma LeafIsTops(g: Grammar, m: Machine, j: nat)
    requires StackOk(g, m) && AllHeaded(g, m) && j < |m.stack| && LeafAt(m.tree, m.stack[j].treeNodeIndex)
    ensures m.Tos().treeNodeIndex == m.stack[j].treeNodeIndex && Omits(g, m.Tos().nodeId) && m.Tos().childrenCount == 1
  {
    var top := |m.stack| - 1;
    assert Headed(g, m, j) && Headed(g, m, top);
    if j < top {
      assert PairOk(m, j, top);
    }
  }

  lemma MovedIsBare(g: Grammar, m: Machine, plan: Plan)
    requires TablesOk(g) && StackOk(g, m) && AllHeaded(g, m) && m.stack != [] && PlanOk(g, m.Tos().nodeId, plan)
    requires !Inserts(g, m, plan)
    ensures AllBare(g, m.WithTos(m.Tos().(state := plan.next)))
  {
    var m' := m.WithTos(m.Tos().(state := plan.next));
    assert StateOk(g, plan.next, g.states[plan.next]);
    forall j | 0 <= j < |m.stack|
      ensures Bare(g, m', j)
    {
      assert Headed(g, m, j) && NodeOk(g, m, j);
      if LeafAt(m.tree, m.stack[j].treeNodeIndex) {
        LeafIsTops(g, m, j);
      }
    }
  }

  lemma InsertedIsBare(g: Grammar, m: Machine)
    requires StackOk(g, m) && AllHeaded(g, m) && m.stack != [] && m.Tos().treeNodeIndex < |m.tree|
    ensures AllBare(g, InsertNode(m))
  {
    var top, k := |m.stack| - 1, m.Tos().treeNodeIndex;
    var m' := InsertNode(m);
    assert NodeOk(g, m, top);
    forall j | 0 <= j < |m.stack|
      ensures Bare(g, m', j)
    {
      assert Headed(g, m, j);
      if j < top {
        assert PairOk(m, j, top);
      }
      if LeafAt(m.tree, m.stack[j].treeNodeIndex) {
        LeafIsTops(g, m, j);
      }
    }
  }

  /** Rewriting nodes without changing what is a leaf. */
  lemma HeadedRewritten(g: Grammar, m: Machine, tree: seq<InternalNode>)
    requires SameLeaves(m.tree, tree, false)
    ensures AllHeaded(g, m) ==> AllHeaded(g, m.(tree := tree))
    ensures AllBare(g, m) ==> AllBare(g, m.(tree := tree))
  {
    forall k: nat
      ensures LeafAt(m.tree, k) == LeafAt(tree, k)
    {
      if k < |tree| {
        assert SameLeaf(m.tree[k], tree[k], false);
      }
    }
    forall j | 0 <= j < |m.stack|
      ensures Headed(g, m, j) ==> Headed(g, m.(tree := tree), j)
      ensures Bare(g, m, j) ==> Bare(g, m.(tree := tree), j)
    {
    }
  }

  lemma TopHeaded(g: Grammar, m: Machine, node: StackNode)
    requires m.stack != [] && AllHeaded(g, m) && TopChanged(m, node)
    requires node.childrenCount == m.Tos().childrenCount || !Omits(g, node.nodeId)
    ensures AllHeaded(g, m.WithTos(node))
  {
    var m' := m.WithTos(node);
    assert Headed(g, m, |m.stack| - 1);
    forall j | 0 <= j < |m.stack|
      ensures Headed(g, m', j)
    {
      assert Headed(g, m, j);
    }
  }

  lemma LinkedIsBare(g: Grammar, m: Machine)
    requires m.stack != [] && AllBare(g, m)
    ensures AllBare(g, LinkLatestChild(m))
  {
    var tree, m' := LinkLatestChild(m).tree, LinkLatestChild(m);
    LinkKeepsLeaves(m, false);
    HeadedRewritten(g, m, tree);
    forall j | 0 <= j < |m.stack|
      ensures Bare(g, m', j)
    {
      assert Bare(g, m.(tree := tree), j);
    }
  }

  lemma WrappedIsBare(g: Grammar, all: seq<Token>, m: Machine)
    requires Ready(g, all, false, m, 1) && AllHeaded(g, m) && m.stack != [] && m.Tos().treeNodeIndex < |m.tree|
    ensures AllBare(g, WrapInItself(m))
  {
    EndedKeeps(g, all, false, m, 1);
    HeadedRewritten(g, m, UpdatePosition(m.tree, m.Tos()));
    TopHeaded(g, m.(tree := UpdatePosition(m.tree, m.Tos())), m.Tos().(mode := Plain));
    assert Ended(m) == m.(tree := UpdatePosition(m.tree, m.Tos())).WithTos(m.Tos().(mode := Plain));
    InsertedIsBare(g, Ended(m));
    assert WrapInItself(m) == InsertNode(Ended(m));
  }

  lemma PreparedIsBare(g: Grammar, all: seq<Token>, m: Machine, plan: Plan)
    requires TablesOk(g) && Ready(g, all, false, m, 1) && AllHeaded(g, m)
    requires PlanApplies(g, m, plan) && PlanOk(g, m.Tos().nodeId, plan)
    ensures AllBare(g, Prepare(g, m, plan))
  {
    var node := m.Tos().(state := plan.next);
    var moved := m.WithTos(node);
    assert Headed(g, m, |m.stack| - 1) && Placed(m, |m.stack| - 1);
    TopRewritten(g, all, false, m, node, 1);
    TopHeaded(g, m, node);
    if NeedsNode(g, m, plan) {
      InsertedIsBare(g, moved);
      LinkedIsBare(g, InsertNode(moved));
    } else if plan.mode == LeftRecursive {
      WrappedIsBare(g, all, moved);
      LinkedIsBare(g, WrapInItself(moved));
    } else {
      MovedIsBare(g, m, plan);
      LinkedIsBare(g, moved);
    }
  }

  lemma PushIsBare(g: Grammar, m: Machine, push: Push, token: Token, recording: bool)
    requires TablesOk(g) && AllBare(g, m) && m.stack != [] && CanStart(m.buffer)
    requires PushOk(g, m.Tos().nodeId, push) && PushCalm(g, push)
    ensures AllBare(g, ApplyPush(g, m, push, token, recording).0)
  {
    var top := |m.stack| - 1;
    var m' := ApplyPush(g, m, push, token, recording).0;
    assert StateOk(g, push.next, g.states[push.next]);
    assert Bare(g, m, top);
    forall j | 0 <= j < |m'.stack|
      ensures Bare(g, m', j)
    {
      if j <= top {
        assert Bare(g, m, j);
      }
    }
  }

  lemma {:induction false} PushesAreBare(g: Grammar, m: Machine, pushes: seq<Push>, token: Token, recording: bool)
    requires TablesOk(g) && AllBare(g, m) && m.stack != [] && CanStart(m.buffer)
    requires PushesOk(g, m.Tos().nodeId, pushes) && PushesCalm(g, pushes)
    ensures AllBare(g, ApplyPushes(g, m, pushes, token, recording))
    decreases |pushes|
  {
    if pushes != [] {
      var (m', recording') := ApplyPush(g, m, pushes[0], token, recording);
      PushIsBare(g, m, pushes[0], token, recording);
      PushesAreBare(g, m', pushes[1..], token, recording');
    }
  }

  lemma LeafIsHeaded(g: Grammar, m: Machine, type_: nat, token: Token)
    requires AllBare(g, m) && m.stack != []
    ensures AllHeaded(g, AddLeaf(m, type_, token))
  {
    var m' := AddLeaf(m, type_, token);
    forall j | 0 <= j < |m'.stack|
      ensures Headed(g, m', j)
    {
      assert Bare(g, m, j);
    }
  }

  lemma PlanStaysHeaded(g: Grammar, all: seq<Token>, m: Machine, plan: Plan, token: Token)
    requires TablesOk(g) && Ready(g, all, false, m, 1) && AllHeaded(g, m)
    requires PlanApplies(g, m, plan) && PlanOk(g, m.Tos().nodeId, plan) && PlanCalm(g, plan)
    ensures AllHeaded(g, ApplyPlan(g, m, plan, token))
  {
    assert StateOk(g, plan.next, g.states[plan.next]);
    var prepared := Prepare(g, m, plan);
    PreparedIsBare(g, all, m, plan);
    PrepareShape(g, m, plan);
    PushesAreBare(g, prepared, plan.pushes, token, m.Tos().recording);
    LeafIsHeaded(g, ApplyPushes(g, prepared, plan.pushes, token, m.Tos().recording), plan.type_, token);
  }

  // ----- the other steps

  lemma PrefixHeaded(g: Grammar, m: Machine, n: nat)
    requires AllHeaded(g, m) && n <= |m.stack|
    ensures AllHeaded(g, m.(stack := m.stack[..n]))
  {
    var m' := m.(stack := m.stack[..n]);
    forall j | 0 <= j < n
      ensures Headed(g, m', j)
    {
      assert Headed(g, m, j);
    }
  }

  lemma EndStaysHeaded(g: Grammar, m: Machine)
    requires StackOk(g, m) && AllHeaded(g, m) && m.stack != []
    ensures EndOfNode(m).Ok? ==> AllHeaded(g, EndOfNode(m).value)
  {
    var top := |m.stack| - 1;
    PrefixHeaded(g, m, top);
    var popped := m.(stack := m.stack[..top]);
    assert Headed(g, m, top);
    if m.Tos().mode.Plain? {
      if m.Tos().treeNodeIndex < |m.tree| {
        UpdateKeepsLeaves(m.tree, m.Tos(), false);
        HeadedRewritten(g, popped, UpdatePosition(m.tree, m.Tos()));
      }
    } else if top > 0 {
      assert PairOk(m, top - 1, top);
      var node := popped.Tos().(childrenCount := m.Tos().childrenCount, latestChild := m.Tos().latestChild);
      TopHeaded(g, popped, node);
      BufferHeaded(g, popped.WithTos(node), StopOf(m.buffer));
    }
  }

  lemma {:induction false} PopFailedStaysHeaded(g: Grammar, m: Machine, i: nat)
    requires AllHeaded(g, m) && PopFailed(m, i).Ok?
    ensures AllHeaded(g, PopFailed(m, i).value)
    decreases |m.stack|
  {
    if |m.stack| > i {
      PrefixHeaded(g, m, |m.stack| - 1);
      UpdateKeepsLeaves(m.tree, m.Tos(), false);
      var popped := m.(stack := m.stack[..|m.stack| - 1]);
      HeadedRewritten(g, popped, PopMarked(m).tree);
      assert PopMarked(m) == popped.(tree := PopMarked(m).tree);
      PopFailedStaysHeaded(g, PopMarked(m), i);
    }
  }

  lemma ErrorNodeHeaded(g: Grammar, m: Machine, nonterminal: nat, token: Token)
    requires StackOk(g, m) && AllHeaded(g, m) && m.stack != [] && !Omits(g, m.Tos().nodeId)
    ensures AllHeaded(g, AddErrorNode(m, nonterminal, token))
  {
    var m' := AddErrorNode(m, nonterminal, token);
    var linked := LinkLatestChild(m);
    LinkKeepsLeaves(m, false);
    assert Headed(g, m, |m.stack| - 1);
    forall j | 0 <= j < |m.stack|
      ensures Headed(g, m', j)
    {
      assert Headed(g, m, j);
      if LeafAt(m.tree, m.stack[j].treeNodeIndex) {
        LeafIsTops(g, m, j);
      }
      assert SameLeaf(m.tree[m.stack[j].treeNodeIndex], linked.tree[m.stack[j].treeNodeIndex], false);
    }
  }

  /** At a saved point the node of the alternative is in what is left of the
      tree, so that no node below it stands for a leaf. */
  lemma ResetHeaded(g: Grammar, all: seq<Token>, full: bool, m: Machine, i: nat)
    requires Inv(g, all, full, m, 0) || Inv(g, all, full, m, 1)
    requires AllHeaded(g, m) && i < |m.stack| && HasPoint(m.stack[i])
    ensures AllHeaded(g, ResetTo(m, i, m.stack[i].mode.point).0)
  {
    var point := m.stack[i].mode.point;
    var reset := ResetTo(m, i, point).0;
    assert Headed(g, m, i) && PointOk(all, full, m.tree, m.buffer, point);
    forall j | 0 <= j <= i
      ensures Headed(g, reset, j)
    {
      assert Headed(g, m, j);
      if j < i {
        assert PairOk(m, j, i);
      }
    }
  }

  lemma FallbackHeaded(g: Grammar, all: seq<Token>, full: bool, m: Machine, i: nat)
    requires TablesOk(g) && (Inv(g, all, full, m, 0) || Inv(g, all, full, m, 1)) && AllHeaded(g, m)
             && StackCalm(g, m.stack)
    requires i < |m.stack| && m.stack[i].mode.Alternative? && Fallback(g, m, i).Ok?
    ensures AllHeaded(g, Fallback(g, m, i).value)
  {
    ResetHeaded(g, all, full, m, i);
    var reset := ResetTo(m, i, m.stack[i].mode.point).0;
    var (ready, token) := FallbackReady(m, i);
    TopHeaded(g, reset, ready.Tos());
    FallbackReadyOk(g, all, full, m, i);
    ReadyErased(g, all, full, ready);
    assert NodeOk(g, m, i) && NodeCalm(g, m.stack[i]);
    PlanStaysHeaded(g, all, ready, m.stack[i].mode.fallbackPlan, token.value);
  }

  lemma ReplayReadyHeaded(g: Grammar, all: seq<Token>, full: bool, m: Machine, i: nat)
    requires Inv(g, all, full, m, 0) || Inv(g, all, full, m, 1)
    requires AllHeaded(g, m) && 0 < i < |m.stack| && m.stack[i].mode.LastAlternative?
    ensures AllHeaded(g, ReplayReady(m, i).0)
  {
    ResetHeaded(g, all, full, m, i);
    var reset := ResetTo(m, i, m.stack[i].mode.point).0;
    PrefixHeaded(g, reset, i);
    ReplayShape(m, i);
    var popped := reset.(stack := reset.stack[..i]);
    assert NodeOk(g, m, i) && PairOk(m, i - 1, i) && Headed(g, m, i);
    TopHeaded(g, popped, popped.Tos().(childrenCount := 0));
  }

  lemma ReplayHeaded(g: Grammar, all: seq<Token>, full: bool, m: Machine, i: nat)
    requires TablesOk(g) && (Inv(g, all, full, m, 0) || Inv(g, all, full, m, 1)) && AllHeaded(g, m)
             && StackCalm(g, m.stack)
    requires i < |m.stack| && m.stack[i].mode.LastAlternative? && Replay(g, m, i).Ok?
    ensures AllHeaded(g, Replay(g, m, i).value)
  {
    var (ready, token) := ReplayReady(m, i);
    var plan := m.stack[i].mode.point.replayPlan;
    ReplayReadyHeaded(g, all, full, m, i);
    ReplayReadyOk(g, all, full, m, i);
    ReadyErased(g, all, full, ready);
    assert NodeCalm(g, m.stack[i]);
    PlanStaysHeaded(g, all, ready, plan, token.value);
    BufferHeaded(g, ApplyPlan(g, ready, plan, token.value), Replay(g, m, i).value.buffer);
  }

  lemma ErrorStaysHeaded(g: Grammar, all: seq<Token>, full: bool, m: Machine, token: Option<Token>)
    requires TablesOk(g) && ErrorsHaveNodes(g) && (Inv(g, all, full, m, 0) || Inv(g, all, full, m, 1))
    requires AllHeaded(g, m) && StackCalm(g, m.stack) && m.stack != [] && ErrorRecovery(g, m, token).Ok?
    ensures AllHeaded(g, ErrorRecovery(g, m, token).value.machine)
  {
    assert NodeOk(g, m, |m.stack| - 1);
    var errorNode := g.Info(m.Tos().state).errorNode;
    if errorNode.Some? && token.Some? {
      ErrorNodeHeaded(g, m, errorNode.value, token.value);
    } else {
      WhoRecovers(g, m, |m.stack|, token.Some?);
      var k := Recoverer(g, m, |m.stack|);
      if m.stack[k].mode.Alternative? {
        FallbackHeaded(g, all, full, m, k);
      } else if m.stack[k].mode.LastAlternative? && m.tree != [] && FirstWasBetter(m, k) {
        ReplayHeaded(g, all, full, m, k);
      } else {
        PopFailedStaysHeaded(g, m, k);
      }
    }
  }

  lemma StepStaysHeaded(g: Grammar, all: seq<Token>, full: bool, s: Status)
    requires TablesOk(g) && Calm(g) && ErrorsHaveNodes(g) && Conserved(g, all, full, s)
    requires StatusCalm(g, s) && StatusHeaded(g, s)
    ensures StatusHeaded(g, Step(g, s))
  {
    match s
    case Idle(m) =>
      if m.stack != [] {
        var m' := m.(buffer := NextOf(m.buffer).0);
        ReadKeeps(g, all, full, m);
        BufferHeaded(g, m, m'.buffer);
        if NextOf(m.buffer).1.None? {
          if g.Info(m.Tos().state).isFinal {
            EndStaysHeaded(g, m');
          } else if ErrorRecovery(g, m', None).Ok? {
            ErrorStaysHeaded(g, all, full, m', None);
          }
        }
      }
    case Pending(m, token) => PendingStaysHeaded(g, all, full, m, token);
    case _ =>
  }

  lemma BufferHeaded(g: Grammar, m: Machine, buffer: Buffer)
    requires AllHeaded(g, m)
    ensures AllHeaded(g, m.(buffer := buffer))
  {
    forall j | 0 <= j < |m.stack|
      ensures Headed(g, m.(buffer := buffer), j)
    {
      assert Headed(g, m, j);
    }
  }

  lemma PendingStaysHeaded(g: Grammar, all: seq<Token>, full: bool, m: Machine, token: Token)
    requires TablesOk(g) && Calm(g) && ErrorsHaveNodes(g) && Conserved(g, all, full, Pending(m, token))
    requires StackCalm(g, m.stack) && AllHeaded(g, m)
    ensures StatusHeaded(g, StepPending(g, m, token))
  {
    if m.stack != [] {
      assert NodeOk(g, m, |m.stack| - 1);
      var plan := g.Lookup(m.Tos().state, token.transition);
      if plan.Some? {
        if PlanApplies(g, m, plan.value) {
          InvErased(g, all, full, m, 1);
          PlanStaysHeaded(g, all, m, plan.value, token);
        }
      } else if g.Info(m.Tos().state).isFinal {
        EndStaysHeaded(g, m);
      } else if ErrorRecovery(g, m, Some(token)).Ok? {
        ErrorStaysHeaded(g, all, full, m, Some(token));
      }
    }
  }

  // ----- whole runs

  lemma {:induction false} RunStaysHeaded(g: Grammar, all: seq<Token>, s: Status, n: nat)
    requires TablesOk(g) && Calm(g) && ErrorsHaveNodes(g) && TokensOk(all) && Short(all)
    requires Conserved(g, all, true, s) && StatusCalm(g, s) && StatusHeaded(g, s)
    ensures Conserved(g, all, true, Run(g, s, n))
    decreases n
  {
    if n > 0 {
      StepCalmKeeps(g, all, true, s);
      HeadedKeepsLengths(g, all, s);
      match s {
        case Idle(m) => IdleConserves(g, all, true, m);
        case Pending(m, token) => PendingConserves(g, all, true, m, token);
        case _ =>
      }
      StepStaysCalm(g, all, true, s);
      StepStaysHeaded(g, all, true, s);
      RunStaysHeaded(g, all, Step(g, s), n - 1);
    }
  }

  lemma StartHeaded(g: Grammar, all: seq<Token>, root: nat)
    requires TablesOk(g) && StateId(root, 0) in g.states && root >= NODE_START
    ensures AllHeaded(g, Start(g, root, all).machine)
  {
    assert StateOk(g, StateId(root, 0), g.states[StateId(root, 0)]);
    assert Headed(g, Start(g, root, all).machine, 0);
  }

  /** On such a grammar every run keeps each token with its place and its length:
      the leaves of the tree are the tokens read, and at the end all of them. */
  lemma CalmGrammarsKeepLengths(g: Grammar, all: seq<Token>, root: nat, n: nat)
    requires TablesOk(g) && Calm(g) && ErrorsHaveNodes(g) && TokensOk(all) && Short(all)
    requires StateId(root, 0) in g.states && root >= NODE_START
    ensures Conserved(g, all, true, Run(g, Start(g, root, all), n))
  {
    StartConserves(g, all, true, root);
    StartCalm(g, all, root);
    StartHeaded(g, all, root);
    RunStaysHeaded(g, all, Start(g, root, all), n);
  }
}
