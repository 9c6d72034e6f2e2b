/** Backtracking conserves tokens: at every step of the parser the leaves of the
    tree are the tokens read so far, and what an alternative has saved still
    tells where its tokens end. */
module Backtracking {
  import opened Rules
  import opened Trees
  import opened ReplayBuffer
  import opened Parsing

  // ----- what the tables promise

  ghost predicate Omits(g: Grammar, rule: nat) {
    StateId(rule, 0) in g.states && g.states[StateId(rule, 0)].mayBeOmitted
  }

  /** A plan keeps within its rule and opens nodes of rules; an alternative is
      pushed for the rule that is being parsed. */
  ghost predicate PlanOk(g: Grammar, rule: nat, plan: Plan)
    decreases plan, 1
  {
    && plan.next in g.states && plan.next.rule == rule
    && plan.type_ < NODE_START && plan.mode != PositivePeek
    && PushesOk(g, rule, plan.pushes)
  }

  ghost predicate PushesOk(g: Grammar, rule: nat, pushes: seq<Push>)
    decreases pushes, 0
  {
    pushes == [] || (PushOk(g, rule, pushes[0]) && PushesOk(g, pushes[0].nodeType, pushes[1..]))
  }

  ghost predicate PushOk(g: Grammar, rule: nat, push: Push)
    decreases push, 0
  {
    && push.next in g.states && push.next.rule == push.nodeType >= NODE_START
    && match push.mode
       case LLPush => true
       case AlternativePush(fallback, replay) =>
         && push.nodeType == rule && fallback.mode == LL && replay.mode == LL
         && PlanOk(g, rule, fallback) && PlanOk(g, rule, replay)
  }

  ghost predicate StateOk(g: Grammar, id: StateId, info: StateInfo) {
    && !info.isNegativeLookahead
    && info.mayBeOmitted == Omits(g, id.rule)
    && (info.errorNode.Some? ==> info.errorNode.value >= NODE_START)
    && forall t :: t in info.plans ==> PlanOk(g, id.rule, info.plans[t])
  }

  /** The tables of a grammar without lookaheads. */
  ghost predicate TablesOk(g: Grammar) {
    forall id :: id in g.states ==> StateOk(g, id, g.states[id])
  }

  // ----- leaves

  /** A leaf is known by its start and, if `full`, also by its length. */
  function Key(start: nat, length: nat, full: bool): (nat, nat) {
    (start, if full then length else 0)
  }

  function Leaves(tree: seq<InternalNode>, full: bool): seq<(nat, nat)> {
    if tree == [] then []
    else (if tree[0].IsLeaf() then [Key(tree[0].startIndex, tree[0].length, full)] else []) + Leaves(tree[1..], full)
  }

  function Keys(tokens: seq<Token>, full: bool): seq<(nat, nat)> {
    seq(|tokens|, i requires 0 <= i < |tokens| => Key(tokens[i].startIndex, tokens[i].length, full))
  }

  lemma {:induction false} LeavesJoin(a: seq<InternalNode>, b: seq<InternalNode>, full: bool)
    ensures Leaves(a + b, full) == Leaves(a, full) + Leaves(b, full)
  {
    if a == [] {
      assert a + b == b;
    } else {
      assert (a + b)[0] == a[0] && (a + b)[1..] == a[1..] + b;
      LeavesJoin(a[1..], b, full);
      if a[0].IsLeaf() {
        JoinFront(Key(a[0].startIndex, a[0].length, full), Leaves(a[1..], full), Leaves(b, full));
      }
    }
  }

  lemma JoinFront<T>(x: T, a: seq<T>, b: seq<T>)
    ensures [x] + (a + b) == [x] + a + b
  {
  }

  lemma LeavesOfOne(n: InternalNode, full: bool)
    ensures Leaves([n], full) == if n.IsLeaf() then [Key(n.startIndex, n.length, full)] else []
  {
    assert [n][1..] == [];
  }

  /** Nodes that count for the same leaf, or for none. */
  ghost predicate SameLeaf(a: InternalNode, b: InternalNode, full: bool) {
    a.IsLeaf() == b.IsLeaf()
    && (a.IsLeaf() ==> Key(a.startIndex, a.length, full) == Key(b.startIndex, b.length, full))
  }

  ghost predicate SameLeaves(a: seq<InternalNode>, b: seq<InternalNode>, full: bool) {
    |a| == |b| && forall i :: 0 <= i < |a| ==> SameLeaf(a[i], b[i], full)
  }

  lemma {:induction false} SameLeavesSame(a: seq<InternalNode>, b: seq<InternalNode>, full: bool)
    requires SameLeaves(a, b, full)
    ensures Leaves(a, full) == Leaves(b, full)
  {
    if a != [] {
      assert SameLeaf(a[0], b[0], full);
      SameLeavesSame(a[1..], b[1..], full);
    }
  }

  lemma LeavesSplit(tree: seq<InternalNode>, i: nat, full: bool)
    requires i <= |tree|
    ensures Leaves(tree, full) == Leaves(tree[..i], full) + Leaves(tree[i..], full)
  {
    assert tree == tree[..i] + tree[i..];
    LeavesJoin(tree[..i], tree[i..], full);
  }

  lemma LeavesInsert(tree: seq<InternalNode>, i: nat, n: InternalNode, full: bool)
    requires i <= |tree| && !n.IsLeaf()
    ensures Leaves(Insert(tree, i, n), full) == Leaves(tree, full)
  {
    LeavesSplit(tree, i, full);
    LeavesOfOne(n, full);
    LeavesJoin(tree[..i] + [n], tree[i..], full);
    LeavesJoin(tree[..i], [n], full);
  }

  lemma LeavesAppend(tree: seq<InternalNode>, n: InternalNode, full: bool)
    ensures Leaves(tree + [n], full)
         == Leaves(tree, full) + if n.IsLeaf() then [Key(n.startIndex, n.length, full)] else []
  {
    LeavesJoin(tree, [n], full);
    LeavesOfOne(n, full);
  }

  lemma KeysAppend(all: seq<Token>, c: nat, full: bool)
    requires c < |all|
    ensures Keys(all[..c + 1], full) == Keys(all[..c], full) + [Key(all[c].startIndex, all[c].length, full)]
  {
  }

  // ----- what holds between the steps

  ghost predicate HasPoint(node: StackNode) {
    !node.mode.Plain?
  }

  /** The first nodes of the tree up to a saved count carry exactly the tokens
      before the saved place in the buffer. */
  ghost predicate PointOk(all: seq<Token>, full: bool, tree: seq<InternalNode>, buffer: Buffer,
                          point: BacktrackingPoint)
  {
    && point.treeNodeCount <= |tree|
    && point.tokenIndex < |buffer.tokens|
    && Leaves(tree[..point.treeNodeCount], full) == Keys(Before(all, buffer, point), full)
  }

  function Before(all: seq<Token>, buffer: Buffer, point: BacktrackingPoint): seq<Token> {
    var end := Base(all, buffer) + point.tokenIndex;
    if 0 <= end <= |all| then all[..end] else []
  }

  ghost predicate PointsOk(all: seq<Token>, full: bool, m: Machine) {
    forall j :: 0 <= j < |m.stack| && HasPoint(m.stack[j]) ==>
      PointOk(all, full, m.tree, m.buffer, m.stack[j].mode.point)
  }

  /** One stack node, by itself. */
  ghost predicate NodeOk(g: Grammar, m: Machine, j: nat)
    requires j < |m.stack|
  {
    var node := m.stack[j];
    && node.state in g.states && node.state.rule == node.nodeId >= NODE_START
    && node.treeNodeIndex <= |m.tree|
    && (node.recording ==> m.buffer.isRecording)
    && (HasPoint(node) ==>
          && node.recording
          && node.treeNodeIndex <= node.mode.point.treeNodeCount
          && (node.mode.point.childrenCount > 0 ==> node.treeNodeIndex < node.mode.point.treeNodeCount)
          && PlanOk(g, node.nodeId, node.mode.point.replayPlan) && node.mode.point.replayPlan.mode == LL
          && (node.mode.Alternative? ==>
                PlanOk(g, node.nodeId, node.mode.fallbackPlan) && node.mode.fallbackPlan.mode == LL))
  }

  /** Nodes further up the stack lie further on in the tree; a saved count is
      passed only by alternatives of the same rule. */
  ghost predicate PairOk(m: Machine, j: nat, k: nat)
    requires j < k < |m.stack|
  {
    && m.stack[j].treeNodeIndex <= m.stack[k].treeNodeIndex
    && (m.stack[j].recording ==> m.stack[k].recording)
    && (HasPoint(m.stack[j]) ==>
          m.stack[k].treeNodeIndex >= m.stack[j].mode.point.treeNodeCount || m.stack[k].nodeId == m.stack[j].nodeId)
    && (HasPoint(m.stack[k]) && HasPoint(m.stack[j]) ==>
          m.stack[j].mode.point.treeNodeCount <= m.stack[k].mode.point.treeNodeCount)
    && (HasPoint(m.stack[k]) ==> m.stack[j].treeNodeIndex <= m.stack[k].mode.point.treeNodeCount)
    && (HasPoint(m.stack[k]) && k == j + 1 ==> m.stack[j].nodeId == m.stack[k].nodeId)
  }

  ghost predicate StackOk(g: Grammar, m: Machine) {
    && (forall j :: 0 <= j < |m.stack| ==> NodeOk(g, m, j))
    && (forall j, k :: 0 <= j < k < |m.stack| ==> PairOk(m, j, k))
  }

  /** Nodes that have a child have their place in the tree. */
  ghost predicate Placed(m: Machine, j: nat)
    requires j < |m.stack|
  {
    m.stack[j].childrenCount > 0 ==> m.stack[j].treeNodeIndex < |m.tree|
  }

  /** What holds when a plan is applied; `behind` tokens have been read but are
      not in the tree yet. */
  ghost predicate Ready(g: Grammar, all: seq<Token>, full: bool, m: Machine, behind: nat) {
    && Consistent(all, m.buffer)
    && behind <= Cursor(all, m.buffer) <= |all|
    && Leaves(m.tree, full) == Keys(all[..Cursor(all, m.buffer) - behind], full)
    && StackOk(g, m)
    && PointsOk(all, full, m)
    && (m.stack != [] ==> Placed(m, |m.stack| - 1))
  }

  /** A tree with leaves ends with one. */
  ghost predicate TreeEnds(tree: seq<InternalNode>) {
    forall i :: 0 <= i < |tree| && tree[i].IsLeaf() ==> tree[|tree| - 1].IsLeaf()
  }

  /** What holds between any two steps. */
  ghost predicate Inv(g: Grammar, all: seq<Token>, full: bool, m: Machine, behind: nat) {
    Ready(g, all, full, m, behind) && TreeEnds(m.tree) && forall j :: 0 <= j < |m.stack| ==> Placed(m, j)
  }

  // ----- changes to the tree that keep its leaves

  /** Overwriting nodes without changing leaves keeps everything. */
  lemma TreeRewritten(g: Grammar, all: seq<Token>, full: bool, m: Machine, tree: seq<InternalNode>, behind: nat)
    requires SameLeaves(m.tree, tree, full)
    ensures Ready(g, all, full, m, behind) ==> Ready(g, all, full, m.(tree := tree), behind)
    ensures Inv(g, all, full, m, behind) ==> Inv(g, all, full, m.(tree := tree), behind)
  {
    SameLeavesSame(m.tree, tree, full);
    var m' := m.(tree := tree);
    if Ready(g, all, full, m, behind) {
      forall j | 0 <= j < |m.stack| && HasPoint(m.stack[j])
        ensures PointOk(all, full, tree, m.buffer, m.stack[j].mode.point)
      {
        var point := m.stack[j].mode.point;
        assert PointOk(all, full, m.tree, m.buffer, point);
        SameLeavesSame(m.tree[..point.treeNodeCount], tree[..point.treeNodeCount], full);
      }
      assert forall j :: 0 <= j < |m.stack| ==> NodeOk(g, m, j) ==> NodeOk(g, m', j);
      assert forall j, k :: 0 <= j < k < |m.stack| ==> PairOk(m, j, k) ==> PairOk(m', j, k);
      assert forall j :: 0 <= j < |m.stack| ==> Placed(m, j) ==> Placed(m', j);
    }
  }

  /** The node at `k` is no leaf, or it ends where the tree ends, so that giving
      it a length again leaves it as it is. */
  predicate UpdateIsSafe(tree: seq<InternalNode>, k: nat) {
    k < |tree| && tree[k].IsLeaf() ==> Minus32(tree[|tree| - 1].EndIndex(), tree[k].startIndex) == tree[k].length
  }

  lemma UpdateKeepsLeaves(tree: seq<InternalNode>, node: StackNode, full: bool)
    requires node.treeNodeIndex < |tree| && (full ==> UpdateIsSafe(tree, node.treeNodeIndex))
    ensures SameLeaves(tree, UpdatePosition(tree, node), full)
  {
  }

  lemma LinkKeepsLeaves(m: Machine, full: bool)
    requires m.stack != []
    ensures SameLeaves(m.tree, LinkLatestChild(m).tree, full)
  {
  }

  /** Dropping the top node keeps the others as they are. */
  lemma PoppedOk(g: Grammar, all: seq<Token>, full: bool, m: Machine, behind: nat)
    requires Inv(g, all, full, m, behind) && m.stack != []
    ensures Inv(g, all, full, m.(stack := m.stack[..|m.stack| - 1]), behind)
  {
    var m' := m.(stack := m.stack[..|m.stack| - 1]);
    assert forall j :: 0 <= j < |m'.stack| ==> m'.stack[j] == m.stack[j] && NodeOk(g, m, j) ==> NodeOk(g, m', j);
    assert forall j, k :: 0 <= j < k < |m'.stack| ==> PairOk(m, j, k) ==> PairOk(m', j, k);
    assert forall j :: 0 <= j < |m'.stack| ==> Placed(m, j) ==> Placed(m', j);
  }

  lemma PopKeeps(g: Grammar, all: seq<Token>, full: bool, m: Machine, behind: nat)
    requires Inv(g, all, full, m, behind) && m.stack != [] && m.Tos().treeNodeIndex < |m.tree|
    requires full ==> UpdateIsSafe(m.tree, m.Tos().treeNodeIndex)
    ensures Inv(g, all, full, PopNormal(m), behind)
  {
    PoppedOk(g, all, full, m, behind);
    UpdateKeepsLeaves(m.tree, m.Tos(), full);
    TreeRewritten(g, all, full, m.(stack := m.stack[..|m.stack| - 1]), UpdatePosition(m.tree, m.Tos()), behind);
  }

  /** Changing only counters and links of the top node, and whether it still has
      a saved point, keeps the stack in order. */
  ghost predicate TopChanged(m: Machine, node: StackNode)
    requires m.stack != []
  {
    var tos := m.Tos();
    && node.nodeId == tos.nodeId && node.treeNodeIndex == tos.treeNodeIndex && node.recording == tos.recording
    && (node.mode == tos.mode || node.mode.Plain?
        || (HasPoint(tos) && node.mode.LastAlternative? && node.mode.point == tos.mode.point))
  }

  lemma TopRewritten(g: Grammar, all: seq<Token>, full: bool, m: Machine, node: StackNode, behind: nat)
    requires Ready(g, all, full, m, behind) && m.stack != [] && TopChanged(m, node)
    requires node.state in g.states && node.state.rule == node.nodeId
    requires node.childrenCount > 0 ==> node.treeNodeIndex < |m.tree|
    ensures Ready(g, all, full, m.WithTos(node), behind)
    ensures Inv(g, all, full, m, behind) ==> Inv(g, all, full, m.WithTos(node), behind)
  {
    var m' := m.WithTos(node);
    var top := |m.stack| - 1;
    assert NodeOk(g, m, top);
    forall j | 0 <= j < |m.stack|
      ensures NodeOk(g, m', j)
    {
      assert NodeOk(g, m, j);
    }
    forall j, k | 0 <= j < k < |m.stack|
      ensures PairOk(m', j, k)
    {
      assert PairOk(m, j, k);
    }
    forall j | 0 <= j < |m.stack| && HasPoint(m'.stack[j])
      ensures PointOk(all, full, m'.tree, m'.buffer, m'.stack[j].mode.point)
    {
      assert HasPoint(m.stack[j]);
    }
    if Inv(g, all, full, m, behind) {
      forall j | 0 <= j < |m.stack|
        ensures Placed(m', j)
      {
        assert Placed(m, j);
      }
    }
  }

  // ----- a node inserted in front of what the top node has

  /** The saved counts that an insertion at `k` shifts are those that lie behind
      it; it does no harm if what it shifts out is not a leaf. */
  predicate KeepsPoint(tree: seq<InternalNode>, k: nat, point: BacktrackingPoint) {
    point.treeNodeCount <= k || (0 < point.treeNodeCount <= |tree| && !tree[point.treeNodeCount - 1].IsLeaf())
  }

  lemma InsertAndPoint(tree: seq<InternalNode>, k: nat, n: InternalNode, count: nat, full: bool)
    requires k < count <= |tree| && !n.IsLeaf()
    ensures Leaves(tree[..count], full)
         == Leaves(Insert(tree, k, n)[..count], full)
            + if tree[count - 1].IsLeaf() then [Key(tree[count - 1].startIndex, tree[count - 1].length, full)] else []
  {
    var front := tree[..count - 1];
    assert Insert(tree, k, n)[..count] == Insert(front, k, n);
    LeavesInsert(front, k, n, full);
    assert tree[..count] == front + [tree[count - 1]];
    LeavesAppend(front, tree[count - 1], full);
  }

  lemma InsertedPoint(all: seq<Token>, full: bool, tree: seq<InternalNode>, buffer: Buffer, point: BacktrackingPoint,
                      k: nat, n: InternalNode)
    requires PointOk(all, full, tree, buffer, point) && k <= |tree| && !n.IsLeaf()
    ensures PointOk(all, full, Insert(tree, k, n), buffer, point) <==> KeepsPoint(tree, k, point)
  {
    var count := point.treeNodeCount;
    if count <= k {
      assert Insert(tree, k, n)[..count] == tree[..count];
    } else {
      InsertAndPoint(tree, k, n, count, full);
    }
  }

  /** An insertion that keeps every saved point keeps everything. */
  lemma InsertKeeps(g: Grammar, all: seq<Token>, full: bool, m: Machine, behind: nat)
    requires Ready(g, all, full, m, behind) && m.stack != [] && m.Tos().treeNodeIndex < |m.tree|
    requires forall j :: 0 <= j < |m.stack| && HasPoint(m.stack[j]) ==>
               KeepsPoint(m.tree, m.Tos().treeNodeIndex, m.stack[j].mode.point)
    ensures Ready(g, all, full, InsertNode(m), behind)
  {
    var k, tos := m.Tos().treeNodeIndex, m.Tos();
    assert NodeOk(g, m, |m.stack| - 1);
    var n := InternalNode(0, tos.nodeId, m.tree[k].startIndex, 0);
    var m1 := m.(tree := Insert(m.tree, k, n));
    LeavesInsert(m.tree, k, n, full);
    forall j | 0 <= j < |m.stack|
      ensures NodeOk(g, m1, j)
    {
      assert NodeOk(g, m, j);
    }
    forall j, i | 0 <= j < i < |m.stack|
      ensures PairOk(m1, j, i)
    {
      assert PairOk(m, j, i);
    }
    forall j | 0 <= j < |m.stack| && HasPoint(m.stack[j])
      ensures PointOk(all, full, m1.tree, m1.buffer, m.stack[j].mode.point)
    {
      InsertedPoint(all, full, m.tree, m.buffer, m.stack[j].mode.point, k, n);
    }
    TopRewritten(g, all, full, m1, tos.(childrenCount := 1, latestChild := k + 1), behind);
  }

  // ----- applying a plan

  predicate Inserts(g: Grammar, m: Machine, plan: Plan)
    requires m.stack != []
  {
    NeedsNode(g, m, plan) || plan.mode == LeftRecursive
  }

  /** The plan inserts no node below a saved count. Left recursion drops the
      point of the top node, so that one need not be kept. */
  predicate KeepsPoints(g: Grammar, m: Machine, plan: Plan)
    requires m.stack != []
  {
    Inserts(g, m, plan) ==>
      forall j ::
        0 <= j < (if plan.mode == LeftRecursive then |m.stack| - 1 else |m.stack|) && !m.stack[j].mode.Plain? ==>
        KeepsPoint(m.tree, m.Tos().treeNodeIndex, m.stack[j].mode.point)
  }

  /** With full keys: what the plan overwrites is not a leaf whose length would
      change. */
  predicate PlanIsSafe(m: Machine, plan: Plan)
    requires m.stack != []
  {
    plan.mode == LeftRecursive ==> UpdateIsSafe(m.tree, m.Tos().treeNodeIndex)
  }

  lemma KeepsRewrittenPoint(a: seq<InternalNode>, b: seq<InternalNode>, full: bool, k: nat, point: BacktrackingPoint)
    requires SameLeaves(a, b, full) && KeepsPoint(a, k, point)
    ensures KeepsPoint(b, k, point)
  {
    if point.treeNodeCount > k {
      assert SameLeaf(a[point.treeNodeCount - 1], b[point.treeNodeCount - 1], full);
    }
  }

  /** The top node without its point, its tree node ended. */
  function Ended(m: Machine): Machine
    requires m.stack != [] && m.Tos().treeNodeIndex < |m.tree|
  {
    Machine(m.stack, UpdatePosition(m.tree, m.Tos()), m.buffer).WithTos(m.Tos().(mode := Plain))
  }

  lemma EndedKeeps(g: Grammar, all: seq<Token>, full: bool, m: Machine, behind: nat)
    requires Ready(g, all, full, m, behind) && m.stack != [] && m.Tos().treeNodeIndex < |m.tree|
    requires full ==> UpdateIsSafe(m.tree, m.Tos().treeNodeIndex)
    ensures Ready(g, all, full, Ended(m), behind) && SameLeaves(m.tree, Ended(m).tree, full)
  {
    var plain := m.Tos().(mode := Plain);
    assert NodeOk(g, m, |m.stack| - 1);
    TopRewritten(g, all, full, m, plain, behind);
    UpdateKeepsLeaves(m.tree, m.Tos(), full);
    TreeRewritten(g, all, full, m.WithTos(plain), UpdatePosition(m.tree, m.Tos()), behind);
    assert m.WithTos(plain).(tree := UpdatePosition(m.tree, m.Tos())) == Ended(m);
  }

  /** Left recursion: the node is ended where it is and wrapped. */
  lemma WrapKeeps(g: Grammar, all: seq<Token>, full: bool, m: Machine, behind: nat)
    requires Ready(g, all, full, m, behind) && m.stack != [] && m.Tos().treeNodeIndex < |m.tree|
    requires full ==> UpdateIsSafe(m.tree, m.Tos().treeNodeIndex)
    requires forall j :: 0 <= j < |m.stack| - 1 && HasPoint(m.stack[j]) ==>
               KeepsPoint(m.tree, m.Tos().treeNodeIndex, m.stack[j].mode.point)
    ensures Ready(g, all, full, WrapInItself(m), behind)
  {
    var ended := Ended(m);
    EndedKeeps(g, all, full, m, behind);
    forall j | 0 <= j < |ended.stack| && HasPoint(ended.stack[j])
      ensures KeepsPoint(ended.tree, m.Tos().treeNodeIndex, ended.stack[j].mode.point)
    {
      KeepsRewrittenPoint(m.tree, ended.tree, full, m.Tos().treeNodeIndex, m.stack[j].mode.point);
    }
    InsertKeeps(g, all, full, ended, behind);
    assert WrapInItself(m) == InsertNode(ended);
  }

  lemma PrepareKeeps(g: Grammar, all: seq<Token>, full: bool, m: Machine, plan: Plan, behind: nat)
    requires Ready(g, all, full, m, behind) && PlanApplies(g, m, plan) && PlanOk(g, m.Tos().nodeId, plan)
    requires KeepsPoints(g, m, plan) && (full ==> PlanIsSafe(m, plan))
    ensures Ready(g, all, full, Prepare(g, m, plan), behind)
  {
    var moved := m.WithTos(m.Tos().(state := plan.next));
    assert Placed(m, |m.stack| - 1);
    TopRewritten(g, all, full, m, m.Tos().(state := plan.next), behind);
    if NeedsNode(g, m, plan) {
      forall j | 0 <= j < |moved.stack| && HasPoint(moved.stack[j])
        ensures KeepsPoint(moved.tree, moved.Tos().treeNodeIndex, moved.stack[j].mode.point)
      {
        assert !m.stack[j].mode.Plain?;
      }
      InsertKeeps(g, all, full, moved, behind);
      LinkKeeps(g, all, full, InsertNode(moved), behind);
    } else if plan.mode == LeftRecursive {
      forall j | 0 <= j < |moved.stack| - 1 && HasPoint(moved.stack[j])
        ensures KeepsPoint(moved.tree, moved.Tos().treeNodeIndex, moved.stack[j].mode.point)
      {
        assert !m.stack[j].mode.Plain?;
      }
      WrapKeeps(g, all, full, moved, behind);
      LinkKeeps(g, all, full, WrapInItself(moved), behind);
    } else {
      LinkKeeps(g, all, full, moved, behind);
    }
  }

  lemma PrepareShape(g: Grammar, m: Machine, plan: Plan)
    requires PlanApplies(g, m, plan)
    ensures Prepare(g, m, plan).buffer == m.buffer && |Prepare(g, m, plan).stack| == |m.stack|
    ensures Prepare(g, m, plan).Tos().nodeId == m.Tos().nodeId
            && Prepare(g, m, plan).Tos().recording == m.Tos().recording
  {
  }

  lemma LinkKeeps(g: Grammar, all: seq<Token>, full: bool, m: Machine, behind: nat)
    requires Ready(g, all, full, m, behind) && m.stack != []
    ensures Ready(g, all, full, LinkLatestChild(m), behind)
    ensures Inv(g, all, full, m, behind) ==> Inv(g, all, full, LinkLatestChild(m), behind)
  {
    var tree := LinkLatestChild(m).tree;
    LinkKeepsLeaves(m, full);
    TreeRewritten(g, all, full, m, tree, behind);
    assert NodeOk(g, m, |m.stack| - 1);
    TopRewritten(g, all, full, m.(tree := tree), m.Tos().(latestChild := |m.tree|), behind);
  }

  // ----- pushing the nodes of a plan

  /** Right before a push: the token at hand is the last one read. */
  ghost predicate AtToken(all: seq<Token>, m: Machine, token: Token) {
    m.stack != [] && CanMark(all, m.buffer, token) && CanStart(m.buffer)
  }

  lemma CountKeeps(g: Grammar, all: seq<Token>, full: bool, m: Machine)
    requires Ready(g, all, full, m, 1) && m.stack != []
    ensures var node := m.Tos().(childrenCount := m.Tos().childrenCount + 1);
            var m' := m.WithTos(node);
            StackOk(g, m') && PointsOk(all, full, m')
  {
    var node := m.Tos().(childrenCount := m.Tos().childrenCount + 1);
    var m' := m.WithTos(node);
    forall j | 0 <= j < |m.stack|
      ensures NodeOk(g, m', j)
    {
      assert NodeOk(g, m, j);
    }
    forall j, k | 0 <= j < k < |m.stack|
      ensures PairOk(m', j, k)
    {
      assert PairOk(m, j, k);
    }
    forall j | 0 <= j < |m'.stack| && HasPoint(m'.stack[j])
      ensures PointOk(all, full, m'.tree, m'.buffer, m'.stack[j].mode.point)
    {
      assert HasPoint(m.stack[j]);
    }
  }

  /** A node put on top, with the tree and the buffer possibly grown. */
  lemma PushedOnTop(g: Grammar, all: seq<Token>, full: bool, m: Machine, node: StackNode, m': Machine)
    requires m.stack != [] && StackOk(g, m) && PointsOk(all, full, m)
    requires m'.stack == m.stack + [node] && m.tree <= m'.tree
    requires |m.tree| <= |m'.tree|
    requires m.buffer.isRecording ==> m'.buffer.isRecording && Base(all, m'.buffer) == Base(all, m.buffer)
                                      && |m.buffer.tokens| <= |m'.buffer.tokens|
    requires NodeOk(g, m', |m.stack|)
    requires m.Tos().treeNodeIndex <= node.treeNodeIndex
    requires node.treeNodeIndex >= |m.tree|
             || (node.nodeId == m.Tos().nodeId && node.treeNodeIndex == m.Tos().treeNodeIndex)
    requires m.Tos().recording ==> node.recording
    requires HasPoint(node) ==> node.nodeId == m.Tos().nodeId
    requires HasPoint(node) ==>
               node.mode.point.treeNodeCount == |m.tree| && PointOk(all, full, m'.tree, m'.buffer, node.mode.point)
    ensures StackOk(g, m') && PointsOk(all, full, m')
  {
    var top := |m.stack|;
    forall j | 0 <= j <= top
      ensures NodeOk(g, m', j)
    {
      if j < top {
        assert NodeOk(g, m, j);
      }
    }
    forall j, k | 0 <= j < k <= top
      ensures PairOk(m', j, k)
    {
      assert NodeOk(g, m, j);
      if k < top {
        assert PairOk(m, j, k);
      } else {
        assert NodeOk(g, m, top - 1);
        if j < top - 1 {
          assert PairOk(m, j, top - 1);
        }
        if HasPoint(m.stack[j]) {
          assert PointOk(all, full, m.tree, m.buffer, m.stack[j].mode.point);
        }
      }
    }
    forall j | 0 <= j <= top && HasPoint(m'.stack[j])
      ensures PointOk(all, full, m'.tree, m'.buffer, m'.stack[j].mode.point)
    {
      if j < top {
        var point := m.stack[j].mode.point;
        assert PointOk(all, full, m.tree, m.buffer, point) && NodeOk(g, m, j);
        assert m'.tree[..point.treeNodeCount] == m.tree[..point.treeNodeCount];
      }
    }
  }

  /** What the machine is after a push, and that nothing was lost. */
  ghost predicate PushKept(g: Grammar, all: seq<Token>, full: bool, m: Machine, push: Push, token: Token, m': Machine,
                           recording: bool)
  {
    && Ready(g, all, full, m', 1) && AtToken(all, m', token)
    && recording == m'.Tos().recording && m'.Tos().nodeId == push.nodeType
    && Cursor(all, m'.buffer) == Cursor(all, m.buffer)
  }

  lemma OpenKeeps(g: Grammar, all: seq<Token>, full: bool, m: Machine, push: Push, token: Token)
    requires Ready(g, all, full, m, 1) && AtToken(all, m, token) && PushOk(g, m.Tos().nodeId, push) && push.mode.LLPush?
    ensures var (m', recording) := ApplyPush(g, m, push, token, m.Tos().recording);
            PushKept(g, all, full, m, push, token, m', recording)
  {
    var tos, top := m.Tos(), |m.stack|;
    var counted := m.WithTos(tos.(childrenCount := tos.childrenCount + 1));
    CountKeeps(g, all, full, m);
    assert NodeOk(g, m, top - 1);
    var (m', recording) := ApplyPush(g, m, push, token, tos.recording);
    var node := StackNode(push.nodeType, |m.tree|, |m'.tree|, push.next, 0, Plain, tos.recording);
    assert m'.stack == counted.stack + [node];
    PushedOnTop(g, all, full, counted, node, m');
    if m'.tree != m.tree {
      LeavesAppend(m.tree, InternalNode(0, push.nodeType, token.startIndex, 0), full);
    }
  }

  /** The node of an alternative, and what it saves. */
  function AlternativeNode(m: Machine, push: Push, token: Token): StackNode
    requires m.stack != [] && CanStart(m.buffer) && push.mode.AlternativePush?
  {
    var point := BacktrackingPoint(|m.tree|, StartOf(m.buffer, token).1, m.Tos().childrenCount, push.mode.replay);
    StackNode(push.nodeType, m.Tos().treeNodeIndex, |m.tree|, push.next, m.Tos().childrenCount,
              Alternative(point, push.mode.fallback), true)
  }

  lemma AlternativeShape(g: Grammar, m: Machine, push: Push, token: Token)
    requires m.stack != [] && CanStart(m.buffer) && push.mode.AlternativePush?
    ensures var counted := m.WithTos(m.Tos().(childrenCount := m.Tos().childrenCount + 1));
            ApplyPush(g, m, push, token, m.Tos().recording)
            == (Machine(counted.stack + [AlternativeNode(m, push, token)], m.tree, StartOf(m.buffer, token).0), true)
  {
    var counted := m.WithTos(m.Tos().(childrenCount := m.Tos().childrenCount + 1));
    var node := AlternativeNode(m, push, token);
    assert (counted.stack + [node.(latestChild := 0)])[|m.stack| := node] == counted.stack + [node];
  }

  lemma AlternativeKeeps(g: Grammar, all: seq<Token>, full: bool, m: Machine, push: Push, token: Token)
    requires Ready(g, all, full, m, 1) && AtToken(all, m, token) && PushOk(g, m.Tos().nodeId, push)
    requires push.mode.AlternativePush?
    ensures var (m', recording) := ApplyPush(g, m, push, token, m.Tos().recording);
            PushKept(g, all, full, m, push, token, m', recording)
  {
    var tos, top := m.Tos(), |m.stack|;
    var counted := m.WithTos(tos.(childrenCount := tos.childrenCount + 1));
    CountKeeps(g, all, full, m);
    assert NodeOk(g, m, top - 1) && Placed(m, top - 1);
    StartAtCursor(all, m.buffer, token);
    AlternativeShape(g, m, push, token);
    var node := AlternativeNode(m, push, token);
    var m' := Machine(counted.stack + [node], m.tree, StartOf(m.buffer, token).0);
    assert m.tree[..|m.tree|] == m.tree;
    assert PointOk(all, full, m'.tree, m'.buffer, node.mode.point);
    PushedOnTop(g, all, full, counted, node, m');
  }

  lemma PushKeeps(g: Grammar, all: seq<Token>, full: bool, m: Machine, push: Push, token: Token)
    requires Ready(g, all, full, m, 1) && AtToken(all, m, token) && PushOk(g, m.Tos().nodeId, push)
    ensures var (m', recording) := ApplyPush(g, m, push, token, m.Tos().recording);
            PushKept(g, all, full, m, push, token, m', recording)
  {
    match push.mode
    case LLPush => OpenKeeps(g, all, full, m, push, token);
    case AlternativePush(_, _) => AlternativeKeeps(g, all, full, m, push, token);
  }

  lemma {:induction false} PushesKeep(g: Grammar, all: seq<Token>, full: bool, m: Machine, pushes: seq<Push>,
                                      token: Token)
    requires Ready(g, all, full, m, 1) && AtToken(all, m, token) && PushesOk(g, m.Tos().nodeId, pushes)
    ensures var m' := ApplyPushes(g, m, pushes, token, m.Tos().recording);
            Ready(g, all, full, m', 1) && AtToken(all, m', token) && Cursor(all, m'.buffer) == Cursor(all, m.buffer)
    decreases |pushes|
  {
    if pushes != [] {
      PushKeeps(g, all, full, m, pushes[0], token);
      var (m', recording) := ApplyPush(g, m, pushes[0], token, m.Tos().recording);
      PushesKeep(g, all, full, m', pushes[1..], token);
    }
  }

  /** Appending nodes to the tree keeps all that lies before. */
  lemma Appended(g: Grammar, all: seq<Token>, full: bool, m: Machine, nodes: seq<InternalNode>)
    requires StackOk(g, m) && PointsOk(all, full, m)
    ensures var m' := m.(tree := m.tree + nodes); StackOk(g, m') && PointsOk(all, full, m')
  {
    var m' := m.(tree := m.tree + nodes);
    forall j | 0 <= j < |m.stack|
      ensures NodeOk(g, m', j)
    {
      assert NodeOk(g, m, j);
    }
    forall j, k | 0 <= j < k < |m.stack|
      ensures PairOk(m', j, k)
    {
      assert PairOk(m, j, k);
    }
    forall j | 0 <= j < |m.stack| && HasPoint(m'.stack[j])
      ensures PointOk(all, full, m'.tree, m'.buffer, m'.stack[j].mode.point)
    {
      var point := m.stack[j].mode.point;
      assert PointOk(all, full, m.tree, m.buffer, point);
      assert m'.tree[..point.treeNodeCount] == m.tree[..point.treeNodeCount];
    }
  }

  lemma TokenLeaf(all: seq<Token>, full: bool, tree: seq<InternalNode>, buffer: Buffer, token: Token,
                  leaf: InternalNode)
    requires Consistent(all, buffer) && CanMark(all, buffer, token) && leaf.IsLeaf()
    requires leaf.startIndex == token.startIndex && leaf.length == token.length
    requires Cursor(all, buffer) <= |all| && Leaves(tree, full) == Keys(all[..Cursor(all, buffer) - 1], full)
    ensures Leaves(tree + [leaf], full) == Keys(all[..Cursor(all, buffer)], full)
  {
    LeavesAppend(tree, leaf, full);
    KeysAppend(all, Cursor(all, buffer) - 1, full);
  }

  lemma LeafKeeps(g: Grammar, all: seq<Token>, full: bool, m: Machine, type_: nat, token: Token)
    requires Ready(g, all, full, m, 1) && AtToken(all, m, token) && type_ < NODE_START
    ensures Inv(g, all, full, AddLeaf(m, type_, token), 0)
  {
    var leaf := InternalNode(0, type_, token.startIndex, token.length);
    TokenLeaf(all, full, m.tree, m.buffer, token, leaf);
    Appended(g, all, full, m, [leaf]);
    var m1 := m.(tree := m.tree + [leaf]);
    assert NodeOk(g, m, |m.stack| - 1);
    TopRewritten(g, all, full, m1, m.Tos().(childrenCount := m.Tos().childrenCount + 1), 0);
    var m' := AddLeaf(m, type_, token);
    forall j | 0 <= j < |m.stack|
      ensures Placed(m', j)
    {
      assert NodeOk(g, m, j);
    }
  }

  /** Applying a plan puts the token into the tree and, if no node is inserted
      below a saved count, keeps every saved point. */
  lemma PlanKeeps(g: Grammar, all: seq<Token>, full: bool, m: Machine, plan: Plan, token: Token)
    requires TablesOk(g) && Ready(g, all, full, m, 1) && AtToken(all, m, token)
    requires PlanApplies(g, m, plan) && PlanOk(g, m.Tos().nodeId, plan)
    requires KeepsPoints(g, m, plan) && (full ==> PlanIsSafe(m, plan))
    ensures Inv(g, all, full, ApplyPlan(g, m, plan, token), 0)
  {
    assert !g.Info(plan.next).isNegativeLookahead;
    var prepared := Prepare(g, m, plan);
    PrepareKeeps(g, all, full, m, plan, 1);
    PrepareShape(g, m, plan);
    PushesKeep(g, all, full, prepared, plan.pushes, token);
    LeafKeeps(g, all, full, ApplyPushes(g, prepared, plan.pushes, token, m.Tos().recording), plan.type_, token);
  }

  // ----- the condition is exact

  lemma {:induction false} PushesExtend(g: Grammar, m: Machine, pushes: seq<Push>, token: Token, recording: bool)
    requires m.stack != [] && CanStart(m.buffer)
    ensures var m' := ApplyPushes(g, m, pushes, token, recording);
            && |m.tree| <= |m'.tree| && m'.tree[..|m.tree|] == m.tree
            && (m.buffer.isRecording && m.buffer.tokens != [] ==> m'.buffer == m.buffer)
    decreases |pushes|
  {
    if pushes == [] {
      assert m.tree[..|m.tree|] == m.tree;
    } else {
      var (m1, recording1) := ApplyPush(g, m, pushes[0], token, recording);
      assert |m.tree| <= |m1.tree| && m1.tree[..|m.tree|] == m.tree;
      PushesExtend(g, m1, pushes[1..], token, recording1);
      var m' := ApplyPushes(g, m, pushes, token, recording);
      assert m'.tree[..|m.tree|] == m'.tree[..|m1.tree|][..|m.tree|];
    }
  }

  /** What a plan that inserts a node leaves of the tree before it. */
  lemma PreparedInserts(g: Grammar, m: Machine, plan: Plan) returns (tree: seq<InternalNode>, n: InternalNode)
    requires PlanApplies(g, m, plan) && Inserts(g, m, plan) && m.Tos().nodeId >= NODE_START
    ensures SameLeaves(m.tree, tree, false) && !n.IsLeaf() && m.Tos().treeNodeIndex < |tree|
    ensures SameLeaves(Insert(tree, m.Tos().treeNodeIndex, n), Prepare(g, m, plan).tree, false)
  {
    var k := m.Tos().treeNodeIndex;
    var moved := m.WithTos(m.Tos().(state := plan.next));
    tree := if NeedsNode(g, m, plan) then m.tree else UpdatePosition(m.tree, m.Tos());
    UpdateKeepsLeaves(m.tree, m.Tos(), false);
    n := InternalNode(0, m.Tos().nodeId, tree[k].startIndex, 0);
    if NeedsNode(g, m, plan) {
      LinkKeepsLeaves(InsertNode(moved), false);
    } else {
      LinkKeepsLeaves(WrapInItself(moved), false);
    }
  }

  /** The first nodes of the tree once a node is inserted below `count`. */
  lemma PreparedFront(g: Grammar, all: seq<Token>, m: Machine, plan: Plan, point: BacktrackingPoint)
    requires PlanApplies(g, m, plan) && Inserts(g, m, plan) && m.Tos().nodeId >= NODE_START
    requires PointOk(all, false, m.tree, m.buffer, point) && !KeepsPoint(m.tree, m.Tos().treeNodeIndex, point)
    ensures point.treeNodeCount <= |Prepare(g, m, plan).tree|
    ensures !PointOk(all, false, Prepare(g, m, plan).tree, m.buffer, point)
  {
    var k, count := m.Tos().treeNodeIndex, point.treeNodeCount;
    var tree, n := PreparedInserts(g, m, plan);
    SameLeavesSame(m.tree[..count], tree[..count], false);
    assert SameLeaf(m.tree[count - 1], tree[count - 1], false);
    InsertedPoint(all, false, tree, m.buffer, point, k, n);
    SameLeavesSame(Insert(tree, k, n)[..count], Prepare(g, m, plan).tree[..count], false);
  }

  /** A saved point that the condition does not hold for is lost. */
  lemma PointLost(g: Grammar, all: seq<Token>, m: Machine, plan: Plan, token: Token, point: BacktrackingPoint)
    requires PlanApplies(g, m, plan) && Inserts(g, m, plan) && m.Tos().nodeId >= NODE_START
    requires !g.Info(plan.next).isNegativeLookahead && m.buffer.isRecording && m.buffer.tokens != []
    requires PointOk(all, false, m.tree, m.buffer, point) && !KeepsPoint(m.tree, m.Tos().treeNodeIndex, point)
    ensures var m' := ApplyPlan(g, m, plan, token); !PointOk(all, false, m'.tree, m'.buffer, point)
  {
    var count := point.treeNodeCount;
    var prepared, m' := Prepare(g, m, plan), ApplyPlan(g, m, plan, token);
    PreparedFront(g, all, m, plan, point);
    PrepareShape(g, m, plan);
    PushesExtend(g, prepared, plan.pushes, token, m.Tos().recording);
    var pushed := ApplyPushes(g, prepared, plan.pushes, token, m.Tos().recording);
    FrontStays(prepared.tree, pushed.tree, m'.tree, count);
  }

  lemma FrontStays<T>(a: seq<T>, b: seq<T>, c: seq<T>, count: nat)
    requires |a| <= |b| <= |c| && b[..|a|] == a && c[..|b|] == b && count <= |a|
    ensures c[..count] == a[..count]
  {
    assert c[..count] == c[..|b|][..count] == b[..|a|][..count];
  }

  /** Applying a plan keeps the saved points of the stack exactly when it inserts
      no node below one that ends in a leaf. */
  lemma PlanKeepsExactly(g: Grammar, all: seq<Token>, m: Machine, plan: Plan, token: Token)
    requires TablesOk(g) && Ready(g, all, false, m, 1) && AtToken(all, m, token)
    requires PlanApplies(g, m, plan) && PlanOk(g, m.Tos().nodeId, plan)
    ensures PointsOk(all, false, ApplyPlan(g, m, plan, token)) <==> KeepsPoints(g, m, plan)
  {
    if KeepsPoints(g, m, plan) {
      PlanKeeps(g, all, false, m, plan, token);
    } else {
      PlanLosesPoint(g, all, m, plan, token);
    }
  }

  lemma PlanLosesPoint(g: Grammar, all: seq<Token>, m: Machine, plan: Plan, token: Token)
    requires TablesOk(g) && Ready(g, all, false, m, 1) && AtToken(all, m, token)
    requires PlanApplies(g, m, plan) && PlanOk(g, m.Tos().nodeId, plan) && !KeepsPoints(g, m, plan)
    ensures !PointsOk(all, false, ApplyPlan(g, m, plan, token))
  {
    var top := |m.stack| - 1;
    var j :| 0 <= j < (if plan.mode == LeftRecursive then top else top + 1) && !m.stack[j].mode.Plain?
             && !KeepsPoint(m.tree, m.Tos().treeNodeIndex, m.stack[j].mode.point);
    assert NodeOk(g, m, j) && NodeOk(g, m, top);
    assert PointOk(all, false, m.tree, m.buffer, m.stack[j].mode.point);
    PointLost(g, all, m, plan, token, m.stack[j].mode.point);
    SavedStays(g, m, plan, token, j);
  }

  /** The stack nodes that were there keep their points. */
  lemma SavedStays(g: Grammar, m: Machine, plan: Plan, token: Token, j: nat)
    requires PlanApplies(g, m, plan) && !g.Info(plan.next).isNegativeLookahead
    requires j < (if plan.mode == LeftRecursive then |m.stack| - 1 else |m.stack|)
    ensures var m' := ApplyPlan(g, m, plan, token); j < |m'.stack| && m'.stack[j].mode == m.stack[j].mode
  {
    var prepared := Prepare(g, m, plan);
    PrepareShape(g, m, plan);
    assert prepared.stack[j].mode == m.stack[j].mode;
    ModesStay(g, prepared, plan.pushes, token, m.Tos().recording, j);
  }

  lemma {:induction false} ModesStay(g: Grammar, m: Machine, pushes: seq<Push>, token: Token, recording: bool, j: nat)
    requires j < |m.stack| && CanStart(m.buffer)
    ensures var m' := ApplyPushes(g, m, pushes, token, recording); j < |m'.stack| && m'.stack[j].mode == m.stack[j].mode
    decreases |pushes|
  {
    if pushes != [] {
      var (m1, recording1) := ApplyPush(g, m, pushes[0], token, recording);
      ModesStay(g, m1, pushes[1..], token, recording1, j);
    }
  }

  // ----- the other steps

  /** A buffer that moved within its record keeps the points. */
  lemma BufferMoved(g: Grammar, all: seq<Token>, full: bool, m: Machine, buffer: Buffer)
    requires StackOk(g, m) && PointsOk(all, full, m)
    requires m.buffer.isRecording ==> buffer.isRecording && Base(all, buffer) == Base(all, m.buffer)
                                      && |m.buffer.tokens| <= |buffer.tokens|
    ensures StackOk(g, m.(buffer := buffer)) && PointsOk(all, full, m.(buffer := buffer))
  {
    var m' := m.(buffer := buffer);
    forall j | 0 <= j < |m.stack|
      ensures NodeOk(g, m', j)
    {
      assert NodeOk(g, m, j);
    }
    forall j, k | 0 <= j < k < |m.stack|
      ensures PairOk(m', j, k)
    {
      assert PairOk(m, j, k);
    }
    forall j | 0 <= j < |m.stack| && HasPoint(m.stack[j])
      ensures PointOk(all, full, m.tree, buffer, m.stack[j].mode.point)
    {
      assert NodeOk(g, m, j) && PointOk(all, full, m.tree, m.buffer, m.stack[j].mode.point);
    }
  }

  lemma ReadKeeps(g: Grammar, all: seq<Token>, full: bool, m: Machine)
    requires Inv(g, all, full, m, 0)
    ensures var (buffer, token) := NextOf(m.buffer);
            var m' := m.(buffer := buffer);
            if token.Some? then Inv(g, all, full, m', 1) && CanMark(all, buffer, token.value) && CanStart(buffer)
            else Inv(g, all, full, m', 0)
  {
    var (buffer, token) := NextOf(m.buffer);
    var m' := m.(buffer := buffer);
    NextAtCursor(all, m.buffer);
    if m.buffer.isRecording {
      NextKeepsRecord(all, m.buffer);
    }
    BufferMoved(g, all, full, m, buffer);
    forall j | 0 <= j < |m.stack|
      ensures Placed(m', j)
    {
      assert Placed(m, j);
    }
  }

  /** Recording stops only when no stack node needs it any more. */
  lemma StopKeeps(g: Grammar, all: seq<Token>, full: bool, m: Machine, behind: nat)
    requires Inv(g, all, full, m, behind) && m.stack != [] && !m.Tos().recording
    ensures Inv(g, all, full, m.(buffer := StopOf(m.buffer)), behind)
  {
    var m' := m.(buffer := StopOf(m.buffer));
    var top := |m.stack| - 1;
    forall j | 0 <= j < |m.stack|
      ensures NodeOk(g, m', j) && Placed(m', j) && !HasPoint(m.stack[j])
    {
      assert NodeOk(g, m, j) && Placed(m, j);
      if j < top {
        assert PairOk(m, j, top);
      }
    }
    forall j, k | 0 <= j < k < |m.stack|
      ensures PairOk(m', j, k)
    {
      assert PairOk(m, j, k);
    }
  }

  /** With full keys: ending the top node changes no leaf. */
  predicate EndIsSafe(m: Machine)
    requires m.stack != []
  {
    m.Tos().mode.Plain? ==> UpdateIsSafe(m.tree, m.Tos().treeNodeIndex)
  }

  lemma EndKeeps(g: Grammar, all: seq<Token>, full: bool, m: Machine, behind: nat)
    requires Inv(g, all, full, m, behind) && m.stack != []
    requires full ==> EndIsSafe(m)
    ensures EndOfNode(m).Ok? ==> Inv(g, all, full, EndOfNode(m).value, behind)
  {
    if m.Tos().mode.Plain? {
      if m.Tos().treeNodeIndex < |m.tree| {
        PopKeeps(g, all, full, m, behind);
      }
    } else if |m.stack| > 1 {
      EndAlternativeKeeps(g, all, full, m, behind);
    }
  }

  /** An alternative hands its children to the node below. */
  lemma EndAlternativeKeeps(g: Grammar, all: seq<Token>, full: bool, m: Machine, behind: nat)
    requires Inv(g, all, full, m, behind) && |m.stack| > 1
    ensures var popped := m.(stack := m.stack[..|m.stack| - 1]);
            var ended := popped.WithTos(popped.Tos().(childrenCount := m.Tos().childrenCount,
                                                      latestChild := m.Tos().latestChild));
            Inv(g, all, full, ended, behind)
            && (!ended.Tos().recording ==> Inv(g, all, full, ended.(buffer := StopOf(ended.buffer)), behind))
  {
    var top := |m.stack| - 1;
    PoppedOk(g, all, full, m, behind);
    var popped := m.(stack := m.stack[..top]);
    assert Placed(m, top - 1) && Placed(m, top) && PairOk(m, top - 1, top) && NodeOk(g, popped, top - 1);
    var tos := popped.Tos().(childrenCount := m.Tos().childrenCount, latestChild := m.Tos().latestChild);
    TopRewritten(g, all, full, popped, tos, behind);
    var ended := popped.WithTos(tos);
    if !tos.recording {
      StopKeeps(g, all, full, ended, behind);
    }
  }

  lemma ErrorNodeKeeps(g: Grammar, all: seq<Token>, full: bool, m: Machine, nonterminal: nat, token: Token)
    requires Inv(g, all, full, m, 1) && AtToken(all, m, token)
    requires nonterminal >= NODE_START && token.transition < NODE_START
    ensures Inv(g, all, full, AddErrorNode(m, nonterminal, token), 0)
  {
    LinkKeeps(g, all, full, m, 1);
    var linked := LinkLatestChild(m);
    var node := InternalNode(0, SetErrorRecoveryBit(nonterminal), token.startIndex, token.length);
    var leaf := InternalNode(0, SetErrorRecoveryBit(token.transition), token.startIndex, token.length);
    LeavesAppend(linked.tree, node, full);
    Appended(g, all, full, linked, [node]);
    TokenLeaf(all, full, linked.tree + [node], m.buffer, token, leaf);
    Appended(g, all, full, linked.(tree := linked.tree + [node]), [leaf]);
    var m' := AddErrorNode(m, nonterminal, token);
    forall j | 0 <= j < |m.stack|
      ensures Placed(m', j)
    {
      assert Placed(linked, j);
    }
  }

  /** With full keys: no popped node overwrites the length of an earlier leaf. */
  predicate PopsAreSafe(m: Machine, i: nat) {
    forall j :: i <= j < |m.stack| ==> UpdateIsSafe(m.tree, m.stack[j].treeNodeIndex)
  }

  /** What is safe stays safe while no leaf changes. */
  lemma StaysSafe(a: seq<InternalNode>, b: seq<InternalNode>, x: nat)
    requires SameLeaves(a, b, true) && TreeEnds(a) && UpdateIsSafe(a, x)
    ensures UpdateIsSafe(b, x)
  {
    if x < |b| && b[x].IsLeaf() {
      assert SameLeaf(a[x], b[x], true) && SameLeaf(a[|a| - 1], b[|b| - 1], true);
    }
  }

  lemma {:induction false} PopFailedKeeps(g: Grammar, all: seq<Token>, full: bool, m: Machine, i: nat, behind: nat)
    requires Inv(g, all, full, m, behind) && (full ==> PopsAreSafe(m, i))
    ensures PopFailed(m, i).Ok? ==> Inv(g, all, full, PopFailed(m, i).value, behind)
    decreases |m.stack|
  {
    if |m.stack| > i && m.Tos().treeNodeIndex < |m.tree| {
      PopKeeps(g, all, full, m, behind);
      var popped, k := PopNormal(m), m.Tos().treeNodeIndex;
      var marked := popped.tree[k].(type_ := SetErrorRecoveryBit(popped.tree[k].type_));
      var tree := popped.tree[k := marked];
      TreeRewritten(g, all, full, popped, tree, behind);
      if full {
        UpdateKeepsLeaves(m.tree, m.Tos(), full);
        forall j | i <= j < |popped.stack|
          ensures UpdateIsSafe(tree, popped.stack[j].treeNodeIndex)
        {
          StaysSafe(m.tree, tree, m.stack[j].treeNodeIndex);
        }
      }
      PopFailedKeeps(g, all, full, popped.(tree := tree), i, behind);
    }
  }

  // ----- going back

  lemma StackCut(g: Grammar, all: seq<Token>, full: bool, m: Machine, i: nat)
    requires Inv(g, all, full, m, 0) || Inv(g, all, full, m, 1)
    requires i < |m.stack| && HasPoint(m.stack[i])
    ensures var point := m.stack[i].mode.point;
            var cut := Machine(m.stack[..i + 1], m.tree[..point.treeNodeCount], m.buffer);
            point.treeNodeCount <= |m.tree| && StackOk(g, cut) && PointsOk(all, full, cut)
  {
    var point := m.stack[i].mode.point;
    var cut := Machine(m.stack[..i + 1], m.tree[..point.treeNodeCount], m.buffer);
    assert NodeOk(g, m, i) && PointOk(all, full, m.tree, m.buffer, point);
    forall j | 0 <= j <= i
      ensures NodeOk(g, cut, j)
    {
      assert NodeOk(g, m, j);
      if j < i {
        assert PairOk(m, j, i);
      }
    }
    forall j, k | 0 <= j < k <= i
      ensures PairOk(cut, j, k)
    {
      assert PairOk(m, j, k);
    }
    forall j | 0 <= j <= i && HasPoint(cut.stack[j])
      ensures PointOk(all, full, cut.tree, cut.buffer, cut.stack[j].mode.point)
    {
      var p := m.stack[j].mode.point;
      assert PointOk(all, full, m.tree, m.buffer, p);
      if j < i {
        assert PairOk(m, j, i);
      }
      assert cut.tree[..p.treeNodeCount] == m.tree[..p.treeNodeCount];
    }
  }

  /** The machine as it was at a saved point, but for the count of the top node. */
  function CutBack(m: Machine, i: nat, point: BacktrackingPoint): Machine
    requires i < |m.stack|
  {
    Machine(m.stack[..i + 1], Truncate(m.tree, point.treeNodeCount), NextOf(ResetOf(m.buffer, point.tokenIndex)).0)
  }

  lemma CutBackKeeps(g: Grammar, all: seq<Token>, full: bool, m: Machine, i: nat)
    requires Inv(g, all, full, m, 0) || Inv(g, all, full, m, 1)
    requires i < |m.stack| && HasPoint(m.stack[i])
    ensures var back := CutBack(m, i, m.stack[i].mode.point); StackOk(g, back) && PointsOk(all, full, back)
  {
    var point := m.stack[i].mode.point;
    StackCut(g, all, full, m, i);
    BackAtPoint(g, all, full, m, i);
    var cut := Machine(m.stack[..i + 1], m.tree[..point.treeNodeCount], m.buffer);
    BufferMoved(g, all, full, cut, NextOf(ResetOf(m.buffer, point.tokenIndex)).0);
  }

  lemma ResetKeeps(g: Grammar, all: seq<Token>, full: bool, m: Machine, i: nat)
    requires Inv(g, all, full, m, 0) || Inv(g, all, full, m, 1)
    requires i < |m.stack| && HasPoint(m.stack[i])
    ensures var (m', token) := ResetTo(m, i, m.stack[i].mode.point);
            token.Some? && Ready(g, all, full, m', 1) && AtToken(all, m', token.value) && |m'.stack| == i + 1
  {
    var point := m.stack[i].mode.point;
    var back := CutBack(m, i, point);
    CutBackKeeps(g, all, full, m, i);
    BackAtPoint(g, all, full, m, i);
    assert NodeOk(g, m, i) && PointOk(all, full, m.tree, m.buffer, point);
    Recount(g, all, full, back, point.childrenCount);
    assert ResetTo(m, i, point).0 == back.WithTos(back.Tos().(childrenCount := point.childrenCount));
  }

  lemma Recount(g: Grammar, all: seq<Token>, full: bool, m: Machine, count: nat)
    requires Consistent(all, m.buffer) && 1 <= Cursor(all, m.buffer) <= |all|
    requires Leaves(m.tree, full) == Keys(all[..Cursor(all, m.buffer) - 1], full)
    requires StackOk(g, m) && PointsOk(all, full, m) && m.stack != []
    requires count > 0 ==> m.Tos().treeNodeIndex < |m.tree|
    ensures Ready(g, all, full, m.WithTos(m.Tos().(childrenCount := count)), 1)
  {
    ZeroCount(g, all, full, m);
    var zero := m.WithTos(m.Tos().(childrenCount := 0));
    var node := m.Tos().(childrenCount := count);
    assert NodeOk(g, m, |m.stack| - 1);
    TopRewritten(g, all, full, zero, node, 1);
    assert zero.WithTos(node) == m.WithTos(node);
  }

  /** The token of a saved point comes again. */
  lemma BackAtPoint(g: Grammar, all: seq<Token>, full: bool, m: Machine, i: nat)
    requires Inv(g, all, full, m, 0) || Inv(g, all, full, m, 1)
    requires i < |m.stack| && HasPoint(m.stack[i])
    ensures var point := m.stack[i].mode.point;
            var (buffer, token) := NextOf(ResetOf(m.buffer, point.tokenIndex));
            && token.Some? && Consistent(all, buffer) && CanMark(all, buffer, token.value) && CanStart(buffer)
            && 1 <= Cursor(all, buffer) <= |all|
            && Leaves(m.tree[..point.treeNodeCount], full) == Keys(all[..Cursor(all, buffer) - 1], full)
            && m.buffer.isRecording && buffer.isRecording && Base(all, buffer) == Base(all, m.buffer)
            && |m.buffer.tokens| <= |buffer.tokens|
  {
    var point := m.stack[i].mode.point;
    assert NodeOk(g, m, i) && PointOk(all, full, m.tree, m.buffer, point);
    ResetToMark(all, m.buffer, point.tokenIndex);
    var back := ResetOf(m.buffer, point.tokenIndex);
    NextAtCursor(all, back);
    NextKeepsRecord(all, back);
  }

  lemma ZeroCount(g: Grammar, all: seq<Token>, full: bool, m: Machine)
    requires Consistent(all, m.buffer) && 1 <= Cursor(all, m.buffer) <= |all|
    requires Leaves(m.tree, full) == Keys(all[..Cursor(all, m.buffer) - 1], full)
    requires StackOk(g, m) && PointsOk(all, full, m) && m.stack != []
    ensures Ready(g, all, full, m.WithTos(m.Tos().(childrenCount := 0)), 1)
  {
    var m' := m.WithTos(m.Tos().(childrenCount := 0));
    forall j | 0 <= j < |m.stack|
      ensures NodeOk(g, m', j)
    {
      assert NodeOk(g, m, j);
    }
    forall j, k | 0 <= j < k < |m.stack|
      ensures PairOk(m', j, k)
    {
      assert PairOk(m, j, k);
    }
    forall j | 0 <= j < |m.stack| && HasPoint(m'.stack[j])
      ensures PointOk(all, full, m'.tree, m'.buffer, m'.stack[j].mode.point)
    {
      assert HasPoint(m.stack[j]);
    }
  }

  lemma FallbackReadyOk(g: Grammar, all: seq<Token>, full: bool, m: Machine, i: nat)
    requires Inv(g, all, full, m, 0) || Inv(g, all, full, m, 1)
    requires i < |m.stack| && m.stack[i].mode.Alternative? && m.tree != []
    ensures var (ready, token) := FallbackReady(m, i);
            token.Some? && Ready(g, all, full, ready, 1) && AtToken(all, ready, token.value)
            && ready.Tos().nodeId == m.stack[i].nodeId
  {
    assert NodeOk(g, m, i);
    ResetKeeps(g, all, full, m, i);
    var (reset, token) := ResetTo(m, i, m.stack[i].mode.point);
    var (ready, _) := FallbackReady(m, i);
    assert NodeOk(g, reset, i) && Placed(reset, i);
    TopRewritten(g, all, full, reset, ready.Tos(), 1);
  }

  lemma FallbackKeeps(g: Grammar, all: seq<Token>, full: bool, m: Machine, i: nat)
    requires TablesOk(g) && (Inv(g, all, full, m, 0) || Inv(g, all, full, m, 1))
    requires i < |m.stack| && m.stack[i].mode.Alternative? && m.tree != []
    requires KeepsPoints(g, FallbackReady(m, i).0, m.stack[i].mode.fallbackPlan)
    ensures Fallback(g, m, i).Ok? ==> Inv(g, all, full, Fallback(g, m, i).value, 0)
  {
    var plan := m.stack[i].mode.fallbackPlan;
    assert NodeOk(g, m, i);
    FallbackReadyOk(g, all, full, m, i);
    var (ready, token) := FallbackReady(m, i);
    if PlanApplies(g, ready, plan) {
      PlanKeeps(g, all, full, ready, plan, token.value);
    }
  }

  lemma ReplayReadyOk(g: Grammar, all: seq<Token>, full: bool, m: Machine, i: nat)
    requires Inv(g, all, full, m, 0) || Inv(g, all, full, m, 1)
    requires 0 < i < |m.stack| && m.stack[i].mode.LastAlternative?
    ensures var (ready, token) := ReplayReady(m, i);
            token.Some? && Ready(g, all, full, ready, 1) && AtToken(all, ready, token.value)
            && PlanOk(g, ready.Tos().nodeId, m.stack[i].mode.point.replayPlan)
  {
    ResetKeeps(g, all, full, m, i);
    var (reset, token) := ResetTo(m, i, m.stack[i].mode.point);
    ReplayShape(m, i);
    ReplayReset(g, all, full, reset, token.value);
    assert NodeOk(g, m, i) && PairOk(m, i - 1, i);
  }

  lemma ReplayShape(m: Machine, i: nat)
    requires 0 < i < |m.stack| && m.stack[i].mode.LastAlternative?
    ensures var (reset, token) := ResetTo(m, i, m.stack[i].mode.point);
            var popped := reset.(stack := reset.stack[..|reset.stack| - 1]);
            |reset.stack| == i + 1 && popped.stack != [] && popped.Tos() == m.stack[i - 1]
            && ReplayReady(m, i) == (popped.WithTos(popped.Tos().(childrenCount := 0)), token)
  {
  }

  lemma ReplayReset(g: Grammar, all: seq<Token>, full: bool, reset: Machine, token: Token)
    requires Ready(g, all, full, reset, 1) && AtToken(all, reset, token) && |reset.stack| > 1
    ensures var popped := reset.(stack := reset.stack[..|reset.stack| - 1]);
            var ready := popped.WithTos(popped.Tos().(childrenCount := 0));
            Ready(g, all, full, ready, 1) && AtToken(all, ready, token)
  {
    ReadyPopped(g, all, full, reset);
    ZeroCount(g, all, full, reset.(stack := reset.stack[..|reset.stack| - 1]));
  }

  lemma ReadyPopped(g: Grammar, all: seq<Token>, full: bool, m: Machine)
    requires m.stack != [] && StackOk(g, m) && PointsOk(all, full, m)
    ensures var popped := m.(stack := m.stack[..|m.stack| - 1]); StackOk(g, popped) && PointsOk(all, full, popped)
  {
    var popped := m.(stack := m.stack[..|m.stack| - 1]);
    forall j | 0 <= j < |popped.stack|
      ensures NodeOk(g, popped, j)
    {
      assert NodeOk(g, m, j);
    }
    forall j, k | 0 <= j < k < |popped.stack|
      ensures PairOk(popped, j, k)
    {
      assert PairOk(m, j, k);
    }
    forall j | 0 <= j < |popped.stack| && HasPoint(popped.stack[j])
      ensures PointOk(all, full, popped.tree, popped.buffer, popped.stack[j].mode.point)
    {
      assert HasPoint(m.stack[j]);
    }
  }

  lemma StopUnlessRecordingKeeps(g: Grammar, all: seq<Token>, full: bool, m: Machine)
    requires Inv(g, all, full, m, 0) && m.stack != []
    ensures Inv(g, all, full, StopUnlessRecording(m), 0)
  {
    if !m.Tos().recording {
      StopKeeps(g, all, full, m, 0);
    }
  }

  lemma ReplayKeeps(g: Grammar, all: seq<Token>, full: bool, m: Machine, i: nat)
    requires TablesOk(g) && (Inv(g, all, full, m, 0) || Inv(g, all, full, m, 1))
    requires 0 < i < |m.stack| && m.stack[i].mode.LastAlternative?
    requires KeepsPoints(g, ReplayReady(m, i).0, m.stack[i].mode.point.replayPlan)
    ensures Replay(g, m, i).Ok? ==> Inv(g, all, full, Replay(g, m, i).value, 0)
  {
    if Replay(g, m, i).Ok? {
      ReplayReadyOk(g, all, full, m, i);
      var (ready, token) := ReplayReady(m, i);
      var plan := m.stack[i].mode.point.replayPlan;
      assert NodeOk(g, m, i);
      PlanKeeps(g, all, full, ready, plan, token.value);
      StopUnlessRecordingKeeps(g, all, full, ApplyPlan(g, ready, plan, token.value));
    }
  }

  // ----- whole steps and whole runs

  /** The condition on one way to recover: what is applied anew keeps points. */
  predicate RecoverAtKeeps(g: Grammar, m: Machine, k: nat)
    requires k < |m.stack| && m.tree != []
  {
    var mode := m.stack[k].mode;
    if mode.Alternative? then KeepsPoints(g, FallbackReady(m, k).0, mode.fallbackPlan)
    else if mode.LastAlternative? && FirstWasBetter(m, k) && k > 0 then
      KeepsPoints(g, ReplayReady(m, k).0, mode.point.replayPlan)
    else true
  }

  /** The stack node has a way to deal with an error. */
  predicate CanRecover(g: Grammar, m: Machine, k: nat)
    requires k < |m.stack|
  {
    var node := m.stack[k];
    || node.mode.Alternative? || (node.mode.LastAlternative? && (m.tree == [] || FirstWasBetter(m, k)))
    || node.nodeId in g.recovering
  }

  /** The topmost stack node below `i` that can recover. */
  function Recoverer(g: Grammar, m: Machine, i: nat): nat
    requires i <= |m.stack|
    decreases i
  {
    if i == 0 then 0 else if CanRecover(g, m, i - 1) then i - 1 else Recoverer(g, m, i - 1)
  }

  /** The same for the stack node that does recover. */
  predicate RecoverKeeps(g: Grammar, m: Machine, i: nat)
    requires i <= |m.stack|
    decreases i
  {
    i == 0 || m.tree == []
    || if CanRecover(g, m, i - 1) then RecoverAtKeeps(g, m, i - 1) else RecoverKeeps(g, m, i - 1)
  }

  predicate ErrorKeeps(g: Grammar, m: Machine, hasToken: bool)
    requires m.stack != []
  {
    g.Info(m.Tos().state).isFinal || (hasToken && g.Info(m.Tos().state).errorNode.Some?)
    || RecoverKeeps(g, m, |m.stack|)
  }

  /** The step inserts no tree node below a saved count that ends in a leaf. */
  predicate KeepsSavedPoints(g: Grammar, s: Status) {
    match s
    case Idle(m) =>
      m.stack != [] && NextOf(m.buffer).1.None? ==> ErrorKeeps(g, m.(buffer := NextOf(m.buffer).0), false)
    case Pending(m, token) =>
      m.stack != [] ==>
        var plan := g.Lookup(m.Tos().state, token.transition);
        if plan.Some? then KeepsPoints(g, m, plan.value) else ErrorKeeps(g, m, true)
    case _ => true
  }

  /** The stack node pops what is above it. */
  predicate Pops(m: Machine, k: nat)
    requires k < |m.stack|
  {
    var mode := m.stack[k].mode;
    !mode.Alternative? && (mode.LastAlternative? ==> m.tree != [] && !FirstWasBetter(m, k))
  }

  predicate ErrorKeepsLengths(g: Grammar, m: Machine, hasToken: bool)
    requires m.stack != []
  {
    var k := Recoverer(g, m, |m.stack|);
    (hasToken && g.Info(m.Tos().state).errorNode.Some?) || k >= |m.stack|
    || (CanRecover(g, m, k) && Pops(m, k) ==> PopsAreSafe(m, k))
  }

  /** The nodes that the step pops or wraps are no leaves but ones that end where
      the tree ends. */
  predicate KeepsLengths(g: Grammar, s: Status) {
    match s
    case Idle(m) =>
      m.stack != [] && NextOf(m.buffer).1.None? ==>
        var m' := m.(buffer := NextOf(m.buffer).0);
        if g.Info(m.Tos().state).isFinal then EndIsSafe(m') else ErrorKeepsLengths(g, m', false)
    case Pending(m, token) =>
      m.stack != [] ==>
        var plan := g.Lookup(m.Tos().state, token.transition);
        if plan.Some? then PlanIsSafe(m, plan.value)
        else if g.Info(m.Tos().state).isFinal then EndIsSafe(m)
        else ErrorKeepsLengths(g, m, true)
    case _ => true
  }

  ghost predicate TokensOk(all: seq<Token>) {
    forall i :: 0 <= i < |all| ==> all[i].transition < NODE_START
  }

  /** The leaves of the tree are the tokens up to the cursor, one less while a
      token is being dealt with, and all of them when the parser is done. */
  ghost predicate Conserved(g: Grammar, all: seq<Token>, full: bool, s: Status) {
    match s
    case Idle(m) => Inv(g, all, full, m, 0) && (m.stack == [] ==> Cursor(all, m.buffer) == |all|)
    case Pending(m, token) => Inv(g, all, full, m, 1) && CanMark(all, m.buffer, token) && CanStart(m.buffer)
    case Done(nodes) => Leaves(nodes, full) == Keys(all, full)
    case Panicked => true
  }

  lemma PopFailedShape(m: Machine, i: nat)
    ensures PopFailed(m, i).Ok? ==> PopFailed(m, i).value.buffer == m.buffer
    decreases |m.stack|
  {
    if |m.stack| > i && m.Tos().treeNodeIndex < |m.tree| {
      var popped, k := PopNormal(m), m.Tos().treeNodeIndex;
      var marked := popped.tree[k].(type_ := SetErrorRecoveryBit(popped.tree[k].type_));
      PopFailedShape(popped.(tree := popped.tree[k := marked]), i);
    }
  }

  ghost predicate RecoveredOk(g: Grammar, all: seq<Token>, full: bool, r: Recovery, token: Option<Token>) {
    if r.again then token.Some? && Conserved(g, all, full, Pending(r.machine, token.value))
    else Conserved(g, all, full, Idle(r.machine))
  }

  lemma CanRecoverExactly(g: Grammar, m: Machine, k: nat, hasToken: bool)
    requires k < |m.stack|
    ensures RecoverAt(g, m, k, hasToken).Some? <==> CanRecover(g, m, k)
  {
  }

  lemma {:induction false} WhoRecovers(g: Grammar, m: Machine, i: nat, hasToken: bool)
    requires i <= |m.stack|
    ensures var k := Recoverer(g, m, i);
            Recover(g, m, i, hasToken).Ok? ==>
              k < i && CanRecover(g, m, k) && Some(Recover(g, m, i, hasToken)) == RecoverAt(g, m, k, hasToken)
    decreases i
  {
    if i > 0 {
      RecoverDown(g, m, i - 1, hasToken);
      CanRecoverExactly(g, m, i - 1, hasToken);
      if !CanRecover(g, m, i - 1) {
        WhoRecovers(g, m, i - 1, hasToken);
      }
    }
  }

  lemma {:induction false} RecovererKeeps(g: Grammar, m: Machine, i: nat)
    requires i <= |m.stack| && RecoverKeeps(g, m, i)
    ensures m.tree == [] || Recoverer(g, m, i) >= i || !CanRecover(g, m, Recoverer(g, m, i))
            || RecoverAtKeeps(g, m, Recoverer(g, m, i))
    decreases i
  {
    if i > 0 && !CanRecover(g, m, i - 1) && m.tree != [] {
      RecovererKeeps(g, m, i - 1);
    }
  }

  lemma RecoverAtConserves(g: Grammar, all: seq<Token>, full: bool, m: Machine, k: nat, token: Option<Token>)
    requires TablesOk(g) && k < |m.stack| && (m.tree == [] || RecoverAtKeeps(g, m, k))
    requires full && Pops(m, k) ==> PopsAreSafe(m, k)
    requires Inv(g, all, full, m, if token.Some? then 1 else 0)
    requires token.Some? ==> CanMark(all, m.buffer, token.value) && CanStart(m.buffer)
    requires token.None? ==> Cursor(all, m.buffer) == |all|
    requires RecoverAt(g, m, k, token.Some?).Some?
    ensures var r := RecoverAt(g, m, k, token.Some?).value;
            r.Ok? ==> RecoveredOk(g, all, full, r.value, token)
  {
    var node := m.stack[k];
    if node.mode.Alternative? {
      if m.tree != [] {
        FallbackConserves(g, all, full, m, k, token);
      }
    } else if node.mode.LastAlternative? && m.tree != [] && FirstWasBetter(m, k) {
      if k > 0 {
        ReplayConserves(g, all, full, m, k, token);
      }
    } else {
      PopFailedConserves(g, all, full, m, k, token);
    }
  }

  lemma FallbackConserves(g: Grammar, all: seq<Token>, full: bool, m: Machine, k: nat, token: Option<Token>)
    requires TablesOk(g) && (Inv(g, all, full, m, 0) || Inv(g, all, full, m, 1))
    requires k < |m.stack| && m.stack[k].mode.Alternative? && m.tree != []
    requires KeepsPoints(g, FallbackReady(m, k).0, m.stack[k].mode.fallbackPlan)
    ensures var r := Recovered(Fallback(g, m, k), false); r.Ok? ==> RecoveredOk(g, all, full, r.value, token)
  {
    FallbackKeeps(g, all, full, m, k);
    assert Fallback(g, m, k).Ok? ==> Fallback(g, m, k).value.stack != [];
  }

  lemma ReplayConserves(g: Grammar, all: seq<Token>, full: bool, m: Machine, k: nat, token: Option<Token>)
    requires TablesOk(g) && (Inv(g, all, full, m, 0) || Inv(g, all, full, m, 1))
    requires 0 < k < |m.stack| && m.stack[k].mode.LastAlternative?
    requires KeepsPoints(g, ReplayReady(m, k).0, m.stack[k].mode.point.replayPlan)
    ensures var r := Recovered(Replay(g, m, k), false); r.Ok? ==> RecoveredOk(g, all, full, r.value, token)
  {
    ReplayKeeps(g, all, full, m, k);
    assert Replay(g, m, k).Ok? ==> Replay(g, m, k).value.stack != [];
  }

  lemma PopFailedConserves(g: Grammar, all: seq<Token>, full: bool, m: Machine, k: nat, token: Option<Token>)
    requires full ==> PopsAreSafe(m, k)
    requires Inv(g, all, full, m, if token.Some? then 1 else 0)
    requires token.Some? ==> CanMark(all, m.buffer, token.value) && CanStart(m.buffer)
    requires token.None? ==> Cursor(all, m.buffer) == |all|
    ensures var r := Recovered(PopFailed(m, k), token.Some?); r.Ok? ==> RecoveredOk(g, all, full, r.value, token)
  {
    PopFailedKeeps(g, all, full, m, k, if token.Some? then 1 else 0);
    PopFailedShape(m, k);
  }

  lemma ErrorRecoveryConserves(g: Grammar, all: seq<Token>, full: bool, m: Machine, token: Option<Token>)
    requires TablesOk(g) && m.stack != [] && !g.Info(m.Tos().state).isFinal && ErrorKeeps(g, m, token.Some?)
    requires full ==> ErrorKeepsLengths(g, m, token.Some?)
    requires Inv(g, all, full, m, if token.Some? then 1 else 0)
    requires token.Some? ==>
               CanMark(all, m.buffer, token.value) && CanStart(m.buffer) && token.value.transition < NODE_START
    requires token.None? ==> Cursor(all, m.buffer) == |all|
    ensures var r := ErrorRecovery(g, m, token);
            r.Ok? ==> RecoveredOk(g, all, full, r.value, token)
  {
    assert NodeOk(g, m, |m.stack| - 1);
    var errorNode := g.Info(m.Tos().state).errorNode;
    if errorNode.Some? && token.Some? {
      ErrorNodeKeeps(g, all, full, m, errorNode.value, token.value);
    } else {
      WhoRecovers(g, m, |m.stack|, token.Some?);
      var k := Recoverer(g, m, |m.stack|);
      if Recover(g, m, |m.stack|, token.Some?).Ok? {
        RecovererKeeps(g, m, |m.stack|);
        RecoverAtConserves(g, all, full, m, k, token);
      }
    }
  }

  lemma IdleConserves(g: Grammar, all: seq<Token>, full: bool, m: Machine)
    requires TablesOk(g) && TokensOk(all) && Conserved(g, all, full, Idle(m))
    requires KeepsSavedPoints(g, Idle(m)) && (full ==> KeepsLengths(g, Idle(m)))
    ensures Conserved(g, all, full, StepIdle(g, m))
  {
    if m.stack == [] {
      assert all[..|all|] == all;
    } else {
      ReadKeeps(g, all, full, m);
      NextAtCursor(all, m.buffer);
      var (buffer, token) := NextOf(m.buffer);
      var m' := m.(buffer := buffer);
      if token.None? {
        if g.Info(m.Tos().state).isFinal {
          EndKeeps(g, all, full, m', 0);
        } else {
          ErrorRecoveryConserves(g, all, full, m', None);
        }
      }
    }
  }

  lemma PendingConserves(g: Grammar, all: seq<Token>, full: bool, m: Machine, token: Token)
    requires TablesOk(g) && TokensOk(all) && Conserved(g, all, full, Pending(m, token))
    requires KeepsSavedPoints(g, Pending(m, token)) && (full ==> KeepsLengths(g, Pending(m, token)))
    ensures Conserved(g, all, full, StepPending(g, m, token))
  {
    if m.stack != [] {
      var top := |m.stack| - 1;
      assert NodeOk(g, m, top);
      var plan := g.Lookup(m.Tos().state, token.transition);
      if plan.Some? {
        assert PlanOk(g, m.Tos().nodeId, plan.value);
        if PlanApplies(g, m, plan.value) {
          PlanKeeps(g, all, full, m, plan.value, token);
        }
      } else if g.Info(m.Tos().state).isFinal {
        EndKeeps(g, all, full, m, 1);
      } else {
        ErrorRecoveryConserves(g, all, full, m, Some(token));
      }
    }
  }

  lemma StartConserves(g: Grammar, all: seq<Token>, full: bool, nodeId: nat)
    requires StateId(nodeId, 0) in g.states && nodeId >= NODE_START
    ensures Conserved(g, all, full, Start(g, nodeId, all))
  {
    var m := Start(g, nodeId, all).machine;
    assert all[..0] == [] && all[|all| - |all|..] == all;
    if m.tree != [] {
      LeavesOfOne(m.tree[0], full);
      assert m.tree == [m.tree[0]];
    }
  }

  /** Every run of the parser, with all its backtracking, replaying and error
      marking, keeps the tokens: after n steps none of which inserts a node below
      a saved count, the leaves are the tokens read, the saved points still mark
      the places they were saved for, and a finished tree has all tokens. */
  lemma {:induction false} RunConserves(g: Grammar, all: seq<Token>, full: bool, s: Status, n: nat)
    requires TablesOk(g) && TokensOk(all) && Conserved(g, all, full, s)
    requires forall k :: 0 <= k < n ==> KeepsSavedPoints(g, Run(g, s, k)) && (full ==> KeepsLengths(g, Run(g, s, k)))
    ensures Conserved(g, all, full, Run(g, s, n))
    decreases n
  {
    if n > 0 {
      assert KeepsSavedPoints(g, Run(g, s, 0)) && (full ==> KeepsLengths(g, Run(g, s, 0)));
      match s {
        case Idle(m) => IdleConserves(g, all, full, m);
        case Pending(m, token) => PendingConserves(g, all, full, m, token);
        case _ =>
      }
      forall k | 0 <= k < n - 1
        ensures KeepsSavedPoints(g, Run(g, Step(g, s), k)) && (full ==> KeepsLengths(g, Run(g, Step(g, s), k)))
      {
        assert Run(g, Step(g, s), k) == Run(g, s, k + 1);
      }
      RunConserves(g, all, full, Step(g, s), n - 1);
    }
  }
}
