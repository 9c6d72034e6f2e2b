/** The condition of `Backtracking` is exact, step by step: a step that does not
    panic keeps the tokens and the saved points if and only if it inserts no node
    below a saved count that ends in a leaf, and, with lengths, gives no popped or
    wrapped leaf another length. */
module ExactConservation {
  import opened Rules
  import opened Trees
  import opened ReplayBuffer
  import opened Parsing
  import opened Backtracking

  // ----- what holds with lengths holds without

  function Erased(keys: seq<(nat, nat)>): seq<(nat, nat)> {
    seq(|keys|, i requires 0 <= i < |keys| => (keys[i].0, 0))
  }

  lemma ErasedJoin(a: seq<(nat, nat)>, b: seq<(nat, nat)>)
    ensures Erased(a + b) == Erased(a) + Erased(b)
  {
  }

  lemma {:induction false} LeavesErased(tree: seq<InternalNode>)
    ensures Leaves(tree, false) == Erased(Leaves(tree, true))
  {
    if tree != [] {
      LeavesErased(tree[1..]);
      if tree[0].IsLeaf() {
        var key := Key(tree[0].startIndex, tree[0].length, true);
        ErasedJoin([key], Leaves(tree[1..], true));
        assert Erased([key]) == [Key(tree[0].startIndex, tree[0].length, false)];
      }
    }
  }

  lemma KeysErased(tokens: seq<Token>)
    ensures Keys(tokens, false) == Erased(Keys(tokens, true))
  {
  }

  lemma ReadyErased(g: Grammar, all: seq<Token>, full: bool, m: Machine)
    requires Ready(g, all, full, m, 1)
    ensures Ready(g, all, false, m, 1)
  {
    if full {
      LeavesErased(m.tree);
      KeysErased(all[..Cursor(all, m.buffer) - 1]);
      PointsErased(all, m);
    }
  }

  lemma PointsErased(all: seq<Token>, m: Machine)
    requires PointsOk(all, true, m)
    ensures PointsOk(all, false, m)
  {
    forall j | 0 <= j < |m.stack| && HasPoint(m.stack[j])
      ensures PointOk(all, false, m.tree, m.buffer, m.stack[j].mode.point)
    {
      var point := m.stack[j].mode.point;
      assert PointOk(all, true, m.tree, m.buffer, point);
      LeavesErased(m.tree[..point.treeNodeCount]);
      KeysErased(Before(all, m.buffer, point));
    }
  }

  lemma InvErased(g: Grammar, all: seq<Token>, full: bool, m: Machine, behind: nat)
    requires Inv(g, all, full, m, behind)
    ensures Inv(g, all, false, m, behind)
  {
    if full {
      LeavesErased(m.tree);
      KeysErased(all[..Cursor(all, m.buffer) - behind]);
      PointsErased(all, m);
    }
  }

  lemma ConservedErased(g: Grammar, all: seq<Token>, full: bool, s: Status)
    requires Conserved(g, all, full, s)
    ensures Conserved(g, all, false, s)
  {
    match s
    case Idle(m) => InvErased(g, all, full, m, 0);
    case Pending(m, _) => InvErased(g, all, full, m, 1);
    case Done(nodes) =>
      if full {
        LeavesErased(nodes);
        KeysErased(all);
      }
    case Panicked =>
  }

  // ----- saved points: the condition is necessary

  lemma FallbackLoses(g: Grammar, all: seq<Token>, m: Machine, k: nat)
    requires TablesOk(g) && (Inv(g, all, false, m, 0) || Inv(g, all, false, m, 1))
    requires k < |m.stack| && m.stack[k].mode.Alternative? && m.tree != []
    requires Fallback(g, m, k).Ok? && !KeepsPoints(g, FallbackReady(m, k).0, m.stack[k].mode.fallbackPlan)
    ensures !PointsOk(all, false, Fallback(g, m, k).value)
  {
    assert NodeOk(g, m, k);
    FallbackReadyOk(g, all, false, m, k);
    var (ready, token) := FallbackReady(m, k);
    PlanLosesPoint(g, all, ready, m.stack[k].mode.fallbackPlan, token.value);
  }

  lemma ReplayLoses(g: Grammar, all: seq<Token>, m: Machine, k: nat)
    requires TablesOk(g) && (Inv(g, all, false, m, 0) || Inv(g, all, false, m, 1))
    requires 0 < k < |m.stack| && m.stack[k].mode.LastAlternative?
    requires Replay(g, m, k).Ok? && !KeepsPoints(g, ReplayReady(m, k).0, m.stack[k].mode.point.replayPlan)
    ensures !PointsOk(all, false, Replay(g, m, k).value)
  {
    ReplayReadyOk(g, all, false, m, k);
    var (ready, token) := ReplayReady(m, k);
    var applied := ApplyPlan(g, ready, m.stack[k].mode.point.replayPlan, token.value);
    PlanLosesPoint(g, all, ready, m.stack[k].mode.point.replayPlan, token.value);
    StopSeesPoints(all, applied);
  }

  /** Whether the buffer records makes no difference to what a point means. */
  lemma StopSeesPoints(all: seq<Token>, m: Machine)
    requires m.stack != []
    ensures PointsOk(all, false, StopUnlessRecording(m)) ==> PointsOk(all, false, m)
  {
    var stopped := StopUnlessRecording(m);
    if PointsOk(all, false, stopped) {
      forall j | 0 <= j < |m.stack| && HasPoint(m.stack[j])
        ensures PointOk(all, false, m.tree, m.buffer, m.stack[j].mode.point)
      {
        assert PointOk(all, false, stopped.tree, stopped.buffer, stopped.stack[j].mode.point);
      }
    }
  }

  lemma {:induction false} RecovererLoses(g: Grammar, m: Machine, i: nat)
    requires i <= |m.stack| && !RecoverKeeps(g, m, i)
    ensures var k := Recoverer(g, m, i); m.tree != [] && k < i && CanRecover(g, m, k) && !RecoverAtKeeps(g, m, k)
    decreases i
  {
    if !CanRecover(g, m, i - 1) {
      RecovererLoses(g, m, i - 1);
    }
  }

  lemma ErrorLoses(g: Grammar, all: seq<Token>, m: Machine, token: Option<Token>)
    requires TablesOk(g) && (Inv(g, all, false, m, 0) || Inv(g, all, false, m, 1))
    requires m.stack != [] && !ErrorKeeps(g, m, token.Some?) && ErrorRecovery(g, m, token).Ok?
    ensures !PointsOk(all, false, ErrorRecovery(g, m, token).value.machine)
    ensures !ErrorRecovery(g, m, token).value.again
  {
    RecovererLoses(g, m, |m.stack|);
    WhoRecovers(g, m, |m.stack|, token.Some?);
    var k := Recoverer(g, m, |m.stack|);
    if m.stack[k].mode.Alternative? {
      FallbackLoses(g, all, m, k);
    } else {
      ReplayLoses(g, all, m, k);
    }
  }

  lemma PointsNeeded(g: Grammar, all: seq<Token>, s: Status)
    requires TablesOk(g) && Conserved(g, all, false, s) && !KeepsSavedPoints(g, s) && !Step(g, s).Panicked?
    ensures !Conserved(g, all, false, Step(g, s))
  {
    match s
    case Idle(m) =>
      ReadKeeps(g, all, false, m);
      ErrorLoses(g, all, m.(buffer := NextOf(m.buffer).0), None);
    case Pending(m, token) =>
      assert NodeOk(g, m, |m.stack| - 1);
      var plan := g.Lookup(m.Tos().state, token.transition);
      if plan.Some? {
        PlanLosesPoint(g, all, m, plan.value, token);
      } else {
        ErrorLoses(g, all, m, Some(token));
      }
  }

  // ----- lengths: the condition is necessary

  /** Where only lengths may differ, the leaves tell whether any does. */
  lemma {:induction false} SameLeavesExactly(a: seq<InternalNode>, b: seq<InternalNode>)
    requires SameLeaves(a, b, false)
    ensures Leaves(a, true) == Leaves(b, true) <==> SameLeaves(a, b, true)
  {
    if SameLeaves(a, b, true) {
      SameLeavesSame(a, b, true);
    } else {
      LengthsDiffer(a, b);
    }
  }

  lemma FirstLeafAside(tree: seq<InternalNode>)
    requires tree != []
    ensures Leaves(tree[1..], true) == if tree[0].IsLeaf() then Leaves(tree, true)[1..] else Leaves(tree, true)
  {
  }

  lemma {:induction false} LengthsDiffer(a: seq<InternalNode>, b: seq<InternalNode>)
    requires SameLeaves(a, b, false) && !SameLeaves(a, b, true)
    ensures Leaves(a, true) != Leaves(b, true)
  {
    assert a != [] && SameLeaf(a[0], b[0], false);
    if SameLeaf(a[0], b[0], true) {
      var i: nat :| i < |a| && !SameLeaf(a[i], b[i], true);
      assert a[1..][i - 1] == a[i] && b[1..][i - 1] == b[i];
      LengthsDiffer(a[1..], b[1..]);
      FirstLeafAside(a);
      FirstLeafAside(b);
    } else {
      assert Leaves(a, true)[0] == Key(a[0].startIndex, a[0].length, true);
      assert Leaves(b, true)[0] == Key(b[0].startIndex, b[0].length, true);
    }
  }

  /** Leaves that are tokens are no longer than tokens are. */
  lemma {:induction false} LeafIsShort(tree: seq<InternalNode>, tokens: seq<Token>, k: nat)
    requires Leaves(tree, true) == Keys(tokens, true) && Short(tokens) && k < |tree| && tree[k].IsLeaf()
    ensures tree[k].length < 0x1_0000_0000
  {
    LeavesSplit(tree, k, true);
    assert tree[k..][0] == tree[k];
    var i := |Leaves(tree[..k], true)|;
    assert Leaves(tree, true)[i] == Key(tree[k].startIndex, tree[k].length, true);
    assert Keys(tokens, true)[i] == Key(tokens[i].startIndex, tokens[i].length, true);
  }

  lemma UpdateIsExact(tree: seq<InternalNode>, node: StackNode)
    requires node.treeNodeIndex < |tree|
    ensures SameLeaves(tree, UpdatePosition(tree, node), false)
    ensures Leaves(UpdatePosition(tree, node), true) == Leaves(tree, true) <==> UpdateIsSafe(tree, node.treeNodeIndex)
  {
    UpdateKeepsLeaves(tree, node, false);
    SameLeavesExactly(tree, UpdatePosition(tree, node));
    if SameLeaves(tree, UpdatePosition(tree, node), true) {
      var k := node.treeNodeIndex;
      assert SameLeaf(tree[k], UpdatePosition(tree, node)[k], true);
    } else {
      if UpdateIsSafe(tree, node.treeNodeIndex) {
        UpdateKeepsLeaves(tree, node, true);
      }
    }
  }

  // The nodes popped after an error all get the end of the last leaf.

  function PopMarked(m: Machine): Machine
    requires m.stack != [] && m.Tos().treeNodeIndex < |m.tree|
  {
    var popped, k := PopNormal(m), m.Tos().treeNodeIndex;
    popped.(tree := popped.tree[k := popped.tree[k].(type_ := SetErrorRecoveryBit(popped.tree[k].type_))])
  }

  /** The last node of the tree is a leaf of a 32-bit length. */
  ghost predicate EndsShort(tree: seq<InternalNode>) {
    tree != [] && tree[|tree| - 1].IsLeaf() && tree[|tree| - 1].length < 0x1_0000_0000
  }

  /** The length that the leaf at `x` has when it ends where the tree ends. */
  function LengthToEnd(tree: seq<InternalNode>, x: nat): nat
    requires x < |tree|
  {
    Minus32(tree[|tree| - 1].EndIndex(), tree[x].startIndex)
  }

  lemma PopMarkedShape(m: Machine, x: nat)
    requires m.stack != [] && m.Tos().treeNodeIndex < |m.tree| && EndsShort(m.tree) && x < |m.tree|
             && m.tree[x].IsLeaf()
    ensures var m' := PopMarked(m);
            && |m'.tree| == |m.tree| && EndsShort(m'.tree) && m'.tree[x].IsLeaf()
            && m'.tree[x].startIndex == m.tree[x].startIndex && LengthToEnd(m'.tree, x) == LengthToEnd(m.tree, x)
            && m'.tree[x].length == if m.Tos().treeNodeIndex == x then LengthToEnd(m.tree, x) else m.tree[x].length
  {
  }

  lemma {:induction false} StaysAtEnd(m: Machine, i: nat, x: nat)
    requires PopFailed(m, i).Ok? && EndsShort(m.tree) && x < |m.tree| && m.tree[x].IsLeaf()
    requires m.tree[x].length == LengthToEnd(m.tree, x)
    ensures var tree := PopFailed(m, i).value.tree;
            |tree| == |m.tree| && tree[x].IsLeaf() && tree[x].length == LengthToEnd(m.tree, x)
    decreases |m.stack|
  {
    if |m.stack| > i {
      PopMarkedShape(m, x);
      StaysAtEnd(PopMarked(m), i, x);
    }
  }

  lemma {:induction false} PoppedGoesToEnd(m: Machine, i: nat, j: nat, x: nat)
    requires PopFailed(m, i).Ok? && EndsShort(m.tree) && i <= j < |m.stack|
    requires x == m.stack[j].treeNodeIndex < |m.tree| && m.tree[x].IsLeaf()
    ensures var tree := PopFailed(m, i).value.tree;
            |tree| == |m.tree| && tree[x].IsLeaf() && tree[x].length == LengthToEnd(m.tree, x)
    decreases |m.stack|
  {
    PopMarkedShape(m, x);
    if j == |m.stack| - 1 {
      StaysAtEnd(PopMarked(m), i, x);
    } else {
      PoppedGoesToEnd(PopMarked(m), i, j, x);
    }
  }

  lemma {:induction false} PopFailedSame(m: Machine, i: nat)
    requires PopFailed(m, i).Ok?
    ensures SameLeaves(m.tree, PopFailed(m, i).value.tree, false)
    decreases |m.stack|
  {
    if |m.stack| > i {
      UpdateKeepsLeaves(m.tree, m.Tos(), false);
      PopFailedSame(PopMarked(m), i);
      SameLeavesChain(m.tree, PopMarked(m).tree, PopFailed(m, i).value.tree, false);
    }
  }

  lemma SameLeavesChain(a: seq<InternalNode>, b: seq<InternalNode>, c: seq<InternalNode>, full: bool)
    requires SameLeaves(a, b, full) && SameLeaves(b, c, full)
    ensures SameLeaves(a, c, full)
  {
    forall i | 0 <= i < |a|
      ensures SameLeaf(a[i], c[i], full)
    {
      assert SameLeaf(a[i], b[i], full) && SameLeaf(b[i], c[i], full);
    }
  }

  lemma PopFailedLoses(all: seq<Token>, m: Machine, i: nat, tokens: seq<Token>)
    requires PopFailed(m, i).Ok? && !PopsAreSafe(m, i) && TreeEnds(m.tree)
    requires Leaves(m.tree, true) == Keys(tokens, true) && Short(tokens)
    ensures Leaves(PopFailed(m, i).value.tree, true) != Keys(tokens, true)
  {
    var j :| i <= j < |m.stack| && !UpdateIsSafe(m.tree, m.stack[j].treeNodeIndex);
    var x := m.stack[j].treeNodeIndex;
    LeafIsShort(m.tree, tokens, |m.tree| - 1);
    PoppedGoesToEnd(m, i, j, x);
    PopFailedSame(m, i);
    var tree := PopFailed(m, i).value.tree;
    assert !SameLeaf(m.tree[x], tree[x], true);
    SameLeavesExactly(m.tree, tree);
  }

  // A plan with left recursion gives the node that it wraps its length.

  lemma {:induction false} PushesAddNoLeaves(g: Grammar, m: Machine, rule: nat, pushes: seq<Push>, token: Token,
                                             recording: bool)
    requires m.stack != [] && CanStart(m.buffer) && PushesOk(g, rule, pushes)
    ensures Leaves(ApplyPushes(g, m, pushes, token, recording).tree, true) == Leaves(m.tree, true)
    decreases |pushes|
  {
    if pushes != [] {
      var (m', recording') := ApplyPush(g, m, pushes[0], token, recording);
      if m'.tree != m.tree {
        LeavesAppend(m.tree, InternalNode(0, pushes[0].nodeType, token.startIndex, 0), true);
      }
      PushesAddNoLeaves(g, m', pushes[0].nodeType, pushes[1..], token, recording');
    }
  }

  lemma WrappedLeaves(g: Grammar, m: Machine, plan: Plan)
    requires PlanApplies(g, m, plan) && plan.mode == LeftRecursive && m.Tos().nodeId >= NODE_START
    ensures Leaves(Prepare(g, m, plan).tree, true) == Leaves(UpdatePosition(m.tree, m.Tos()), true)
  {
    var k, tree := m.Tos().treeNodeIndex, UpdatePosition(m.tree, m.Tos());
    var moved := m.WithTos(m.Tos().(state := plan.next));
    var n := InternalNode(0, m.Tos().nodeId, tree[k].startIndex, 0);
    LeavesInsert(tree, k, n, true);
    LinkKeepsLeaves(WrapInItself(moved), true);
    SameLeavesSame(WrapInItself(moved).tree, Prepare(g, m, plan).tree, true);
    assert WrapInItself(moved).tree == Insert(tree, k, n);
  }

  lemma PlanLosesLength(g: Grammar, all: seq<Token>, m: Machine, plan: Plan, token: Token)
    requires TablesOk(g) && Ready(g, all, true, m, 1) && AtToken(all, m, token)
    requires PlanApplies(g, m, plan) && PlanOk(g, m.Tos().nodeId, plan) && !PlanIsSafe(m, plan)
    ensures Leaves(ApplyPlan(g, m, plan, token).tree, true) != Keys(all[..Cursor(all, m.buffer)], true)
  {
    assert NodeOk(g, m, |m.stack| - 1);
    UpdateIsExact(m.tree, m.Tos());
    WrappingLeaves(g, m, plan, token);
    KeysAppend(all, Cursor(all, m.buffer) - 1, true);
    LastAside(Leaves(m.tree, true), Leaves(UpdatePosition(m.tree, m.Tos()), true),
              Key(token.startIndex, token.length, true));
  }

  lemma LastAside<T>(a: seq<T>, b: seq<T>, x: T)
    ensures a + [x] == b + [x] ==> a == b
  {
    assert (a + [x])[..|a|] == a && (b + [x])[..|b|] == b;
  }

  /** The leaves after a plan that wraps: those of the tree with the position
      updated, and the token. */
  lemma WrappingLeaves(g: Grammar, m: Machine, plan: Plan, token: Token)
    requires TablesOk(g) && PlanApplies(g, m, plan) && PlanOk(g, m.Tos().nodeId, plan)
    requires plan.mode == LeftRecursive && m.Tos().nodeId >= NODE_START
    ensures Leaves(ApplyPlan(g, m, plan, token).tree, true)
         == Leaves(UpdatePosition(m.tree, m.Tos()), true) + [Key(token.startIndex, token.length, true)]
  {
    var prepared := Prepare(g, m, plan);
    PrepareShape(g, m, plan);
    WrappedLeaves(g, m, plan);
    PushesAddNoLeaves(g, prepared, m.Tos().nodeId, plan.pushes, token, m.Tos().recording);
    var pushed := ApplyPushes(g, prepared, plan.pushes, token, m.Tos().recording);
    LeavesAppend(pushed.tree, InternalNode(0, plan.type_, token.startIndex, token.length), true);
  }

  lemma PlanCursor(g: Grammar, all: seq<Token>, m: Machine, plan: Plan, token: Token)
    requires TablesOk(g) && Ready(g, all, false, m, 1) && AtToken(all, m, token)
    requires PlanApplies(g, m, plan) && PlanOk(g, m.Tos().nodeId, plan) && KeepsPoints(g, m, plan)
    ensures Cursor(all, ApplyPlan(g, m, plan, token).buffer) == Cursor(all, m.buffer)
  {
    var prepared := Prepare(g, m, plan);
    PrepareKeeps(g, all, false, m, plan, 1);
    PrepareShape(g, m, plan);
    PushesKeep(g, all, false, prepared, plan.pushes, token);
  }

  lemma EndLosesLength(all: seq<Token>, m: Machine, tokens: seq<Token>)
    requires m.stack != [] && EndOfNode(m).Ok? && !EndIsSafe(m) && Leaves(m.tree, true) == Keys(tokens, true)
    ensures EndOfNode(m).value.buffer == m.buffer
    ensures Leaves(EndOfNode(m).value.tree, true) != Keys(tokens, true)
  {
    UpdateIsExact(m.tree, m.Tos());
  }

  lemma ErrorLosesLength(g: Grammar, all: seq<Token>, m: Machine, token: Option<Token>, tokens: seq<Token>)
    requires m.stack != [] && ErrorRecovery(g, m, token).Ok? && !ErrorKeepsLengths(g, m, token.Some?)
    requires TreeEnds(m.tree) && Leaves(m.tree, true) == Keys(tokens, true) && Short(tokens)
    ensures var r := ErrorRecovery(g, m, token).value;
            r.again == token.Some? && r.machine.buffer == m.buffer && Leaves(r.machine.tree, true) != Keys(tokens, true)
  {
    var k := Recoverer(g, m, |m.stack|);
    WhoRecovers(g, m, |m.stack|, token.Some?);
    PopFailedLoses(all, m, k, tokens);
    PopFailedShape(m, k);
  }

  lemma IdleLengthsNeeded(g: Grammar, all: seq<Token>, m: Machine)
    requires Conserved(g, all, true, Idle(m)) && Short(all) && !KeepsLengths(g, Idle(m)) && !StepIdle(g, m).Panicked?
    ensures !Conserved(g, all, true, StepIdle(g, m))
  {
    ReadKeeps(g, all, true, m);
    NextAtCursor(all, m.buffer);
    var m' := m.(buffer := NextOf(m.buffer).0);
    if g.Info(m.Tos().state).isFinal {
      EndLosesLength(all, m', all[..Cursor(all, m'.buffer)]);
    } else {
      ErrorLosesLength(g, all, m', None, all[..Cursor(all, m'.buffer)]);
    }
  }

  lemma PlanLengthsNeeded(g: Grammar, all: seq<Token>, m: Machine, plan: Plan, token: Token)
    requires TablesOk(g) && Inv(g, all, true, m, 1) && AtToken(all, m, token) && KeepsPoints(g, m, plan)
    requires PlanApplies(g, m, plan) && PlanOk(g, m.Tos().nodeId, plan) && !PlanIsSafe(m, plan)
    ensures !Conserved(g, all, true, Idle(ApplyPlan(g, m, plan, token)))
  {
    PlanLosesLength(g, all, m, plan, token);
    InvErased(g, all, true, m, 1);
    PlanCursor(g, all, m, plan, token);
  }

  lemma PendingEndNeeded(g: Grammar, all: seq<Token>, m: Machine, token: Token)
    requires m.stack != [] && EndOfNode(m).Ok? && !EndIsSafe(m)
    requires 1 <= Cursor(all, m.buffer) <= |all| && Leaves(m.tree, true) == Keys(all[..Cursor(all, m.buffer) - 1], true)
    ensures !Conserved(g, all, true, Pending(EndOfNode(m).value, token))
  {
    EndLosesLength(all, m, all[..Cursor(all, m.buffer) - 1]);
  }

  lemma PendingErrorNeeded(g: Grammar, all: seq<Token>, m: Machine, token: Token)
    requires Inv(g, all, true, m, 1) && Short(all)
    requires m.stack != [] && ErrorRecovery(g, m, Some(token)).Ok? && !ErrorKeepsLengths(g, m, true)
    ensures var r := ErrorRecovery(g, m, Some(token)).value;
            r.again && !Conserved(g, all, true, Pending(r.machine, token))
  {
    ErrorLosesLength(g, all, m, Some(token), all[..Cursor(all, m.buffer) - 1]);
  }

  lemma PendingLengthsNeeded(g: Grammar, all: seq<Token>, m: Machine, token: Token)
    requires TablesOk(g) && Conserved(g, all, true, Pending(m, token)) && Short(all)
    requires KeepsSavedPoints(g, Pending(m, token)) && !KeepsLengths(g, Pending(m, token))
             && !StepPending(g, m, token).Panicked?
    ensures !Conserved(g, all, true, StepPending(g, m, token))
  {
    assert NodeOk(g, m, |m.stack| - 1);
    var plan := g.Lookup(m.Tos().state, token.transition);
    if plan.Some? {
      PlanLengthsNeeded(g, all, m, plan.value, token);
    } else if g.Info(m.Tos().state).isFinal {
      PendingEndNeeded(g, all, m, token);
    } else {
      PendingErrorNeeded(g, all, m, token);
    }
  }

  // ----- both directions

  /** A step that does not panic keeps the tokens, by their starts or also by
      their lengths, and every saved point, if and only if its guard holds: no
      node goes below a saved count that ends in a leaf, and no leaf that is
      popped or wrapped ends before the tree does. */
  lemma StepConservesExactly(g: Grammar, all: seq<Token>, full: bool, s: Status)
    requires TablesOk(g) && TokensOk(all) && Conserved(g, all, full, s) && !Step(g, s).Panicked?
    requires full ==> Short(all)
    ensures Conserved(g, all, full, Step(g, s)) <==> KeepsSavedPoints(g, s) && (full ==> KeepsLengths(g, s))
  {
    if KeepsSavedPoints(g, s) && (full ==> KeepsLengths(g, s)) {
      match s {
        case Idle(m) => IdleConserves(g, all, full, m);
        case Pending(m, token) => PendingConserves(g, all, full, m, token);
        case _ =>
      }
    } else if !KeepsSavedPoints(g, s) {
      ConservedErased(g, all, full, s);
      PointsNeeded(g, all, s);
      if Conserved(g, all, full, Step(g, s)) {
        ConservedErased(g, all, full, Step(g, s));
      }
    } else {
      match s {
        case Idle(m) => IdleLengthsNeeded(g, all, m);
        case Pending(m, token) => PendingLengthsNeeded(g, all, m, token);
        case _ =>
      }
    }
  }
}
