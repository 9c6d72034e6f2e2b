/** The array that the parser builds: in spite of the nodes it inserts in the
    middle, what it holds is at every step the preorder array of the subtrees
    finished so far, and of the nodes that are still open. */
module TreeBuilding {
  import opened Rules
  import opened Powerset
  import opened Trees
  import opened ReplayBuffer
  import opened Parsing
  import opened Derivations
  import opened Plans

  /** An open node: its finished children, and whether it has a place of its own
      in the array yet. */
  datatype Frame = Frame(rule: nat, start: nat, headed: bool, kids: seq<Deriv>)

  function Heading(f: Frame): seq<InternalNode> {
    if f.headed then [InternalNode(0, f.rule, f.start, 0)] else []
  }

  function Part(omitted: set<nat>, f: Frame): seq<InternalNode> {
    Heading(f) + EncodeLinked(CollapseAll(omitted, f.kids))
  }

  /** The array of open nodes whose next child comes behind. */
  function Lower(omitted: set<nat>, fs: seq<Frame>): seq<InternalNode> {
    if fs == [] then [] else Lower(omitted, fs[..|fs| - 1]) + Part(omitted, fs[|fs| - 1])
  }

  function At(omitted: set<nat>, fs: seq<Frame>, j: nat): nat
    requires j <= |fs|
  {
    |Lower(omitted, fs[..j])|
  }

  /** The array when the newest child of the innermost open node is finished. */
  function Whole(omitted: set<nat>, fs: seq<Frame>, last: Deriv): seq<InternalNode> {
    Lower(omitted, fs) + Encode(Collapse(omitted, last), 0)
  }

  /** Where the node of a frame starts, its place being made only for its second
      child if it may be left out. */
  function StartFor(omitted: set<nat>, f: Frame, last: Deriv): nat {
    if f.headed then f.start else Collapse(omitted, last).start
  }

  /** The node of a frame with its last child. */
  function Closed(omitted: set<nat>, f: Frame, last: Deriv): Deriv {
    DNode(f.rule, StartFor(omitted, f, last), f.kids + [last])
  }

  /** A frame has no place of its own exactly while its rule may be left out and
      it has no finished child besides the newest. */
  predicate Headed(omitted: set<nat>, f: Frame) {
    f.headed <==> f.rule !in omitted || f.kids != []
  }

  // ----- changes of the array

  lemma LowerSnoc(omitted: set<nat>, fs: seq<Frame>, f: Frame)
    ensures Lower(omitted, fs + [f]) == Lower(omitted, fs) + Part(omitted, f)
  {
    assert (fs + [f])[..|fs + [f]| - 1] == fs;
  }

  lemma PartSnoc(omitted: set<nat>, f: Frame, last: Deriv)
    ensures var c := Collapse(omitted, last);
            Part(omitted, f.(kids := f.kids + [last])) == Part(omitted, f) + Encode(c, Size(c))
  {
    var c := Collapse(omitted, last);
    CollapseAppend(omitted, f.kids, last);
    LinkedAppend(CollapseAll(omitted, f.kids), c);
    JoinFront(Heading(f), EncodeLinked(CollapseAll(omitted, f.kids)), Encode(c, Size(c)));
  }

  lemma Relink(a: seq<InternalNode>, c: Tree)
    ensures var tree := a + Encode(c, 0);
            |a| < |tree| && tree[|a| := tree[|a|].(nextNodeOffset := |tree| - |a|)] == a + Encode(c, Size(c))
  {
    EncodeRelinked(c, 0, Size(c));
    UpdateBehind(a, Encode(c, 0), Encode(c, 0)[0].(nextNodeOffset := Size(c)));
  }

  /** The newest child is linked to the one that comes behind it. */
  lemma LinkedWhole(omitted: set<nat>, fs: seq<Frame>, f: Frame, last: Deriv)
    ensures var tree := Whole(omitted, fs + [f], last);
            var i := |Lower(omitted, fs + [f])|;
            i < |tree|
            && tree[i := tree[i].(nextNodeOffset := |tree| - i)] == Lower(omitted, fs + [f.(kids := f.kids + [last])])
  {
    var c := Collapse(omitted, last);
    Relink(Lower(omitted, fs + [f]), c);
    LowerSnoc(omitted, fs, f);
    LowerSnoc(omitted, fs, f.(kids := f.kids + [last]));
    PartSnoc(omitted, f, last);
    JoinFront(Lower(omitted, fs), Part(omitted, f), Encode(c, Size(c)));
  }

  lemma UpdateBehind(a: seq<InternalNode>, b: seq<InternalNode>, n: InternalNode)
    requires b != []
    ensures (a + b)[|a| := n] == a + b[0 := n]
  {
  }

  lemma LastBehind(a: seq<InternalNode>, b: seq<InternalNode>)
    requires b != []
    ensures (a + b)[|a + b| - 1] == b[|b| - 1] && (a + b)[|a|] == b[0]
  {
  }

  lemma InsertBehind(a: seq<InternalNode>, b: seq<InternalNode>, n: InternalNode)
    ensures Insert(a + b, |a|, n) == (a + [n]) + b
  {
  }

  /** A place for the node is made in front of its only child. */
  lemma InsertedWhole(omitted: set<nat>, fs: seq<Frame>, f: Frame, last: Deriv)
    requires !f.headed && f.kids == []
    ensures var tree := Whole(omitted, fs + [f], last);
            var i := |Lower(omitted, fs)|;
            var start := Collapse(omitted, last).start;
            i < |tree| && tree[i].startIndex == start
            && Insert(tree, i, InternalNode(0, f.rule, start, 0))
               == Whole(omitted, fs + [f.(headed := true, start := start)], last)
  {
    UnheadedWhole(omitted, fs, f, last);
    var c := Collapse(omitted, last);
    EncodeSize(c, 0);
    LastBehind(Lower(omitted, fs), Encode(c, 0));
    var node := InternalNode(0, f.rule, c.start, 0);
    var f' := f.(headed := true, start := c.start);
    LowerSnoc(omitted, fs, f');
    assert Part(omitted, f') == [node];
    InsertBehind(Lower(omitted, fs), Encode(c, 0), node);
  }

  lemma UnheadedWhole(omitted: set<nat>, fs: seq<Frame>, f: Frame, last: Deriv)
    requires !f.headed && f.kids == []
    ensures Whole(omitted, fs + [f], last) == Whole(omitted, fs, last)
  {
    LowerSnoc(omitted, fs, f);
    assert Part(omitted, f) == [];
    assert Lower(omitted, fs + [f]) == Lower(omitted, fs);
  }

  /** The length of the node at `i` is set so that it ends where the tree does. */
  function Measured(tree: seq<InternalNode>, i: nat): seq<InternalNode>
    requires i < |tree|
  {
    tree[i := tree[i].(length := Minus32(tree[|tree| - 1].EndIndex(), tree[i].startIndex))]
  }

  lemma MeasureBehind(a: seq<InternalNode>, b: seq<InternalNode>)
    requires b != []
    ensures Measured(a + b, |a|) == a + Measured(b, 0)
  {
  }

  /** The node is given its length: it is finished. */
  lemma ClosedWhole(omitted: set<nat>, fs: seq<Frame>, f: Frame, last: Deriv)
    requires Headed(omitted, f) && Filled(last) && Short(Yield(last))
    ensures var tree := Whole(omitted, fs + [f], last);
            var i := |Lower(omitted, fs)|;
            i < |tree| && Measured(tree, i) == Whole(omitted, fs, Closed(omitted, f, last))
  {
    if f.headed {
      ClosedHeaded(omitted, fs, f, last);
    } else {
      ClosedUnheaded(omitted, fs, f, last);
    }
  }

  lemma ClosedHeaded(omitted: set<nat>, fs: seq<Frame>, f: Frame, last: Deriv)
    requires Headed(omitted, f) && Filled(last) && f.headed
    ensures var tree := Whole(omitted, fs + [f], last);
            var i := |Lower(omitted, fs)|;
            i < |tree| && Measured(tree, i) == Whole(omitted, fs, Closed(omitted, f, last))
  {
    var c := Collapse(omitted, last);
    EndOfCollapsed(omitted, last, 0);
    LowerSnoc(omitted, fs, f);
    JoinFront(Lower(omitted, fs), Part(omitted, f), Encode(c, 0));
    MeasureBehind(Lower(omitted, fs), Part(omitted, f) + Encode(c, 0));
    LastBehind(Part(omitted, f), Encode(c, 0));
    ClosedWithHeading(omitted, f, last);
  }

  lemma ClosedUnheaded(omitted: set<nat>, fs: seq<Frame>, f: Frame, last: Deriv)
    requires Headed(omitted, f) && Filled(last) && Short(Yield(last)) && !f.headed
    ensures var tree := Whole(omitted, fs + [f], last);
            var i := |Lower(omitted, fs)|;
            i < |tree| && Measured(tree, i) == Whole(omitted, fs, Closed(omitted, f, last))
  {
    var c := Collapse(omitted, last);
    EncodeSize(c, 0);
    EndOfCollapsed(omitted, last, 0);
    UnheadedWhole(omitted, fs, f, last);
    LengthOfCollapsed(omitted, last);
    MeasureBehind(Lower(omitted, fs), Encode(c, 0));
    assert Measured(Encode(c, 0), 0) == Encode(c, 0);
    assert f.kids + [last] == [last];
  }

  lemma ClosedWithHeading(omitted: set<nat>, f: Frame, last: Deriv)
    requires f.headed && Headed(omitted, f)
    ensures (Part(omitted, f) + Encode(Collapse(omitted, last), 0))
              [0 := InternalNode(0, f.rule, f.start, Minus32(End(last), f.start))]
         == Encode(Collapse(omitted, Closed(omitted, f, last)), 0)
  {
    CollapseAppend(omitted, f.kids, last);
    LinkedThenLast(CollapseAll(omitted, f.kids), Collapse(omitted, last));
    assert (f.kids + [last])[|f.kids|] == last;
  }

  // ----- the stack and the tree together

  ghost predicate KidOk(t: Tables, d: Deriv) {
    Derives(t, d) && Filled(d)
  }

  ghost predicate FrameOk(t: Tables, f: Frame) {
    && f.rule in t.dfas && Headed(t.omitted, f)
    && forall i :: 0 <= i < |f.kids| ==> KidOk(t, f.kids[i])
  }

  predicate NodeFits(node: StackNode, f: Frame, at: nat, next: nat, count: nat) {
    && node.nodeId == f.rule && node.treeNodeIndex == at && node.latestChild == next && node.childrenCount == count
    && node.mode == Plain && !node.recording
  }

  /** The children so far, with one of type `top` to come, lead to the state. */
  ghost predicate Reaches(g: Grammar, t: Tables, f: Frame, top: TransitionType, state: StateId) {
    && state in g.states && state.rule == f.rule && f.rule in t.dfas
    && Powerset.Run(t.dfas[f.rule], 0, Labels(f.kids) + [top]) == Some(state.index)
  }

  /** Each stack node fits its frame. `extra` is 1 when the top node has already
      counted the child that is not in its frame. */
  ghost predicate Open(g: Grammar, t: Tables, stack: seq<StackNode>, fs: seq<Frame>, extra: nat, top: TransitionType)
    decreases |fs|
  {
    && |stack| == |fs|
    && (fs != [] ==>
          var n := |fs| - 1;
          && FrameOk(t, fs[n])
          && NodeFits(stack[n], fs[n], |Lower(t.omitted, fs[..n])|, |Lower(t.omitted, fs)|, |fs[n].kids| + extra)
          && Reaches(g, t, fs[n], top, stack[n].state)
          && Open(g, t, stack[..n], fs[..n], 1, Nonterminal(fs[n].rule)))
  }

  /** Between two steps: the newest child of the innermost node is finished. */
  ghost predicate Holding(g: Grammar, t: Tables, m: Machine, fs: seq<Frame>, f: Frame, last: Deriv) {
    m.tree == Whole(t.omitted, fs + [f], last) && KidOk(t, last) && Open(g, t, m.stack, fs + [f], 1, Label(last))
  }

  /** While a plan is applied: a child of type `top` is to come. */
  ghost predicate Awaiting(g: Grammar, t: Tables, m: Machine, fs: seq<Frame>, f: Frame, top: TransitionType) {
    m.tree == Lower(t.omitted, fs + [f]) && Open(g, t, m.stack, fs + [f], 0, top)
  }

  lemma OpenSnoc(g: Grammar, t: Tables, stack: seq<StackNode>, fs: seq<Frame>, f: Frame, extra: nat,
                 top: TransitionType)
    ensures Open(g, t, stack, fs + [f], extra, top)
       <==> |stack| == |fs| + 1 && FrameOk(t, f)
            && NodeFits(stack[|fs|], f, |Lower(t.omitted, fs)|, |Lower(t.omitted, fs + [f])|, |f.kids| + extra)
            && Reaches(g, t, f, top, stack[|fs|].state)
            && Open(g, t, stack[..|fs|], fs, 1, Nonterminal(f.rule))
  {
    assert (fs + [f])[..|fs|] == fs;
  }

  lemma OpenTop(g: Grammar, t: Tables, stack: seq<StackNode>, fs: seq<Frame>, f: Frame, extra: nat, top: TransitionType)
    requires Open(g, t, stack, fs + [f], extra, top)
    ensures |stack| == |fs| + 1 && FrameOk(t, f) && Open(g, t, stack[..|fs|], fs, 1, Nonterminal(f.rule))
    ensures NodeFits(stack[|fs|], f, |Lower(t.omitted, fs)|, |Lower(t.omitted, fs + [f])|, |f.kids| + extra)
    ensures Reaches(g, t, f, top, stack[|fs|].state)
  {
    OpenSnoc(g, t, stack, fs, f, extra, top);
  }

  // ----- a node ends

  lemma ClosedDerives(g: Grammar, t: Tables, f: Frame, last: Deriv, state: StateId)
    requires FrameOk(t, f) && KidOk(t, last) && Reaches(g, t, f, Label(last), state)
    requires state.index < |t.dfas[f.rule]| && t.dfas[f.rule][state.index].isFinal
    ensures KidOk(t, Closed(t.omitted, f, last))
  {
    var d := Closed(t.omitted, f, last);
    LabelsAppend(f.kids, last);
    forall i | 0 <= i < |d.kids|
      ensures KidOk(t, d.kids[i])
    {
      if i < |f.kids| {
        assert d.kids[i] == f.kids[i];
      }
    }
  }

  lemma EndTree(omitted: set<nat>, m: Machine, fs: seq<Frame>, f: Frame, last: Deriv)
    requires m.stack != [] && m.tree == Whole(omitted, fs + [f], last)
    requires Headed(omitted, f) && Filled(last) && Short(Yield(last))
    requires m.Tos().mode.Plain? && m.Tos().treeNodeIndex == |Lower(omitted, fs)|
    ensures EndOfNode(m)
         == Ok(Machine(m.stack[..|m.stack| - 1], Whole(omitted, fs, Closed(omitted, f, last)), m.buffer))
  {
    ClosedWhole(omitted, fs, f, last);
    assert UpdatePosition(m.tree, m.Tos()) == Measured(m.tree, |Lower(omitted, fs)|);
  }

  /** A node that ends is a finished child of the node below it. */
  lemma EndHolds(g: Grammar, t: Tables, m: Machine, fs: seq<Frame>, f: Frame, last: Deriv)
    requires GrammarSound(g, t) && Holding(g, t, m, fs, f, last) && Short(Yield(last))
    requires m.stack != [] && g.Info(m.Tos().state).isFinal
    ensures EndOfNode(m).Ok? && EndOfNode(m).value.buffer == m.buffer
    ensures KidOk(t, Closed(t.omitted, f, last))
    ensures var m' := EndOfNode(m).value;
            if fs == [] then m'.stack == [] && m'.tree == Encode(Collapse(t.omitted, Closed(t.omitted, f, last)), 0)
            else Holding(g, t, m', fs[..|fs| - 1], fs[|fs| - 1], Closed(t.omitted, f, last))
  {
    OpenTop(g, t, m.stack, fs, f, 1, Label(last));
    EndTree(t.omitted, m, fs, f, last);
    assert StateSound(g, t, m.Tos().state);
    ClosedDerives(g, t, f, last, m.Tos().state);
    if fs == [] {
      assert Lower(t.omitted, fs) == [];
    } else {
      EndedHolds(g, t, m.stack[..|fs|], fs, Closed(t.omitted, f, last), m.buffer);
    }
  }

  lemma EndedHolds(g: Grammar, t: Tables, stack: seq<StackNode>, fs: seq<Frame>, closed: Deriv, buffer: Buffer)
    requires fs != [] && Open(g, t, stack, fs, 1, Label(closed)) && KidOk(t, closed)
    ensures Holding(g, t, Machine(stack, Whole(t.omitted, fs, closed), buffer), fs[..|fs| - 1], fs[|fs| - 1], closed)
  {
    assert fs[..|fs| - 1] + [fs[|fs| - 1]] == fs;
  }

  // ----- a plan is applied

  /** The top frame once its newest child counts among the finished ones; with
      left recursion, that child is the node itself. */
  function Prepared(omitted: set<nat>, f: Frame, last: Deriv, wrapped: bool): Frame {
    Frame(f.rule, StartFor(omitted, f, last), true, if wrapped then [Closed(omitted, f, last)] else f.kids + [last])
  }

  /** What linking the newest child of the top node does to the tree. */
  lemma LinkAwaits(omitted: set<nat>, m: Machine, fs: seq<Frame>, f: Frame, last: Deriv)
    requires m.stack != [] && m.tree == Whole(omitted, fs + [f], last)
    requires f.headed && m.Tos().latestChild == |Lower(omitted, fs + [f])|
    ensures LinkLatestChild(m).tree == Lower(omitted, fs + [f.(kids := f.kids + [last])])
    ensures LinkLatestChild(m).stack == m.WithTos(m.Tos().(latestChild := |m.tree|)).stack
    ensures |m.tree| == |LinkLatestChild(m).tree|
  {
    LinkedWhole(omitted, fs, f, last);
    LowerSnoc(omitted, fs, f);
  }

  lemma InsertAwaits(omitted: set<nat>, m: Machine, fs: seq<Frame>, f: Frame, last: Deriv)
    requires m.stack != [] && m.tree == Whole(omitted, fs + [f], last)
    requires !f.headed && f.kids == [] && m.Tos().treeNodeIndex == |Lower(omitted, fs)| && m.Tos().nodeId == f.rule
    ensures var f' := Frame(f.rule, Collapse(omitted, last).start, true, []);
            m.Tos().treeNodeIndex < |m.tree|
            && InsertNode(m).tree == Whole(omitted, fs + [f'], last)
            && InsertNode(m).Tos() == m.Tos().(childrenCount := 1, latestChild := |Lower(omitted, fs + [f'])|)
            && InsertNode(m).stack == m.WithTos(InsertNode(m).Tos()).stack
  {
    InsertedWhole(omitted, fs, f, last);
    var f' := Frame(f.rule, Collapse(omitted, last).start, true, []);
    LowerSnoc(omitted, fs, f');
    assert |Part(omitted, f')| == 1;
  }

  lemma MeasuredAwaits(omitted: set<nat>, m: Machine, fs: seq<Frame>, f: Frame, last: Deriv)
    requires m.stack != [] && m.tree == Whole(omitted, fs + [f], last)
    requires Headed(omitted, f) && Filled(last) && Short(Yield(last))
    requires m.Tos().treeNodeIndex == |Lower(omitted, fs)|
    ensures m.Tos().treeNodeIndex < |m.tree|
            && UpdatePosition(m.tree, m.Tos())
               == Whole(omitted, fs + [Frame(f.rule, 0, false, [])], Closed(omitted, f, last))
  {
    ClosedWhole(omitted, fs, f, last);
    assert UpdatePosition(m.tree, m.Tos()) == Measured(m.tree, |Lower(omitted, fs)|);
    UnheadedWhole(omitted, fs, Frame(f.rule, 0, false, []), Closed(omitted, f, last));
  }

  /** What wrapping does, without regard to what the tree holds. */
  lemma WrapShape(m: Machine)
    requires m.stack != [] && m.Tos().treeNodeIndex < |m.tree|
    ensures var k, tree := m.Tos().treeNodeIndex, UpdatePosition(m.tree, m.Tos());
            && WrapInItself(m).tree == Insert(tree, k, InternalNode(0, m.Tos().nodeId, tree[k].startIndex, 0))
            && WrapInItself(m).Tos() == m.Tos().(mode := Plain, childrenCount := 1, latestChild := k + 1)
            && WrapInItself(m).stack == m.WithTos(WrapInItself(m).Tos()).stack
  {
  }

  lemma BareSize(omitted: set<nat>, fs: seq<Frame>, rule: nat, start: nat)
    ensures |Lower(omitted, fs + [Frame(rule, start, true, [])])| == |Lower(omitted, fs)| + 1
  {
    var f := Frame(rule, start, true, []);
    LowerSnoc(omitted, fs, f);
    assert |Part(omitted, f)| == 1;
  }

  lemma WrapAwaits(omitted: set<nat>, m: Machine, fs: seq<Frame>, f: Frame, last: Deriv)
    requires m.stack != [] && m.tree == Whole(omitted, fs + [f], last)
    requires Headed(omitted, f) && Filled(last) && Short(Yield(last))
    requires m.Tos().treeNodeIndex == |Lower(omitted, fs)| && m.Tos().nodeId == f.rule
    ensures var f' := Frame(f.rule, StartFor(omitted, f, last), true, []);
            m.Tos().treeNodeIndex < |m.tree|
            && WrapInItself(m).tree == Whole(omitted, fs + [f'], Closed(omitted, f, last))
            && WrapInItself(m).Tos()
               == m.Tos().(mode := Plain, childrenCount := 1, latestChild := |Lower(omitted, fs + [f'])|)
            && WrapInItself(m).stack == m.WithTos(WrapInItself(m).Tos()).stack
  {
    MeasuredAwaits(omitted, m, fs, f, last);
    WrapShape(m);
    StartOfClosed(omitted, f, last);
    InsertedWhole(omitted, fs, Frame(f.rule, 0, false, []), Closed(omitted, f, last));
    BareSize(omitted, fs, f.rule, StartFor(omitted, f, last));
  }

  lemma StartOfClosed(omitted: set<nat>, f: Frame, last: Deriv)
    requires Headed(omitted, f)
    ensures Collapse(omitted, Closed(omitted, f, last)).start == StartFor(omitted, f, last)
  {
    if !f.headed {
      assert f.kids + [last] == [last];
    }
  }

  /** The tree and the top node when a plan is about to add its children. */
  ghost predicate PreparedAs(omitted: set<nat>, m: Machine, m': Machine, fs: seq<Frame>, f: Frame, state: StateId) {
    && m.stack != [] && m'.stack != [] && m'.stack == m.WithTos(m'.Tos()).stack && m'.Tos().state == state
    && m'.tree == Lower(omitted, fs + [f])
    && NodeFits(m'.Tos(), f, |Lower(omitted, fs)|, |Lower(omitted, fs + [f])|, |f.kids|)
  }

  /** Linking makes the newest child a finished one. */
  lemma LinkPrepares(omitted: set<nat>, m: Machine, fs: seq<Frame>, f: Frame, last: Deriv)
    requires m.stack != [] && m.tree == Whole(omitted, fs + [f], last) && f.headed
    requires NodeFits(m.Tos(), f, |Lower(omitted, fs)|, |Lower(omitted, fs + [f])|, |f.kids| + 1)
    ensures PreparedAs(omitted, m, LinkLatestChild(m), fs, f.(kids := f.kids + [last]), m.Tos().state)
  {
    LinkAwaits(omitted, m, fs, f, last);
  }

  /** Changing the top node first makes no difference to the nodes below. */
  lemma PreparedMoved(omitted: set<nat>, m: Machine, moved: Machine, m': Machine, fs: seq<Frame>, f: Frame,
                      state: StateId)
    requires m.stack != [] && moved.stack != [] && moved.stack == m.WithTos(moved.Tos()).stack
    requires PreparedAs(omitted, moved, m', fs, f, state)
    ensures PreparedAs(omitted, m, m', fs, f, state)
  {
    assert moved.WithTos(m'.Tos()).stack == m.WithTos(m'.Tos()).stack;
  }

  lemma PreparedWithNode(omitted: set<nat>, m: Machine, fs: seq<Frame>, f: Frame, last: Deriv)
    requires m.stack != [] && m.tree == Whole(omitted, fs + [f], last) && !f.headed && f.kids == []
    requires NodeFits(m.Tos(), f, |Lower(omitted, fs)|, |Lower(omitted, fs + [f])|, |f.kids| + 1)
    ensures m.Tos().treeNodeIndex < |m.tree|
    ensures PreparedAs(omitted, m, LinkLatestChild(InsertNode(m)), fs, Prepared(omitted, f, last, false), m.Tos().state)
  {
    var bare := Frame(f.rule, StartFor(omitted, f, last), true, []);
    InsertAwaits(omitted, m, fs, f, last);
    LinkPrepares(omitted, InsertNode(m), fs, bare, last);
    assert f.kids + [last] == bare.kids + [last];
    PreparedMoved(omitted, m, InsertNode(m), LinkLatestChild(InsertNode(m)), fs, Prepared(omitted, f, last, false),
                  m.Tos().state);
  }

  lemma PreparedWrapped(omitted: set<nat>, m: Machine, fs: seq<Frame>, f: Frame, last: Deriv)
    requires m.stack != [] && m.tree == Whole(omitted, fs + [f], last)
    requires Headed(omitted, f) && Filled(last) && Short(Yield(last))
    requires NodeFits(m.Tos(), f, |Lower(omitted, fs)|, |Lower(omitted, fs + [f])|, |f.kids| + 1)
    ensures m.Tos().treeNodeIndex < |m.tree|
    ensures PreparedAs(omitted, m, LinkLatestChild(WrapInItself(m)), fs, Prepared(omitted, f, last, true),
                       m.Tos().state)
  {
    var bare, closed := Frame(f.rule, StartFor(omitted, f, last), true, []), Closed(omitted, f, last);
    WrapAwaits(omitted, m, fs, f, last);
    LinkPrepares(omitted, WrapInItself(m), fs, bare, closed);
    assert bare.kids + [closed] == [closed];
    PreparedMoved(omitted, m, WrapInItself(m), LinkLatestChild(WrapInItself(m)), fs, Prepared(omitted, f, last, true),
                  m.Tos().state);
  }

  lemma PreparedTree(g: Grammar, omitted: set<nat>, m: Machine, fs: seq<Frame>, f: Frame, last: Deriv, plan: Plan)
    requires PlanApplies(g, m, plan) && m.tree == Whole(omitted, fs + [f], last)
    requires Headed(omitted, f) && Filled(last) && Short(Yield(last))
    requires NodeFits(m.Tos(), f, |Lower(omitted, fs)|, |Lower(omitted, fs + [f])|, |f.kids| + 1)
    requires g.Info(plan.next).mayBeOmitted == (f.rule in omitted)
    ensures PreparedAs(omitted, m, Prepare(g, m, plan), fs, Prepared(omitted, f, last, plan.mode == LeftRecursive),
                       plan.next)
  {
    var moved := m.WithTos(m.Tos().(state := plan.next));
    if NeedsNode(g, m, plan) {
      PreparedWithNode(omitted, moved, fs, f, last);
    } else if plan.mode == LeftRecursive {
      PreparedWrapped(omitted, moved, fs, f, last);
    } else {
      LinkPrepares(omitted, moved, fs, f, last);
      assert Prepared(omitted, f, last, false) == f.(kids := f.kids + [last]);
    }
    PreparedMoved(omitted, m, moved, Prepare(g, m, plan), fs, Prepared(omitted, f, last, plan.mode == LeftRecursive),
                  plan.next);
  }

  lemma PreparedReaches(g: Grammar, t: Tables, f: Frame, last: Deriv, state: StateId, key: nat, plan: Plan,
                        kind: TransitionType)
    requires FrameOk(t, f) && KidOk(t, last) && Reaches(g, t, f, Label(last), state) && StateSound(g, t, state)
    requires PlanReads(t, state, key, plan, kind) && plan.next in g.states && StateSound(g, t, plan.next)
    ensures var f' := Prepared(t.omitted, f, last, plan.mode == LeftRecursive);
            FrameOk(t, f') && Reaches(g, t, f', FirstLabel(plan.pushes, kind), plan.next)
  {
    var dfas, first := t.dfas[f.rule], FirstLabel(plan.pushes, kind);
    var f' := Prepared(t.omitted, f, last, plan.mode == LeftRecursive);
    if plan.mode == LeftRecursive {
      ClosedDerives(g, t, f, last, state);
      assert Labels(f'.kids) == [Nonterminal(f.rule)] by {
        assert f'.kids[1..] == [];
      }
      assert Powerset.Run(dfas, 0, Labels(f'.kids)) == From(t, state, plan.mode) by {
        RunOne(dfas, 0, Nonterminal(f.rule));
      }
    } else {
      LabelsAppend(f.kids, last);
    }
    RunAppend(dfas, 0, Labels(f'.kids), first);
    RunOne(dfas, From(t, state, plan.mode).value, first);
  }

  lemma RunOne(dfas: seq<DfaState>, d: nat, l: TransitionType)
    requires d < |dfas|
    ensures Powerset.Next(dfas, d, l).Some? && Powerset.Next(dfas, d, l).value < |dfas|
            ==> Powerset.Run(dfas, d, [l]) == Powerset.Next(dfas, d, l)
  {
    assert [l][1..] == [];
  }

  lemma PrepareAwaits(g: Grammar, t: Tables, m: Machine, fs: seq<Frame>, f: Frame, last: Deriv,
                      key: nat, plan: Plan, kind: TransitionType)
    requires GrammarSound(g, t) && Holding(g, t, m, fs, f, last) && Short(Yield(last))
    requires PlanApplies(g, m, plan) && m.Tos().state in g.states && StateSound(g, t, m.Tos().state)
    requires PlanReads(t, m.Tos().state, key, plan, kind)
    ensures var f' := Prepared(t.omitted, f, last, plan.mode == LeftRecursive);
            Awaiting(g, t, Prepare(g, m, plan), fs, f', FirstLabel(plan.pushes, kind))
  {
    OpenTop(g, t, m.stack, fs, f, 1, Label(last));
    assert StateSound(g, t, plan.next);
    PreparedTree(g, t.omitted, m, fs, f, last, plan);
    PreparedReaches(g, t, f, last, m.Tos().state, key, plan, kind);
    var f', m' := Prepared(t.omitted, f, last, plan.mode == LeftRecursive), Prepare(g, m, plan);
    assert m'.stack[..|fs|] == m.stack[..|fs|];
    OpenSnoc(g, t, m'.stack, fs, f', 0, FirstLabel(plan.pushes, kind));
  }

  // ----- the nodes that a plan opens, and the leaf

  function NewFrame(omitted: set<nat>, push: Push, token: Token): Frame {
    Frame(push.nodeType, token.startIndex, push.nodeType !in omitted, [])
  }

  /** The open nodes below and at the top after some pushes. */
  function Pushed(omitted: set<nat>, fs: seq<Frame>, f: Frame, pushes: seq<Push>, token: Token): (seq<Frame>, Frame)
    decreases |pushes|
  {
    if pushes == [] then (fs, f) else Pushed(omitted, fs + [f], NewFrame(omitted, pushes[0], token), pushes[1..], token)
  }

  lemma NewFrameSize(omitted: set<nat>, fs: seq<Frame>, push: Push, token: Token)
    ensures Lower(omitted, fs + [NewFrame(omitted, push, token)])
         == if push.nodeType in omitted then Lower(omitted, fs)
            else Lower(omitted, fs) + [InternalNode(0, push.nodeType, token.startIndex, 0)]
  {
    var f := NewFrame(omitted, push, token);
    LowerSnoc(omitted, fs, f);
    assert Part(omitted, f) == Heading(f);
  }

  lemma NewFrameOk(g: Grammar, t: Tables, push: Push, token: Token, rest: seq<Push>, kind: TransitionType)
    requires Chain(t, push.nodeType, 0, rest, push.next, kind) && push.next in g.states && StateSound(g, t, push.next)
    ensures var f := NewFrame(t.omitted, push, token);
            FrameOk(t, f) && Reaches(g, t, f, FirstLabel(rest, kind), push.next)
  {
    var l := FirstLabel(rest, kind);
    assert Labels([]) + [l] == [l];
    RunOne(t.dfas[push.nodeType], 0, l);
  }

  /** The top node counts the child that is to come. */
  lemma CountedOpen(g: Grammar, t: Tables, m: Machine, fs: seq<Frame>, f: Frame, top: TransitionType)
    requires Awaiting(g, t, m, fs, f, top)
    ensures m.stack != []
    ensures Open(g, t, m.WithTos(m.Tos().(childrenCount := m.Tos().childrenCount + 1)).stack, fs + [f], 1, top)
  {
    OpenTop(g, t, m.stack, fs, f, 0, top);
    var stack := m.WithTos(m.Tos().(childrenCount := m.Tos().childrenCount + 1)).stack;
    assert stack[..|fs|] == m.stack[..|fs|];
    OpenSnoc(g, t, stack, fs, f, 1, top);
  }

  lemma PushShape(g: Grammar, m: Machine, push: Push, token: Token)
    requires m.stack != [] && CanStart(m.buffer) && push.mode.LLPush?
    ensures var (m', recording) := ApplyPush(g, m, push, token, false);
            && !recording && m'.buffer == m.buffer
            && m'.tree == (if g.Info(push.next).mayBeOmitted then m.tree
                           else m.tree + [InternalNode(0, push.nodeType, token.startIndex, 0)])
            && m'.stack == m.WithTos(m.Tos().(childrenCount := m.Tos().childrenCount + 1)).stack
                           + [StackNode(push.nodeType, |m.tree|, |m'.tree|, push.next, 0, Plain, false)]
  {
  }

  lemma PushAwaits(g: Grammar, t: Tables, m: Machine, fs: seq<Frame>, f: Frame, push: Push, token: Token,
                   rest: seq<Push>, kind: TransitionType)
    requires GrammarSound(g, t) && Awaiting(g, t, m, fs, f, Nonterminal(push.nodeType)) && m.stack != []
             && CanStart(m.buffer)
    requires push.mode.LLPush? && Chain(t, push.nodeType, 0, rest, push.next, kind)
    ensures var (m', recording) := ApplyPush(g, m, push, token, false);
            !recording && m'.buffer == m.buffer
            && Awaiting(g, t, m', fs + [f], NewFrame(t.omitted, push, token), FirstLabel(rest, kind))
  {
    var (m', _) := ApplyPush(g, m, push, token, false);
    var nf := NewFrame(t.omitted, push, token);
    assert StateSound(g, t, push.next);
    CountedOpen(g, t, m, fs, f, Nonterminal(push.nodeType));
    NewFrameSize(t.omitted, fs + [f], push, token);
    NewFrameOk(g, t, push, token, rest, kind);
    PushShape(g, m, push, token);
    var counted := m.WithTos(m.Tos().(childrenCount := m.Tos().childrenCount + 1)).stack;
    assert |counted| == |fs + [f]| && m'.stack[..|counted|] == counted;
    OpenSnoc(g, t, m'.stack, fs + [f], nf, 0, FirstLabel(rest, kind));
  }

  lemma {:induction false} PushesAwait(g: Grammar, t: Tables, m: Machine, fs: seq<Frame>, f: Frame, rule: nat,
                                       from: nat,
                                       pushes: seq<Push>, next: StateId, token: Token, kind: TransitionType)
    requires GrammarSound(g, t) && Awaiting(g, t, m, fs, f, FirstLabel(pushes, kind)) && m.stack != []
             && CanStart(m.buffer)
    requires Chain(t, rule, from, pushes, next, kind)
    ensures var m' := ApplyPushes(g, m, pushes, token, false);
            var (fs', f') := Pushed(t.omitted, fs, f, pushes, token);
            m'.buffer == m.buffer && Awaiting(g, t, m', fs', f', kind)
    decreases |pushes|
  {
    if pushes != [] {
      PushAwaits(g, t, m, fs, f, pushes[0], token, pushes[1..], kind);
      var (m', recording) := ApplyPush(g, m, pushes[0], token, false);
      PushesAwait(g, t, m', fs + [f], NewFrame(t.omitted, pushes[0], token), pushes[0].nodeType, 0, pushes[1..],
                  pushes[0].next, token, kind);
    }
  }

  lemma LeafHolds(g: Grammar, t: Tables, m: Machine, fs: seq<Frame>, f: Frame, kind: TransitionType, type_: nat,
                  token: Token)
    requires Awaiting(g, t, m, fs, f, kind) && m.stack != []
    requires t.Matches(kind, token.transition) && (t.HasType(kind, type_) || type_ == token.transition)
    ensures Holding(g, t, AddLeaf(m, type_, token), fs, f, DLeaf(kind, type_, token))
    ensures AddLeaf(m, type_, token).buffer == m.buffer
  {
    CountedOpen(g, t, m, fs, f, kind);
    assert AddLeaf(m, type_, token).stack == m.WithTos(m.Tos().(childrenCount := m.Tos().childrenCount + 1)).stack;
  }

  /** The open nodes once a plan has been applied. */
  function Applied(omitted: set<nat>, fs: seq<Frame>, f: Frame, last: Deriv, plan: Plan, token: Token)
    : (seq<Frame>, Frame)
  {
    Pushed(omitted, fs, Prepared(omitted, f, last, plan.mode == LeftRecursive), plan.pushes, token)
  }

  lemma PlanHolds(g: Grammar, t: Tables, m: Machine, fs: seq<Frame>, f: Frame, last: Deriv,
                  plan: Plan, token: Token, kind: TransitionType)
    requires GrammarSound(g, t) && Holding(g, t, m, fs, f, last) && Short(Yield(last))
    requires PlanApplies(g, m, plan) && m.Tos().state in g.states && StateSound(g, t, m.Tos().state)
    requires PlanReads(t, m.Tos().state, token.transition, plan, kind)
    ensures var (fs', f') := Applied(t.omitted, fs, f, last, plan, token);
            var m' := ApplyPlan(g, m, plan, token);
            m'.buffer == m.buffer && Holding(g, t, m', fs', f', DLeaf(kind, plan.type_, token))
  {
    OpenTop(g, t, m.stack, fs, f, 1, Label(last));
    PrepareAwaits(g, t, m, fs, f, last, token.transition, plan, kind);
    assert StateSound(g, t, plan.next);
    var prepared, f' := Prepare(g, m, plan), Prepared(t.omitted, f, last, plan.mode == LeftRecursive);
    PrepareBuffer(g, m, plan);
    PlanPushes(g, t, prepared, fs, f', m.Tos().state, plan, token, kind);
  }

  lemma PrepareBuffer(g: Grammar, m: Machine, plan: Plan)
    requires PlanApplies(g, m, plan)
    ensures Prepare(g, m, plan).buffer == m.buffer && Prepare(g, m, plan).stack != []
  {
  }

  lemma PlanPushes(g: Grammar, t: Tables, m: Machine, fs: seq<Frame>, f: Frame, id: StateId,
                   plan: Plan, token: Token, kind: TransitionType)
    requires GrammarSound(g, t) && Awaiting(g, t, m, fs, f, FirstLabel(plan.pushes, kind)) && m.stack != []
             && CanStart(m.buffer)
    requires id.rule in t.dfas && id.index < |t.dfas[id.rule]| && PlanReads(t, id, token.transition, plan, kind)
    ensures var (fs', f') := Pushed(t.omitted, fs, f, plan.pushes, token);
            var m' := AddLeaf(ApplyPushes(g, m, plan.pushes, token, false), plan.type_, token);
            m'.buffer == m.buffer && Holding(g, t, m', fs', f', DLeaf(kind, plan.type_, token))
  {
    PushesAwait(g, t, m, fs, f, id.rule, From(t, id, plan.mode).value, plan.pushes, plan.next, token, kind);
    var (fs', f') := Pushed(t.omitted, fs, f, plan.pushes, token);
    LeafHolds(g, t, ApplyPushes(g, m, plan.pushes, token, false), fs', f', kind, plan.type_, token);
  }
}
