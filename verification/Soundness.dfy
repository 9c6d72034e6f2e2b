/** Every run of the parser that meets no error ends with the flat tree of a
    derivation of the grammar from all the tokens. */
module Soundness {
  import opened Rules
  import opened Trees
  import opened ReplayBuffer
  import opened Parsing
  import opened Derivations
  import opened Plans
  import opened TreeBuilding

  // ----- the tokens read so far

  function FramesYield(fs: seq<Frame>): seq<Token> {
    if fs == [] then [] else FramesYield(fs[..|fs| - 1]) + YieldAll(fs[|fs| - 1].kids)
  }

  function ReadSoFar(fs: seq<Frame>, f: Frame, last: Deriv): seq<Token> {
    FramesYield(fs) + YieldAll(f.kids) + Yield(last)
  }

  lemma FramesYieldSnoc(fs: seq<Frame>, f: Frame)
    ensures FramesYield(fs + [f]) == FramesYield(fs) + YieldAll(f.kids)
  {
    assert (fs + [f])[..|fs + [f]| - 1] == fs;
  }

  lemma {:induction false} PushedYield(omitted: set<nat>, fs: seq<Frame>, f: Frame, pushes: seq<Push>, token: Token)
    ensures var (fs', f') := Pushed(omitted, fs, f, pushes, token);
            FramesYield(fs') + YieldAll(f'.kids) == FramesYield(fs) + YieldAll(f.kids)
    decreases |pushes|
  {
    if pushes != [] {
      FramesYieldSnoc(fs, f);
      PushedYield(omitted, fs + [f], NewFrame(omitted, pushes[0], token), pushes[1..], token);
    }
  }

  lemma ClosedYield(omitted: set<nat>, f: Frame, last: Deriv)
    ensures Yield(Closed(omitted, f, last)) == YieldAll(f.kids) + Yield(last)
  {
    YieldAppend(f.kids, last);
  }

  lemma AppliedYield(omitted: set<nat>, fs: seq<Frame>, f: Frame, last: Deriv, plan: Plan, token: Token, leaf: Deriv)
    requires Yield(leaf) == [token]
    ensures var (fs', f') := Applied(omitted, fs, f, last, plan, token);
            ReadSoFar(fs', f', leaf) == ReadSoFar(fs, f, last) + [token]
  {
    var f1 := Prepared(omitted, f, last, plan.mode == LeftRecursive);
    PushedYield(omitted, fs, f1, plan.pushes, token);
    ClosedYield(omitted, f, last);
    YieldAppend(f.kids, last);
    if plan.mode == LeftRecursive {
      assert f1.kids[1..] == [];
      assert YieldAll(f1.kids) == Yield(f1.kids[0]) + YieldAll(f1.kids[1..]);
    }
    JoinFront(FramesYield(fs), YieldAll(f.kids), Yield(last));
  }

  lemma EndedYield(omitted: set<nat>, fs: seq<Frame>, f: Frame, last: Deriv)
    ensures if fs == [] then Yield(Closed(omitted, f, last)) == ReadSoFar(fs, f, last)
            else ReadSoFar(fs[..|fs| - 1], fs[|fs| - 1], Closed(omitted, f, last)) == ReadSoFar(fs, f, last)
  {
    ClosedYield(omitted, f, last);
    JoinFront(FramesYield(fs), YieldAll(f.kids), Yield(last));
  }

  // ----- where nodes start

  /** Where the first leaf starts. */
  function FirstStart(d: Deriv): nat
    decreases d
  {
    match d
    case DLeaf(_, _, token) => token.startIndex
    case DNode(_, start, kids) => if kids == [] then start else FirstStart(kids[0])
  }

  predicate IsOf(d: Deriv, rule: nat) {
    d.DNode? && d.rule == rule
  }

  /** Each node starts with its first leaf. With `zero`, the node starts at 0, and
      so do the nodes of its rule that its leftmost branch goes on with. */
  ghost predicate Spans(d: Deriv, zero: bool)
    decreases d, 2
  {
    d.DNode? ==> BodySpans(d.rule, d.start, d.kids, zero)
  }

  ghost predicate BodySpans(rule: nat, start: nat, kids: seq<Deriv>, zero: bool)
    decreases kids, 1
  {
    kids != [] && start == (if zero then 0 else FirstStart(kids[0])) && AllSpan(rule, kids, zero)
  }

  ghost predicate AllSpan(rule: nat, ds: seq<Deriv>, zero: bool)
    decreases ds, 0
  {
    forall i :: 0 <= i < |ds| ==> Spans(ds[i], zero && i == 0 && IsOf(ds[i], rule))
  }

  /** Only a node of left recursion begins with a node of its own rule. */
  ghost predicate NotItself(f: Frame, first: Deriv) {
    f.kids == [] ==> !IsOf(first, f.rule)
  }

  ghost predicate TopStarts(zero: bool, f: Frame, last: Deriv) {
    BodySpans(f.rule, f.start, f.kids + [last], zero) && (zero ==> f.headed)
  }

  /** A frame without finished children starts where the next one does, which is
      not of the same rule. Only the bottom frame can start at 0 instead. */
  ghost predicate LowerStarts(zero: bool, fs: seq<Frame>, next: nat, above: Option<nat>)
    decreases |fs|
  {
    fs == [] ||
      var n := |fs| - 1;
      var f, z := fs[n], zero && n == 0;
      && (z ==> f.headed && f.start == 0)
      && (if f.kids != [] then BodySpans(f.rule, f.start, f.kids, z)
          else (!z ==> f.start == next) && above != Some(f.rule))
      && LowerStarts(zero, fs[..n], f.start, Some(f.rule))
  }

  ghost predicate StartsOk(zero: bool, fs: seq<Frame>, f: Frame, last: Deriv) {
    TopStarts(zero && fs == [], f, last) && LowerStarts(zero, fs, f.start, Some(f.rule)) && NotItself(f, last)
  }

  lemma KidSpans(rule: nat, start: nat, kids: seq<Deriv>, zero: bool, i: nat)
    requires BodySpans(rule, start, kids, zero) && i < |kids|
    ensures Spans(kids[i], zero && i == 0 && IsOf(kids[i], rule))
  {
    assert AllSpan(rule, kids, zero);
  }

  /** One more child, the first or a later one. */
  lemma BodyExtended(rule: nat, start: nat, kids: seq<Deriv>, d: Deriv, zero: bool)
    requires Spans(d, false)
    requires if kids != [] then BodySpans(rule, start, kids, zero)
             else start == (if zero then 0 else FirstStart(d)) && !IsOf(d, rule)
    ensures BodySpans(rule, start, kids + [d], zero)
  {
    var ds := kids + [d];
    forall i | 0 <= i < |ds|
      ensures Spans(ds[i], zero && i == 0 && IsOf(ds[i], rule))
    {
      if i < |kids| {
        KidSpans(rule, start, kids, zero, i);
      }
    }
    assert AllSpan(rule, ds, zero);
  }

  lemma {:induction false} CollapsedStart(omitted: set<nat>, d: Deriv)
    requires Spans(d, false)
    ensures Collapse(omitted, d).start == FirstStart(d)
    decreases d
  {
    if d.DNode? && d.rule in omitted && |d.kids| == 1 {
      KidSpans(d.rule, d.start, d.kids, false, 0);
      CollapsedStart(omitted, d.kids[0]);
    }
  }

  lemma ClosedSpans(omitted: set<nat>, zero: bool, f: Frame, last: Deriv)
    requires Headed(omitted, f) && TopStarts(zero, f, last)
    ensures StartFor(omitted, f, last) == f.start && Spans(Closed(omitted, f, last), zero)
  {
    if !f.headed {
      assert f.kids + [last] == [last];
      KidSpans(f.rule, f.start, [last], false, 0);
      CollapsedStart(omitted, last);
    }
  }

  lemma PreparedStarts(omitted: set<nat>, zero: bool, f: Frame, last: Deriv, wrapped: bool)
    requires Headed(omitted, f) && TopStarts(zero, f, last)
    ensures var f' := Prepared(omitted, f, last, wrapped);
            && f'.start == f.start && f'.rule == f.rule && f'.headed && f'.kids != []
            && BodySpans(f'.rule, f'.start, f'.kids, zero)
  {
    ClosedSpans(omitted, zero, f, last);
    if wrapped {
      WrappedSpans(f.rule, f.start, Closed(omitted, f, last), zero);
    }
  }

  lemma WrappedSpans(rule: nat, start: nat, d: Deriv, zero: bool)
    requires Spans(d, zero) && IsOf(d, rule) && start == if zero then 0 else FirstStart(d)
    ensures BodySpans(rule, start, [d], zero)
  {
    assert AllSpan(rule, [d], zero);
  }

  lemma {:induction false} PushedStarts(omitted: set<nat>, zero: bool, fs: seq<Frame>, f: Frame, pushes: seq<Push>,
                                        token: Token)
    requires LowerStarts(zero, fs + [f], token.startIndex, None) && Direct(f.rule, f.kids == [], pushes)
    ensures var (fs', f') := Pushed(omitted, fs, f, pushes, token);
            LowerStarts(zero, fs' + [f'], token.startIndex, None)
    decreases |pushes|
  {
    if pushes != [] {
      var nf := NewFrame(omitted, pushes[0], token);
      assert (fs + [f] + [nf])[..|fs| + 1] == fs + [f];
      assert (fs + [f])[..|fs|] == fs;
      PushedStarts(omitted, zero, fs + [f], nf, pushes[1..], token);
    }
  }

  lemma LeafStarts(zero: bool, fs: seq<Frame>, f: Frame, leaf: Deriv)
    requires leaf.DLeaf? && LowerStarts(zero, fs + [f], leaf.token.startIndex, None)
    ensures StartsOk(zero, fs, f, leaf)
  {
    assert (fs + [f])[..|fs|] == fs;
    BodyExtended(f.rule, f.start, f.kids, leaf, zero && fs == []);
  }

  lemma AppliedStarts(omitted: set<nat>, zero: bool, fs: seq<Frame>, f: Frame, last: Deriv,
                      plan: Plan, token: Token, leaf: Deriv)
    requires Headed(omitted, f) && StartsOk(zero, fs, f, last) && leaf.DLeaf? && leaf.token == token
    requires Direct(f.rule, false, plan.pushes)
    ensures var (fs', f') := Applied(omitted, fs, f, last, plan, token);
            StartsOk(zero, fs', f', leaf)
  {
    var f1 := Prepared(omitted, f, last, plan.mode == LeftRecursive);
    PreparedStarts(omitted, zero && fs == [], f, last, plan.mode == LeftRecursive);
    assert (fs + [f1])[..|fs|] == fs;
    PushedStarts(omitted, zero, fs, f1, plan.pushes, token);
    var (fs', f') := Applied(omitted, fs, f, last, plan, token);
    LeafStarts(zero, fs', f', leaf);
  }

  lemma EndedStarts(omitted: set<nat>, zero: bool, fs: seq<Frame>, f: Frame, last: Deriv)
    requires Headed(omitted, f) && StartsOk(zero, fs, f, last)
    ensures if fs == [] then Spans(Closed(omitted, f, last), zero)
            else StartsOk(zero, fs[..|fs| - 1], fs[|fs| - 1], Closed(omitted, f, last))
  {
    ClosedSpans(omitted, zero && fs == [], f, last);
    if fs != [] {
      var lower, closed := fs[|fs| - 1], Closed(omitted, f, last);
      assert FirstStart(closed) == f.start;
      BodyExtended(lower.rule, lower.start, lower.kids, closed, zero && fs[..|fs| - 1] == []);
    }
  }

  // ----- which types leaves have

  /** The i-th child is the first one after a node of left recursion; a first child
      begins as its node does. */
  predicate Continues(rule: nat, kids: seq<Deriv>, i: nat, continued: bool)
    requires i <= |kids|
  {
    if i == 0 then continued else i == 1 && IsOf(kids[0], rule)
  }

  /** A leaf has a type of its label, unless a rule was continued with it that had
      been its own first child: then it has the type of its token. */
  ghost predicate LeafTypes(t: Tables, d: Deriv, continued: bool)
    decreases d, 1
  {
    match d
    case DLeaf(kind, type_, token) => if continued then type_ == token.transition else t.HasType(kind, type_)
    case DNode(rule, _, kids) => AllTypes(t, rule, kids, continued)
  }

  ghost predicate AllTypes(t: Tables, rule: nat, kids: seq<Deriv>, continued: bool)
    decreases kids, 0
  {
    forall i :: 0 <= i < |kids| ==> LeafTypes(t, kids[i], Continues(rule, kids, i, continued))
  }

  /** Whether what comes next is a child of left recursion, or the first leaf of one. */
  predicate NextContinues(fs: seq<Frame>) {
    fs != [] && var f := fs[|fs| - 1]; Continues(f.rule, f.kids, |f.kids|, NextContinues(fs[..|fs| - 1]))
  }

  ghost predicate LowerTypes(t: Tables, fs: seq<Frame>) {
    fs == [] ||
      var n := |fs| - 1;
      AllTypes(t, fs[n].rule, fs[n].kids, NextContinues(fs[..n])) && LowerTypes(t, fs[..n])
  }

  ghost predicate TypesOk(t: Tables, fs: seq<Frame>, f: Frame, last: Deriv) {
    AllTypes(t, f.rule, f.kids + [last], NextContinues(fs)) && LowerTypes(t, fs)
  }

  lemma TypesAppended(t: Tables, rule: nat, kids: seq<Deriv>, d: Deriv, continued: bool)
    requires AllTypes(t, rule, kids, continued) && LeafTypes(t, d, Continues(rule, kids, |kids|, continued))
    ensures AllTypes(t, rule, kids + [d], continued)
  {
    var ds := kids + [d];
    forall i | 0 <= i < |ds|
      ensures LeafTypes(t, ds[i], Continues(rule, ds, i, continued))
    {
      assert Continues(rule, ds, i, continued) == Continues(rule, kids, i, continued);
    }
  }

  lemma SnocTypes(t: Tables, fs: seq<Frame>, f: Frame)
    ensures LowerTypes(t, fs + [f]) <==> AllTypes(t, f.rule, f.kids, NextContinues(fs)) && LowerTypes(t, fs)
    ensures NextContinues(fs + [f]) == Continues(f.rule, f.kids, |f.kids|, NextContinues(fs))
  {
    assert (fs + [f])[..|fs|] == fs;
  }

  lemma {:induction false} PushedTypes(t: Tables, fs: seq<Frame>, f: Frame, pushes: seq<Push>, token: Token)
    requires LowerTypes(t, fs + [f])
    ensures var (fs', f') := Pushed(t.omitted, fs, f, pushes, token);
            LowerTypes(t, fs' + [f']) && NextContinues(fs' + [f']) == NextContinues(fs + [f])
    decreases |pushes|
  {
    if pushes != [] {
      var nf := NewFrame(t.omitted, pushes[0], token);
      SnocTypes(t, fs + [f], nf);
      PushedTypes(t, fs + [f], nf, pushes[1..], token);
    }
  }

  lemma LeafHasType(t: Tables, fs: seq<Frame>, f: Frame, leaf: Deriv)
    requires LowerTypes(t, fs + [f]) && LeafTypes(t, leaf, NextContinues(fs + [f]))
    ensures TypesOk(t, fs, f, leaf)
  {
    SnocTypes(t, fs, f);
    TypesAppended(t, f.rule, f.kids, leaf, NextContinues(fs));
  }

  lemma PreparedTypes(t: Tables, fs: seq<Frame>, f: Frame, last: Deriv, wrapped: bool)
    requires TypesOk(t, fs, f, last) && NotItself(f, last)
    ensures var f' := Prepared(t.omitted, f, last, wrapped);
            LowerTypes(t, fs + [f']) && NextContinues(fs + [f']) == wrapped
  {
    SnocTypes(t, fs, Prepared(t.omitted, f, last, wrapped));
    if wrapped {
      assert LeafTypes(t, Closed(t.omitted, f, last), NextContinues(fs));
    }
  }

  lemma AppliedTypes(t: Tables, fs: seq<Frame>, f: Frame, last: Deriv, plan: Plan, token: Token, kind: TransitionType)
    requires TypesOk(t, fs, f, last) && NotItself(f, last)
    requires LeafTypes(t, DLeaf(kind, plan.type_, token), plan.mode == LeftRecursive)
    ensures var (fs', f') := Applied(t.omitted, fs, f, last, plan, token);
            TypesOk(t, fs', f', DLeaf(kind, plan.type_, token))
  {
    var f1 := Prepared(t.omitted, f, last, plan.mode == LeftRecursive);
    PreparedTypes(t, fs, f, last, plan.mode == LeftRecursive);
    PushedTypes(t, fs, f1, plan.pushes, token);
    var (fs', f') := Applied(t.omitted, fs, f, last, plan, token);
    LeafHasType(t, fs', f', DLeaf(kind, plan.type_, token));
  }

  lemma EndedTypes(t: Tables, fs: seq<Frame>, f: Frame, last: Deriv)
    requires TypesOk(t, fs, f, last)
    ensures if fs == [] then LeafTypes(t, Closed(t.omitted, f, last), false)
            else TypesOk(t, fs[..|fs| - 1], fs[|fs| - 1], Closed(t.omitted, f, last))
  {
    if fs != [] {
      var lower := fs[|fs| - 1];
      TypesAppended(t, lower.rule, lower.kids, Closed(t.omitted, f, last), NextContinues(fs[..|fs| - 1]));
    }
  }

  // ----- what holds between the steps of a run without errors

  function Bottom(fs: seq<Frame>, f: Frame): nat {
    if fs == [] then f.rule else fs[0].rule
  }

  /** The root starts at 0 unless it can be left out. */
  predicate ZeroRoot(t: Tables, root: nat) {
    root !in t.omitted
  }

  ghost predicate Building(g: Grammar, t: Tables, root: nat, m: Machine, tokens: seq<Token>,
                           fs: seq<Frame>, f: Frame, last: Deriv) {
    && Holding(g, t, m, fs, f, last) && Bottom(fs, f) == root
    && ReadSoFar(fs, f, last) == tokens && StartsOk(ZeroRoot(t, root), fs, f, last) && TypesOk(t, fs, f, last)
  }

  function RootFrame(t: Tables, root: nat, start: nat): Frame {
    Frame(root, start, root !in t.omitted, [])
  }

  /** Nothing has been read yet. */
  ghost predicate Begun(g: Grammar, t: Tables, root: nat, m: Machine) {
    && m.stack == [StackNode(root, 0, 0, StateId(root, 0), 0, Plain, false)]
    && m.tree == (if root in t.omitted then [] else [InternalNode(0, root, 0, 0)])
    && StateId(root, 0) in g.states
  }

  /** A derivation of the tokens from the root, and its flat tree. */
  ghost predicate IsParse(t: Tables, root: nat, tokens: seq<Token>, nodes: seq<InternalNode>, d: Deriv) {
    && Label(d) == Nonterminal(root) && Derives(t, d) && Filled(d) && Yield(d) == tokens
    && Spans(d, ZeroRoot(t, root)) && LeafTypes(t, d, false)
    && nodes == Encode(Collapse(t.omitted, d), 0)
  }

  /** What the parser has built: nothing, the finished subtrees of the open
      nodes, or the whole derivation. */
  datatype Work = Nothing | Subtrees(fs: seq<Frame>, f: Frame, last: Deriv) | Finished(d: Deriv)

  /** What a plan makes of it, with a leaf of this label. */
  function PlanWork(t: Tables, root: nat, w: Work, plan: Plan, token: Token, kind: TransitionType): Work {
    var leaf := DLeaf(kind, plan.type_, token);
    match w
    case Nothing =>
      var f := RootFrame(t, root, if root in t.omitted then token.startIndex else 0);
      var (fs', f') := Pushed(t.omitted, [], f, plan.pushes, token);
      Subtrees(fs', f', leaf)
    case Subtrees(fs, f, last) =>
      var (fs', f') := Applied(t.omitted, fs, f, last, plan, token);
      Subtrees(fs', f', leaf)
    case Finished(_) => w
  }

  /** What ending the top node makes of it. */
  function EndWork(t: Tables, w: Work): Work {
    match w
    case Subtrees(fs, f, last) =>
      var closed := Closed(t.omitted, f, last);
      if fs == [] then Finished(closed) else Subtrees(fs[..|fs| - 1], fs[|fs| - 1], closed)
    case _ => w
  }

  /** The plan for the token is carried out, its leaf having a label that it reads. */
  ghost predicate PlanStep(g: Grammar, t: Tables, root: nat, m: Machine, token: Token, plan: Plan, w: Work, w': Work)
  {
    m.stack != [] &&
    var id := m.Tos().state;
    && id.rule in t.dfas && id.index < |t.dfas[id.rule]|
    && exists kind :: PlanReads(t, id, token.transition, plan, kind) && w' == PlanWork(t, root, w, plan, token, kind)
  }

  /** What a step makes of it. */
  ghost predicate WorkStep(g: Grammar, t: Tables, root: nat, s: Status, w: Work, w': Work) {
    match s
    case Idle(m) => w' == if m.stack != [] && NextOf(m.buffer).1.None? then EndWork(t, w) else w
    case Pending(m, token) =>
      if m.stack == [] then w' == w
      else
        var plan := g.Lookup(m.Tos().state, token.transition);
        if plan.None? then w' == EndWork(t, w)
        else if PlanApplies(g, m, plan.value) then PlanStep(g, t, root, m, token, plan.value, w, w')
        else w' == w
    case _ => w' == w
  }

  ghost predicate HasBuilt(g: Grammar, t: Tables, root: nat, m: Machine, tokens: seq<Token>, w: Work) {
    match w
    case Nothing => tokens == [] && Begun(g, t, root, m)
    case Subtrees(fs, f, last) => m.stack != [] && Building(g, t, root, m, tokens, fs, f, last)
    case Finished(d) => m.stack == [] && IsParse(t, root, tokens, m.tree, d)
  }

  ghost predicate Sound(g: Grammar, t: Tables, all: seq<Token>, root: nat, s: Status, w: Work) {
    match s
    case Idle(m) =>
      && Consistent(all, m.buffer) && m.buffer.tokens == [] && 0 <= Cursor(all, m.buffer) <= |all|
      && HasBuilt(g, t, root, m, all[..Cursor(all, m.buffer)], w)
      && (m.stack == [] ==> Cursor(all, m.buffer) == |all|)
    case Pending(m, token) =>
      && Consistent(all, m.buffer) && m.buffer.tokens == []
      && 0 < Cursor(all, m.buffer) <= |all| && token == all[Cursor(all, m.buffer) - 1]
      && HasBuilt(g, t, root, m, all[..Cursor(all, m.buffer) - 1], w)
    case Done(nodes) => w.Finished? && IsParse(t, root, all, nodes, w.d)
    case Panicked => true
  }

  /** The step does not need error recovery. */
  predicate NoError(g: Grammar, s: Status) {
    match s
    case Idle(m) => m.stack == [] || NextOf(m.buffer).1.Some? || g.Info(m.Tos().state).isFinal
    case Pending(m, token) =>
      m.stack == [] || g.Lookup(m.Tos().state, token.transition).Some? || g.Info(m.Tos().state).isFinal
    case _ => true
  }

  // ----- the first plan

  lemma FirstPlanAwaits(g: Grammar, t: Tables, root: nat, m: Machine, start: nat, plan: Plan, kind: TransitionType,
                        key: nat)
    requires GrammarSound(g, t) && Begun(g, t, root, m) && PlanApplies(g, m, plan)
    requires StateSound(g, t, StateId(root, 0)) && PlanReads(t, StateId(root, 0), key, plan, kind)
    requires start == 0 || root in t.omitted
    ensures Awaiting(g, t, Prepare(g, m, plan), [], RootFrame(t, root, start), FirstLabel(plan.pushes, kind))
    ensures Prepare(g, m, plan).buffer == m.buffer
  {
    var f, l := RootFrame(t, root, start), FirstLabel(plan.pushes, kind);
    var m' := Prepare(g, m, plan);
    assert StateSound(g, t, plan.next);
    assert Labels([]) + [l] == [l];
    RunOne(t.dfas[root], 0, l);
    assert Lower(t.omitted, []) == [];
    LowerSnoc(t.omitted, [], f);
    assert Part(t.omitted, f) == Heading(f);
    assert Lower(t.omitted, [] + [f]) == m.tree;
    OpenSnoc(g, t, m'.stack, [], f, 0, l);
  }

  lemma FirstPlanBuilds(g: Grammar, t: Tables, root: nat, m: Machine, plan: Plan, token: Token, kind: TransitionType)
    returns (w: Work)
    requires GrammarSound(g, t) && Begun(g, t, root, m) && PlanApplies(g, m, plan)
    requires StateSound(g, t, StateId(root, 0)) && PlanReads(t, StateId(root, 0), token.transition, plan, kind)
    ensures HasBuilt(g, t, root, ApplyPlan(g, m, plan, token), [] + [token], w)
    ensures w == PlanWork(t, root, Nothing, plan, token, kind)
    ensures ApplyPlan(g, m, plan, token).buffer == m.buffer
  {
    var f := RootFrame(t, root, if root in t.omitted then token.startIndex else 0);
    var leaf := DLeaf(kind, plan.type_, token);
    assert StateSound(g, t, plan.next);
    FirstPlanAwaits(g, t, root, m, f.start, plan, kind, token.transition);
    PlanPushes(g, t, Prepare(g, m, plan), [], f, StateId(root, 0), plan, token, kind);
    var (fs', f') := Pushed(t.omitted, [], f, plan.pushes, token);
    assert plan.mode == LL && t.HasType(kind, plan.type_);
    FirstBuilding(g, t, root, ApplyPlan(g, m, plan, token), f, plan.pushes, token, leaf);
    w := Subtrees(fs', f', leaf);
  }

  lemma FirstBuilding(g: Grammar, t: Tables, root: nat, m: Machine, f: Frame, pushes: seq<Push>, token: Token,
                      leaf: Deriv)
    requires f == RootFrame(t, root, if root in t.omitted then token.startIndex else 0)
    requires leaf.DLeaf? && leaf.token == token && t.HasType(leaf.kind, leaf.type_) && Direct(root, true, pushes)
    requires var (fs', f') := Pushed(t.omitted, [], f, pushes, token); Holding(g, t, m, fs', f', leaf)
    ensures var (fs', f') := Pushed(t.omitted, [], f, pushes, token);
            Building(g, t, root, m, [] + [token], fs', f', leaf)
  {
    PushedYield(t.omitted, [], f, pushes, token);
    PushedBottom(t.omitted, [], f, pushes, token);
    FirstStarts(t, root, f, pushes, token, leaf);
    FirstTypes(t, f, pushes, token, leaf);
  }

  lemma FirstTypes(t: Tables, f: Frame, pushes: seq<Push>, token: Token, leaf: Deriv)
    requires f.kids == [] && leaf.DLeaf? && t.HasType(leaf.kind, leaf.type_)
    ensures var (fs', f') := Pushed(t.omitted, [], f, pushes, token); TypesOk(t, fs', f', leaf)
  {
    SnocTypes(t, [], f);
    PushedTypes(t, [], f, pushes, token);
    var (fs', f') := Pushed(t.omitted, [], f, pushes, token);
    LeafHasType(t, fs', f', leaf);
  }

  lemma FirstStarts(t: Tables, root: nat, f: Frame, pushes: seq<Push>, token: Token, leaf: Deriv)
    requires f == RootFrame(t, root, if root in t.omitted then token.startIndex else 0)
    requires leaf.DLeaf? && leaf.token == token && Direct(root, true, pushes)
    ensures var (fs', f') := Pushed(t.omitted, [], f, pushes, token); StartsOk(ZeroRoot(t, root), fs', f', leaf)
  {
    assert ([] + [f])[..0] == [];
    PushedStarts(t.omitted, ZeroRoot(t, root), [], f, pushes, token);
    var (fs', f') := Pushed(t.omitted, [], f, pushes, token);
    LeafStarts(ZeroRoot(t, root), fs', f', leaf);
  }

  lemma {:induction false} PushedBottom(omitted: set<nat>, fs: seq<Frame>, f: Frame, pushes: seq<Push>, token: Token)
    ensures var (fs', f') := Pushed(omitted, fs, f, pushes, token); Bottom(fs', f') == Bottom(fs, f)
    decreases |pushes|
  {
    if pushes != [] {
      PushedBottom(omitted, fs + [f], NewFrame(omitted, pushes[0], token), pushes[1..], token);
    }
  }

  // ----- the other steps

  lemma LaterPlanBuilds(g: Grammar, t: Tables, root: nat, m: Machine, tokens: seq<Token>,
                        fs: seq<Frame>, f: Frame, last: Deriv, plan: Plan, token: Token, kind: TransitionType)
    returns (w: Work)
    requires GrammarSound(g, t) && Building(g, t, root, m, tokens, fs, f, last) && Short(tokens)
    requires PlanApplies(g, m, plan) && m.Tos().state in g.states && StateSound(g, t, m.Tos().state)
    requires PlanReads(t, m.Tos().state, token.transition, plan, kind)
    ensures HasBuilt(g, t, root, ApplyPlan(g, m, plan, token), tokens + [token], w)
    ensures w == PlanWork(t, root, Subtrees(fs, f, last), plan, token, kind)
    ensures ApplyPlan(g, m, plan, token).buffer == m.buffer
  {
    var leaf := DLeaf(kind, plan.type_, token);
    var (fs', f') := Applied(t.omitted, fs, f, last, plan, token);
    ShortSuffix(FramesYield(fs) + YieldAll(f.kids), Yield(last));
    PlanHolds(g, t, m, fs, f, last, plan, token, kind);
    AppliedYield(t.omitted, fs, f, last, plan, token, leaf);
    OpenTop(g, t, m.stack, fs, f, 1, Label(last));
    DirectLater(f.rule, m.Tos().state.index == 0, plan.pushes);
    AppliedStarts(t.omitted, ZeroRoot(t, root), fs, f, last, plan, token, leaf);
    AppliedTypes(t, fs, f, last, plan, token, kind);
    PushedBottom(t.omitted, fs, Prepared(t.omitted, f, last, plan.mode == LeftRecursive), plan.pushes, token);
    w := Subtrees(fs', f', leaf);
  }

  lemma ShortSuffix(a: seq<Token>, b: seq<Token>)
    requires Short(a + b)
    ensures Short(b)
  {
    forall i | 0 <= i < |b|
      ensures b[i].length < 0x1_0000_0000
    {
      assert (a + b)[|a| + i] == b[i];
    }
  }

  lemma EndIsBuilt(g: Grammar, t: Tables, root: nat, m: Machine, tokens: seq<Token>,
                   fs: seq<Frame>, f: Frame, last: Deriv) returns (m': Machine, w: Work)
    requires GrammarSound(g, t) && Building(g, t, root, m, tokens, fs, f, last) && Short(tokens)
    requires m.stack != [] && g.Info(m.Tos().state).isFinal
    ensures EndOfNode(m) == Ok(m') && m'.buffer == m.buffer
    ensures HasBuilt(g, t, root, m', tokens, w)
    ensures var closed := Closed(t.omitted, f, last);
            w == if fs == [] then Finished(closed) else Subtrees(fs[..|fs| - 1], fs[|fs| - 1], closed)
  {
    ShortSuffix(FramesYield(fs) + YieldAll(f.kids), Yield(last));
    EndHolds(g, t, m, fs, f, last);
    m' := EndOfNode(m).value;
    var closed := Closed(t.omitted, f, last);
    EndedYield(t.omitted, fs, f, last);
    OpenTop(g, t, m.stack, fs, f, 1, Label(last));
    EndedStarts(t.omitted, ZeroRoot(t, root), fs, f, last);
    EndedTypes(t, fs, f, last);
    w := if fs == [] then Finished(closed) else Subtrees(fs[..|fs| - 1], fs[|fs| - 1], closed);
  }

  lemma EndBuilds(g: Grammar, t: Tables, root: nat, m: Machine, tokens: seq<Token>,
                  fs: seq<Frame>, f: Frame, last: Deriv) returns (m': Machine, w: Work)
    requires GrammarSound(g, t) && Building(g, t, root, m, tokens, fs, f, last) && Short(tokens)
    requires m.stack != [] && g.Info(m.Tos().state).isFinal
    ensures EndOfNode(m) == Ok(m') && m'.buffer == m.buffer
    ensures HasBuilt(g, t, root, m', tokens, w) && w == EndWork(t, Subtrees(fs, f, last))
  {
    m', w := EndIsBuilt(g, t, root, m, tokens, fs, f, last);
  }

  lemma OneMore(all: seq<Token>, n: nat)
    requires n < |all|
    ensures all[..n] + [all[n]] == all[..n + 1]
    ensures Short(all) ==> Short(all[..n])
  {
  }

  // Putting the pieces of `Sound` together, whatever the machine is.

  lemma BufferKeeps(g: Grammar, t: Tables, root: nat, m: Machine, tokens: seq<Token>, w: Work, buffer: Buffer)
    requires HasBuilt(g, t, root, m, tokens, w)
    ensures HasBuilt(g, t, root, m.(buffer := buffer), tokens, w)
  {
  }

  lemma IdleAgain(g: Grammar, t: Tables, all: seq<Token>, root: nat, m: Machine, read: seq<Token>, w: Work)
    requires Consistent(all, m.buffer) && m.buffer.tokens == []
    requires 0 <= Cursor(all, m.buffer) <= |all| && read == all[..Cursor(all, m.buffer)]
    requires HasBuilt(g, t, root, m, read, w) && (m.stack == [] ==> read == all)
    ensures Sound(g, t, all, root, Idle(m), w)
  {
  }

  lemma PendingAgain(g: Grammar, t: Tables, all: seq<Token>, root: nat, m: Machine, token: Token, read: seq<Token>,
                     w: Work)
    requires Consistent(all, m.buffer) && m.buffer.tokens == []
    requires 0 < Cursor(all, m.buffer) <= |all| && token == all[Cursor(all, m.buffer) - 1]
    requires read == all[..Cursor(all, m.buffer) - 1] && HasBuilt(g, t, root, m, read, w)
    ensures Sound(g, t, all, root, Pending(m, token), w)
  {
  }

  /** A final state is reached only when something has been built. */
  lemma FinalHasBuilt(g: Grammar, t: Tables, root: nat, m: Machine, tokens: seq<Token>, w: Work)
    requires GrammarSound(g, t) && HasBuilt(g, t, root, m, tokens, w)
    requires m.stack != [] && g.Info(m.Tos().state).isFinal
    ensures w.Subtrees?
  {
    assert StateSound(g, t, m.Tos().state);
  }

  lemma IdleSound(g: Grammar, t: Tables, all: seq<Token>, root: nat, m: Machine, w: Work) returns (w': Work)
    requires GrammarSound(g, t) && Short(all) && Sound(g, t, all, root, Idle(m), w) && NoError(g, Idle(m))
    ensures Sound(g, t, all, root, StepIdle(g, m), w') && WorkStep(g, t, root, Idle(m), w, w')
  {
    w' := w;
    if m.stack == [] {
      assert all[..|all|] == all;
    } else {
      NextAtCursor(all, m.buffer);
      var (buffer, token) := NextOf(m.buffer);
      var m', read := m.(buffer := buffer), all[..Cursor(all, m.buffer)];
      BufferKeeps(g, t, root, m, read, w, buffer);
      if token.None? {
        w' := EndOfInput(g, t, all, root, m', w);
      } else {
        PendingAgain(g, t, all, root, m', token.value, read, w);
      }
    }
  }

  lemma EndOfInput(g: Grammar, t: Tables, all: seq<Token>, root: nat, m: Machine, w: Work) returns (w': Work)
    requires GrammarSound(g, t) && Short(all) && m.stack != [] && g.Info(m.Tos().state).isFinal
    requires Consistent(all, m.buffer) && m.buffer.tokens == [] && Cursor(all, m.buffer) == |all|
    requires HasBuilt(g, t, root, m, all[..|all|], w)
    ensures EndOfNode(m).Ok? && Sound(g, t, all, root, Idle(EndOfNode(m).value), w') && w' == EndWork(t, w)
  {
    FinalHasBuilt(g, t, root, m, all[..|all|], w);
    var m';
    m', w' := EndBuilds(g, t, root, m, all[..|all|], w.fs, w.f, w.last);
    IdleAgain(g, t, all, root, m', all[..|all|], w');
  }

  lemma PendingSound(g: Grammar, t: Tables, all: seq<Token>, root: nat, m: Machine, token: Token, w: Work)
    returns (w': Work)
    requires GrammarSound(g, t) && Short(all) && Sound(g, t, all, root, Pending(m, token), w)
             && NoError(g, Pending(m, token))
    ensures Sound(g, t, all, root, StepPending(g, m, token), w')
    ensures WorkStep(g, t, root, Pending(m, token), w, w')
  {
    w' := w;
    if m.stack != [] {
      var plan := g.Lookup(m.Tos().state, token.transition);
      if plan.Some? {
        w' := PlanStepSound(g, t, all, root, m, token, plan.value, w);
      } else {
        OneMore(all, Cursor(all, m.buffer) - 1);
        w' := EndStepSound(g, t, all, root, m, token, all[..Cursor(all, m.buffer) - 1], w);
      }
    }
  }

  lemma KnownState(g: Grammar, t: Tables, root: nat, m: Machine, tokens: seq<Token>, w: Work)
    requires HasBuilt(g, t, root, m, tokens, w) && m.stack != []
    ensures m.Tos().state in g.states && (w.Nothing? ==> m.Tos().state == StateId(root, 0))
  {
  }

  lemma PlanBuilds(g: Grammar, t: Tables, root: nat, m: Machine, read: seq<Token>, token: Token, plan: Plan,
                   kind: TransitionType, w: Work)
    returns (w': Work)
    requires GrammarSound(g, t) && HasBuilt(g, t, root, m, read, w) && Short(read) && m.stack != []
    requires PlanApplies(g, m, plan) && m.Tos().state in g.states && StateSound(g, t, m.Tos().state)
    requires PlanReads(t, m.Tos().state, token.transition, plan, kind)
    ensures HasBuilt(g, t, root, ApplyPlan(g, m, plan, token), read + [token], w')
    ensures ApplyPlan(g, m, plan, token).buffer == m.buffer && w' == PlanWork(t, root, w, plan, token, kind)
  {
    if w.Nothing? {
      w' := FirstPlanBuilds(g, t, root, m, plan, token, kind);
    } else {
      w' := LaterPlanBuilds(g, t, root, m, read, w.fs, w.f, w.last, plan, token, kind);
    }
  }

  /** A plan, read with a label of choice. */
  lemma PlanWithKind(g: Grammar, t: Tables, all: seq<Token>, root: nat, m: Machine, token: Token, plan: Plan,
                     kind: TransitionType, w: Work)
    returns (w': Work)
    requires GrammarSound(g, t) && Short(all) && Sound(g, t, all, root, Pending(m, token), w)
    requires m.stack != [] && g.Lookup(m.Tos().state, token.transition) == Some(plan) && PlanApplies(g, m, plan)
    requires m.Tos().state in g.states && StateSound(g, t, m.Tos().state)
    requires PlanReads(t, m.Tos().state, token.transition, plan, kind)
    ensures Sound(g, t, all, root, Idle(ApplyPlan(g, m, plan, token)), w')
    ensures w' == PlanWork(t, root, w, plan, token, kind)
  {
    var read := all[..Cursor(all, m.buffer) - 1];
    OneMore(all, Cursor(all, m.buffer) - 1);
    w' := PlanBuilds(g, t, root, m, read, token, plan, kind, w);
    IdleAgain(g, t, all, root, ApplyPlan(g, m, plan, token), read + [token], w');
  }

  lemma PlanStepSound(g: Grammar, t: Tables, all: seq<Token>, root: nat, m: Machine, token: Token, plan: Plan, w: Work)
    returns (w': Work)
    requires GrammarSound(g, t) && Short(all) && Sound(g, t, all, root, Pending(m, token), w)
    requires m.stack != [] && g.Lookup(m.Tos().state, token.transition) == Some(plan)
    ensures plan.mode != PositivePeek
    ensures PlanApplies(g, m, plan) ==>
              Sound(g, t, all, root, Idle(ApplyPlan(g, m, plan, token)), w')
              && PlanStep(g, t, root, m, token, plan, w, w')
    ensures !PlanApplies(g, m, plan) ==> w' == w
  {
    var id, read := m.Tos().state, all[..Cursor(all, m.buffer) - 1];
    KnownState(g, t, root, m, read, w);
    assert StateSound(g, t, id);
    var kind :| PlanReads(t, id, token.transition, plan, kind);
    w' := w;
    if PlanApplies(g, m, plan) {
      w' := PlanWithKind(g, t, all, root, m, token, plan, kind, w);
    }
  }

  lemma EndReads(g: Grammar, t: Tables, root: nat, m: Machine, read: seq<Token>, w: Work)
    returns (m': Machine, w': Work)
    requires GrammarSound(g, t) && HasBuilt(g, t, root, m, read, w) && Short(read)
    requires m.stack != [] && g.Info(m.Tos().state).isFinal
    ensures EndOfNode(m) == Ok(m') && m'.buffer == m.buffer && HasBuilt(g, t, root, m', read, w')
    ensures w' == EndWork(t, w)
  {
    FinalHasBuilt(g, t, root, m, read, w);
    m', w' := EndBuilds(g, t, root, m, read, w.fs, w.f, w.last);
  }

  lemma EndStepSound(g: Grammar, t: Tables, all: seq<Token>, root: nat, m: Machine, token: Token, read: seq<Token>,
                     w: Work)
    returns (w': Work)
    requires GrammarSound(g, t) && HasBuilt(g, t, root, m, read, w) && Short(read)
    requires Consistent(all, m.buffer) && m.buffer.tokens == []
    requires 0 < Cursor(all, m.buffer) <= |all| && token == all[Cursor(all, m.buffer) - 1]
    requires read == all[..Cursor(all, m.buffer) - 1] && m.stack != [] && g.Info(m.Tos().state).isFinal
    ensures EndOfNode(m).Ok? && Sound(g, t, all, root, Pending(EndOfNode(m).value, token), w')
    ensures w' == EndWork(t, w) && EndOfNode(m).value.buffer == m.buffer
  {
    var m';
    m', w' := EndReads(g, t, root, m, read, w);
    PendingAgain(g, t, all, root, m', token, read, w');
  }

  lemma StartBegun(g: Grammar, t: Tables, all: seq<Token>, root: nat)
    requires StateId(root, 0) in g.states && StateSound(g, t, StateId(root, 0))
    ensures Start(g, root, all).Idle? && Begun(g, t, root, Start(g, root, all).machine)
    ensures Start(g, root, all).machine.buffer == Fresh(all)
  {
  }

  lemma FreshConsistent(all: seq<Token>)
    ensures Consistent(all, Fresh(all)) && Cursor(all, Fresh(all)) == 0 && all[..0] == []
  {
    assert all[|all| - |all|..] == all;
  }

  lemma BegunSound(g: Grammar, t: Tables, all: seq<Token>, root: nat, m: Machine)
    requires Begun(g, t, root, m) && m.buffer == Fresh(all)
    ensures Sound(g, t, all, root, Idle(m), Nothing)
  {
    FreshConsistent(all);
    IdleAgain(g, t, all, root, m, [], Nothing);
  }

  lemma StartSound(g: Grammar, t: Tables, all: seq<Token>, root: nat)
    requires GrammarSound(g, t) && StateId(root, 0) in g.states
    ensures Sound(g, t, all, root, Start(g, root, all), Nothing)
  {
    assert StateSound(g, t, StateId(root, 0));
    StartBegun(g, t, all, root);
    BegunSound(g, t, all, root, Start(g, root, all).machine);
  }

  lemma StepSound(g: Grammar, t: Tables, all: seq<Token>, root: nat, s: Status, w: Work) returns (w': Work)
    requires GrammarSound(g, t) && Short(all) && Sound(g, t, all, root, s, w) && NoError(g, s)
    ensures Sound(g, t, all, root, Step(g, s), w') && WorkStep(g, t, root, s, w, w')
  {
    match s
    case Idle(m) => w' := IdleSound(g, t, all, root, m, w);
    case Pending(m, token) => w' := PendingSound(g, t, all, root, m, token, w);
    case _ => w' := w;
  }

  /** None of the first `n` steps needs error recovery. */
  ghost predicate NoErrors(g: Grammar, s: Status, n: nat) {
    AllAlong(g, (s': Status) => NoError(g, s'), s, n)
  }

  lemma TwoSteps(g: Grammar, s: Status, mid: Status, end: Status)
    requires Step(g, s) == mid && Step(g, mid) == end && NoError(g, s) && NoError(g, mid)
    ensures Run(g, s, 2) == end && NoErrors(g, s, 2)
  {
    assert Run(g, s, 1) == Run(g, mid, 0);
    assert Run(g, s, 2) == Run(g, mid, 1) == Run(g, end, 0);
    forall k: nat | k < 2
      ensures NoError(g, Run(g, s, k))
    {
      assert k == 0 || k == 1;
    }
  }

  lemma ErrorFreeJoin(g: Grammar, s: Status, i: nat, j: nat)
    requires NoErrors(g, s, i) && NoErrors(g, Run(g, s, i), j)
    ensures Run(g, s, i + j) == Run(g, Run(g, s, i), j) && NoErrors(g, s, i + j)
  {
    RunJoin(g, s, i, j);
    var ok := (s': Status) => NoError(g, s');
    forall k: nat | k < i + j
      ensures ok(Run(g, s, k))
    {
      if k < i {
        assert AllAlong(g, ok, s, i);
      } else {
        RunJoin(g, s, i, k - i);
        assert AllAlong(g, ok, Run(g, s, i), j);
        assert ok(Run(g, Run(g, s, i), k - i));
      }
    }
  }

  /** The parser has built something sound. */
  ghost predicate Justified(g: Grammar, t: Tables, all: seq<Token>, root: nat, s: Status) {
    exists w :: Sound(g, t, all, root, s, w)
  }

  lemma StepJustified(g: Grammar, t: Tables, all: seq<Token>, root: nat, s: Status)
    requires GrammarSound(g, t) && Short(all) && Justified(g, t, all, root, s) && NoError(g, s)
    ensures Justified(g, t, all, root, Step(g, s))
  {
    var w :| Sound(g, t, all, root, s, w);
    var w' := StepSound(g, t, all, root, s, w);
    assert Sound(g, t, all, root, Step(g, s), w');
  }

  lemma RunJustified(g: Grammar, t: Tables, all: seq<Token>, root: nat, s: Status, n: nat)
    requires GrammarSound(g, t) && Short(all) && Justified(g, t, all, root, s) && NoErrors(g, s, n)
    ensures Justified(g, t, all, root, Run(g, s, n))
  {
    var p := (s': Status) => Justified(g, t, all, root, s');
    var ok := (s': Status) => NoError(g, s');
    forall s' | p(s') && ok(s')
      ensures p(Step(g, s'))
    {
      StepJustified(g, t, all, root, s');
    }
    RunKeeps(g, p, ok, s, n);
  }

  ghost predicate Parsed(t: Tables, root: nat, tokens: seq<Token>, nodes: seq<InternalNode>) {
    exists d :: IsParse(t, root, tokens, nodes, d)
  }

  /** A run without errors that ends yields the flat tree of a derivation: the
      leaves are the tokens, in order, the children of each node spell a word
      that the table of its rule accepts, a node left out stands for its only
      child, and the array is the preorder array of the tree with exact offsets. */
  lemma ParserIsSound(g: Grammar, t: Tables, all: seq<Token>, root: nat, n: nat)
    requires GrammarSound(g, t) && Short(all) && StateId(root, 0) in g.states
    requires NoErrors(g, Start(g, root, all), n)
    ensures Run(g, Start(g, root, all), n).Done? ==> Parsed(t, root, all, Run(g, Start(g, root, all), n).nodes)
  {
    StartSound(g, t, all, root);
    assert Sound(g, t, all, root, Start(g, root, all), Nothing);
    var end := Run(g, Start(g, root, all), n);
    RunJustified(g, t, all, root, Start(g, root, all), n);
    if end.Done? {
      var w :| Sound(g, t, all, root, end, w);
      assert IsParse(t, root, all, end.nodes, w.d);
    }
  }
}
