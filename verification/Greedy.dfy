/** The parser is greedy: as long as there is a plan for the next token it goes on,
    and only then it ends a node. What that means for the derivation it finds. */
module Greedy {
  import opened Rules
  import opened Trees
  import opened ReplayBuffer
  import opened Parsing
  import opened Derivations
  import opened Plans
  import opened TreeBuilding
  import opened Soundness
  import opened ErrorFreeRuns
  import Powerset

  // ----- greedy derivations

  function FirstLeaf(d: Deriv): Deriv
    decreases d
  {
    if d.DLeaf? || d.kids == [] then d else FirstLeaf(d.kids[0])
  }

  function TokenOf(leaf: Deriv): Token {
    if leaf.DLeaf? then leaf.token else Token(0, 0, 0)
  }

  /** The rules that are entered on the way to the first leaf. A node of left recursion
      is made later, around the one that it begins with. */
  function Spine(d: Deriv): seq<nat>
    decreases d
  {
    match d
    case DLeaf(_, _, _) => []
    case DNode(rule, _, kids) =>
      if kids == [] then [rule] else if IsOf(kids[0], rule) then Spine(kids[0]) else [rule] + Spine(kids[0])
  }

  function RulesOf(pushes: seq<Push>): seq<nat> {
    if pushes == [] then [] else [pushes[0].nodeType] + RulesOf(pushes[1..])
  }

  /** Where a rule's table stands after these children. */
  function StateAfter(t: Tables, rule: nat, kids: seq<Deriv>): StateId {
    if rule in t.dfas then
      match Powerset.Run(t.dfas[rule], 0, Labels(kids))
      case Some(i) => StateId(rule, i)
      case None => StateId(rule, 0)
    else StateId(rule, 0)
  }

  /** The children are one node of the same rule, with which left recursion begins. */
  predicate IsWrapped(rule: nat, kids: seq<Deriv>) {
    |kids| == 1 && IsOf(kids[0], rule)
  }

  /** The state in which the plan for the next child is looked up: with left recursion,
      that of the first child itself. */
  function PlanState(t: Tables, rule: nat, kids: seq<Deriv>): StateId {
    if IsWrapped(rule, kids) then StateAfter(t, rule, kids[0].kids) else StateAfter(t, rule, kids)
  }

  /** The plan for the token of a leaf enters these rules. */
  ghost predicate EnteredBy(g: Grammar, t: Tables, from: StateId, wrapped: bool, leaf: Deriv, spine: seq<nat>) {
    && leaf.DLeaf? && from.rule in t.dfas && from.index < |t.dfas[from.rule]|
    && var plan := g.Lookup(from, leaf.token.transition);
       && plan.Some? && (plan.value.mode == LeftRecursive <==> wrapped) && RulesOf(plan.value.pushes) == spine
       && PlanReads(t, from, leaf.token.transition, plan.value, leaf.kind)
  }

  /** The token behind the i-th child. */
  function FollowOf(kids: seq<Deriv>, i: nat, follow: Option<Token>): Option<Token> {
    if i + 1 < |kids| then Some(TokenOf(FirstLeaf(kids[i + 1]))) else follow
  }

  /** Each node ends only where its state has no plan for the token that follows,
      unless it is the first child of a node of its rule, which goes on by such a
      plan; and each further child is entered by the plan for its first token. */
  ghost predicate IsGreedy(g: Grammar, t: Tables, d: Deriv, follow: Option<Token>, wrapped: bool)
    decreases d, 1
  {
    d.DNode? ==>
      && (d.kids != [] && IsOf(d.kids[0], d.rule) ==> |d.kids| > 1)
      && (follow.Some? && !wrapped ==> g.Lookup(StateAfter(t, d.rule, d.kids), follow.value.transition).None?)
      && AllGreedy(g, t, d.rule, d.kids, follow)
  }

  ghost predicate AllGreedy(g: Grammar, t: Tables, rule: nat, kids: seq<Deriv>, follow: Option<Token>)
    decreases kids, 0
  {
    forall i :: 0 <= i < |kids| ==>
      && IsGreedy(g, t, kids[i], FollowOf(kids, i, follow), i == 0 && IsOf(kids[i], rule))
      && (i > 0 ==> IsEntered(g, t, rule, kids[..i], kids[i]))
  }

  ghost predicate IsEntered(g: Grammar, t: Tables, rule: nat, before: seq<Deriv>, kid: Deriv) {
    EnteredBy(g, t, PlanState(t, rule, before), IsWrapped(rule, before), FirstLeaf(kid), Spine(kid))
  }

  /** The root's own plan for the first token. */
  ghost predicate RootEntered(g: Grammar, t: Tables, root: nat, leaf: Deriv, spine: seq<nat>) {
    spine != [] && spine[0] == root && EnteredBy(g, t, StateId(root, 0), false, leaf, spine[1..])
  }

  ghost predicate GreedyFrom(g: Grammar, t: Tables, root: nat, d: Deriv, follow: Option<Token>) {
    RootEntered(g, t, root, FirstLeaf(d), Spine(d)) && IsGreedy(g, t, d, follow, false)
  }

  // ----- what has been built is greedy

  function SpineOf(rule: nat, kids: seq<Deriv>): seq<nat>
    requires kids != []
  {
    if IsOf(kids[0], rule) then Spine(kids[0]) else [rule] + Spine(kids[0])
  }

  /** The open nodes below one that begins with this leaf and these rules. */
  ghost predicate LowerGreedy(g: Grammar, t: Tables, root: nat, fs: seq<Frame>, leaf: Deriv, spine: seq<nat>)
    decreases |fs|
  {
    if fs == [] then RootEntered(g, t, root, leaf, spine)
    else
      var n := |fs| - 1;
      var f := fs[n];
      && AllGreedy(g, t, f.rule, f.kids, Some(TokenOf(leaf)))
      && if f.kids == [] then LowerGreedy(g, t, root, fs[..n], leaf, [f.rule] + spine)
         else
           && EnteredBy(g, t, PlanState(t, f.rule, f.kids), IsWrapped(f.rule, f.kids), leaf, spine)
           && LowerGreedy(g, t, root, fs[..n], FirstLeaf(f.kids[0]), SpineOf(f.rule, f.kids))
  }

  ghost predicate TreesGreedy(g: Grammar, t: Tables, root: nat, fs: seq<Frame>, f: Frame, last: Deriv,
                              follow: Option<Token>)
  {
    var kids := f.kids + [last];
    && AllGreedy(g, t, f.rule, kids, follow)
    && LowerGreedy(g, t, root, fs, FirstLeaf(kids[0]), SpineOf(f.rule, kids))
  }

  ghost predicate WorkGreedy(g: Grammar, t: Tables, root: nat, w: Work, follow: Option<Token>) {
    match w
    case Nothing => true
    case Subtrees(fs, f, last) => TreesGreedy(g, t, root, fs, f, last, follow)
    case Finished(d) => GreedyFrom(g, t, root, d, follow)
  }

  lemma SnocGreedy(g: Grammar, t: Tables, root: nat, fs: seq<Frame>, f: Frame, leaf: Deriv, spine: seq<nat>)
    ensures LowerGreedy(g, t, root, fs + [f], leaf, spine)
       <==> && AllGreedy(g, t, f.rule, f.kids, Some(TokenOf(leaf)))
            && if f.kids == [] then LowerGreedy(g, t, root, fs, leaf, [f.rule] + spine)
               else
                 && EnteredBy(g, t, PlanState(t, f.rule, f.kids), IsWrapped(f.rule, f.kids), leaf, spine)
                 && LowerGreedy(g, t, root, fs, FirstLeaf(f.kids[0]), SpineOf(f.rule, f.kids))
  {
    assert (fs + [f])[..|fs|] == fs;
  }

  /** One more child: the token behind the children so far is its first one. */
  lemma GreedyAppended(g: Grammar, t: Tables, rule: nat, kids: seq<Deriv>, d: Deriv, follow: Option<Token>)
    requires AllGreedy(g, t, rule, kids, Some(TokenOf(FirstLeaf(d))))
    requires IsGreedy(g, t, d, follow, kids == [] && IsOf(d, rule))
    requires kids != [] ==> IsEntered(g, t, rule, kids, d)
    ensures AllGreedy(g, t, rule, kids + [d], follow)
  {
    var ds := kids + [d];
    forall i | 0 <= i < |ds|
      ensures IsGreedy(g, t, ds[i], FollowOf(ds, i, follow), i == 0 && IsOf(ds[i], rule))
      ensures i > 0 ==> IsEntered(g, t, rule, ds[..i], ds[i])
    {
      assert ds[..i] == if i < |kids| then kids[..i] else kids;
      assert i < |kids| ==> FollowOf(ds, i, follow) == FollowOf(kids, i, Some(TokenOf(FirstLeaf(d))));
    }
  }

  lemma {:induction false} PushedGreedy(g: Grammar, t: Tables, root: nat, fs: seq<Frame>, f: Frame, pushes: seq<Push>,
                                        token: Token, leaf: Deriv)
    requires LowerGreedy(g, t, root, fs + [f], leaf, RulesOf(pushes))
    ensures var (fs', f') := Pushed(t.omitted, fs, f, pushes, token); LowerGreedy(g, t, root, fs' + [f'], leaf, [])
    decreases |pushes|
  {
    if pushes != [] {
      var nf := NewFrame(t.omitted, pushes[0], token);
      SnocGreedy(g, t, root, fs + [f], nf, leaf, RulesOf(pushes[1..]));
      PushedGreedy(g, t, root, fs + [f], nf, pushes[1..], token, leaf);
    }
  }

  lemma LeafGreedy(g: Grammar, t: Tables, root: nat, fs: seq<Frame>, f: Frame, leaf: Deriv, follow: Option<Token>)
    requires leaf.DLeaf? && LowerGreedy(g, t, root, fs + [f], leaf, [])
    ensures TreesGreedy(g, t, root, fs, f, leaf, follow)
  {
    SnocGreedy(g, t, root, fs, f, leaf, []);
    GreedyAppended(g, t, f.rule, f.kids, leaf, follow);
    assert (f.kids + [leaf])[0] == if f.kids == [] then leaf else f.kids[0];
    assert [f.rule] + Spine(leaf) == [f.rule] + [];
  }

  // ----- a plan

  /** The top frame when the plan's leaf comes behind its newest child. */
  lemma PreparedGreedy(g: Grammar, t: Tables, root: nat, fs: seq<Frame>, f: Frame, last: Deriv, leaf: Deriv,
                       wrapped: bool, spine: seq<nat>)
    requires leaf.DLeaf? && TreesGreedy(g, t, root, fs, f, last, Some(leaf.token)) && NotItself(f, last)
    requires EnteredBy(g, t, StateAfter(t, f.rule, f.kids + [last]), wrapped, leaf, spine)
    ensures LowerGreedy(g, t, root, fs + [Prepared(t.omitted, f, last, wrapped)], leaf, spine)
  {
    var kids, f1 := f.kids + [last], Prepared(t.omitted, f, last, wrapped);
    SnocGreedy(g, t, root, fs, f1, leaf, spine);
    assert kids[0] == if f.kids == [] then last else f.kids[0];
    if wrapped {
      var closed := Closed(t.omitted, f, last);
      assert IsGreedy(g, t, closed, Some(leaf.token), true);
      assert f1.kids == [closed] && AllGreedy(g, t, f.rule, [closed], Some(leaf.token));
    }
  }

  lemma PlanGreedy(g: Grammar, t: Tables, root: nat, fs: seq<Frame>, f: Frame, last: Deriv, plan: Plan, token: Token,
                   kind: TransitionType, follow: Option<Token>)
    requires TreesGreedy(g, t, root, fs, f, last, Some(token)) && NotItself(f, last)
    requires var from := StateAfter(t, f.rule, f.kids + [last]);
             && from.rule in t.dfas && from.index < |t.dfas[from.rule]|
             && g.Lookup(from, token.transition) == Some(plan) && PlanReads(t, from, token.transition, plan, kind)
    ensures var (fs', f') := Applied(t.omitted, fs, f, last, plan, token);
            TreesGreedy(g, t, root, fs', f', DLeaf(kind, plan.type_, token), follow)
  {
    var leaf := DLeaf(kind, plan.type_, token);
    var f1 := Prepared(t.omitted, f, last, plan.mode == LeftRecursive);
    PreparedGreedy(g, t, root, fs, f, last, leaf, plan.mode == LeftRecursive, RulesOf(plan.pushes));
    PushedGreedy(g, t, root, fs, f1, plan.pushes, token, leaf);
    var (fs', f') := Applied(t.omitted, fs, f, last, plan, token);
    LeafGreedy(g, t, root, fs', f', leaf, follow);
  }

  lemma FirstGreedy(g: Grammar, t: Tables, root: nat, plan: Plan, token: Token, kind: TransitionType,
                    follow: Option<Token>)
    requires root in t.dfas && 0 < |t.dfas[root]| && g.Lookup(StateId(root, 0), token.transition) == Some(plan)
    requires PlanReads(t, StateId(root, 0), token.transition, plan, kind) && plan.mode != LeftRecursive
    ensures WorkGreedy(g, t, root, PlanWork(t, root, Nothing, plan, token, kind), follow)
  {
    var leaf := DLeaf(kind, plan.type_, token);
    var f := RootFrame(t, root, if root in t.omitted then token.startIndex else 0);
    assert ([root] + RulesOf(plan.pushes))[1..] == RulesOf(plan.pushes);
    SnocGreedy(g, t, root, [], f, leaf, RulesOf(plan.pushes));
    PushedGreedy(g, t, root, [], f, plan.pushes, token, leaf);
    var (fs', f') := Pushed(t.omitted, [], f, plan.pushes, token);
    LeafGreedy(g, t, root, fs', f', leaf, follow);
  }

  // ----- the end of a node

  lemma ClosedGreedy(g: Grammar, t: Tables, root: nat, fs: seq<Frame>, f: Frame, last: Deriv, follow: Option<Token>)
    requires TreesGreedy(g, t, root, fs, f, last, follow) && NotItself(f, last)
    requires follow.Some? ==> g.Lookup(StateAfter(t, f.rule, f.kids + [last]), follow.value.transition).None?
    ensures var closed := Closed(t.omitted, f, last);
            && IsGreedy(g, t, closed, follow, false)
            && FirstLeaf(closed) == FirstLeaf((f.kids + [last])[0]) && Spine(closed) == SpineOf(f.rule, f.kids + [last])
  {
    var kids := f.kids + [last];
    assert kids[0] == if f.kids == [] then last else f.kids[0];
  }

  /** A finished node is one more child of the node below. */
  lemma KidGreedy(g: Grammar, t: Tables, root: nat, fs: seq<Frame>, lower: Frame, closed: Deriv, follow: Option<Token>)
    requires IsGreedy(g, t, closed, follow, false) && NotItself(lower, closed)
    requires LowerGreedy(g, t, root, fs + [lower], FirstLeaf(closed), Spine(closed))
    ensures TreesGreedy(g, t, root, fs, lower, closed, follow)
  {
    SnocGreedy(g, t, root, fs, lower, FirstLeaf(closed), Spine(closed));
    GreedyAppended(g, t, lower.rule, lower.kids, closed, follow);
    assert (lower.kids + [closed])[0] == if lower.kids == [] then closed else lower.kids[0];
  }

  lemma EndGreedy(g: Grammar, t: Tables, root: nat, fs: seq<Frame>, f: Frame, last: Deriv, follow: Option<Token>)
    requires TreesGreedy(g, t, root, fs, f, last, follow) && NotItself(f, last)
    requires follow.Some? ==> g.Lookup(StateAfter(t, f.rule, f.kids + [last]), follow.value.transition).None?
    requires fs != [] ==> NotItself(fs[|fs| - 1], Closed(t.omitted, f, last))
    ensures WorkGreedy(g, t, root, EndWork(t, Subtrees(fs, f, last)), follow)
  {
    ClosedGreedy(g, t, root, fs, f, last, follow);
    var closed := Closed(t.omitted, f, last);
    if fs == [] {
      assert EndWork(t, Subtrees(fs, f, last)) == Finished(closed);
    } else {
      var n := |fs| - 1;
      assert fs == fs[..n] + [fs[n]];
      KidGreedy(g, t, root, fs[..n], fs[n], closed, follow);
      assert EndWork(t, Subtrees(fs, f, last)) == Subtrees(fs[..n], fs[n], closed);
    }
  }

  // ----- every step

  /** The token that comes behind all that has been parsed. */
  function Follow(all: seq<Token>, s: Status): Option<Token> {
    match s
    case Idle(m) => if 0 <= Cursor(all, m.buffer) < |all| then Some(all[Cursor(all, m.buffer)]) else None
    case Pending(_, token) => Some(token)
    case _ => None
  }

  ghost predicate StatusGreedy(g: Grammar, t: Tables, root: nat, all: seq<Token>, s: Status, w: Work) {
    WorkGreedy(g, t, root, w, Follow(all, s))
  }

  /** The top stack node is in the state that its children lead to. */
  lemma TopState(g: Grammar, t: Tables, root: nat, m: Machine, read: seq<Token>, fs: seq<Frame>, f: Frame, last: Deriv)
    requires GrammarSound(g, t) && HasBuilt(g, t, root, m, read, Subtrees(fs, f, last))
    ensures m.stack != [] && m.Tos().state == StateAfter(t, f.rule, f.kids + [last]) && m.Tos().state in g.states
    ensures f.rule in t.dfas && m.Tos().state.rule == f.rule && m.Tos().state.index < |t.dfas[f.rule]|
    ensures StateSound(g, t, m.Tos().state)
  {
    OpenTop(g, t, m.stack, fs, f, 1, Label(last));
    LabelsAppend(f.kids, last);
    assert StateSound(g, t, m.Tos().state);
  }

  /** What the order of starts says: no open node but one of left recursion begins
      with a node of its own rule. */
  lemma NotItselfBelow(t: Tables, root: nat, fs: seq<Frame>, f: Frame, last: Deriv)
    requires StartsOk(ZeroRoot(t, root), fs, f, last)
    ensures NotItself(f, last) && (fs != [] ==> NotItself(fs[|fs| - 1], Closed(t.omitted, f, last)))
  {
  }

  lemma EndStepGreedy(g: Grammar, t: Tables, root: nat, m: Machine, read: seq<Token>, w: Work, follow: Option<Token>)
    requires GrammarSound(g, t) && HasBuilt(g, t, root, m, read, w) && w.Subtrees? && m.stack != []
    requires WorkGreedy(g, t, root, w, follow)
    requires follow.Some? ==> g.Lookup(m.Tos().state, follow.value.transition).None?
    ensures WorkGreedy(g, t, root, EndWork(t, w), follow)
  {
    TopState(g, t, root, m, read, w.fs, w.f, w.last);
    NotItselfBelow(t, root, w.fs, w.f, w.last);
    EndGreedy(g, t, root, w.fs, w.f, w.last, follow);
  }

  lemma PlanStepGreedy(g: Grammar, t: Tables, root: nat, m: Machine, read: seq<Token>, token: Token, plan: Plan,
                       w: Work, w': Work, follow: Option<Token>)
    requires GrammarSound(g, t) && HasBuilt(g, t, root, m, read, w) && m.stack != []
    requires g.Lookup(m.Tos().state, token.transition) == Some(plan)
    requires WorkGreedy(g, t, root, w, Some(token)) && PlanStep(g, t, root, m, token, plan, w, w')
    ensures WorkGreedy(g, t, root, w', follow)
  {
    KnownState(g, t, root, m, read, w);
    assert StateSound(g, t, m.Tos().state);
    var kind :| PlanReads(t, m.Tos().state, token.transition, plan, kind)
                && w' == PlanWork(t, root, w, plan, token, kind);
    if w.Nothing? {
      FirstGreedy(g, t, root, plan, token, kind, follow);
    } else {
      TopState(g, t, root, m, read, w.fs, w.f, w.last);
      NotItselfBelow(t, root, w.fs, w.f, w.last);
      PlanGreedy(g, t, root, w.fs, w.f, w.last, plan, token, kind, follow);
    }
  }

  /** Reading a token or ending a node leaves what follows as it is. */
  lemma FollowStays(g: Grammar, all: seq<Token>, m: Machine)
    requires Consistent(all, m.buffer) && 0 <= Cursor(all, m.buffer) <= |all| && NoError(g, Idle(m))
    requires m.stack == [] ==> Cursor(all, m.buffer) == |all|
    ensures StepIdle(g, m).Panicked? || Follow(all, StepIdle(g, m)) == Follow(all, Idle(m))
    ensures m.stack != [] && NextOf(m.buffer).1.None? ==> Follow(all, Idle(m)) == None
  {
    if m.stack != [] {
      NextAtCursor(all, m.buffer);
      var m' := m.(buffer := NextOf(m.buffer).0);
      if NextOf(m.buffer).1.None? && EndOfNode(m').Ok? {
        EndIsShorter(all, m');
      }
    }
  }

  lemma IdleEndGreedy(g: Grammar, t: Tables, root: nat, m: Machine, read: seq<Token>, w: Work)
    requires GrammarSound(g, t) && HasBuilt(g, t, root, m, read, w) && m.stack != [] && g.Info(m.Tos().state).isFinal
    requires WorkGreedy(g, t, root, w, None)
    ensures WorkGreedy(g, t, root, EndWork(t, w), None)
  {
    FinalHasBuilt(g, t, root, m, read, w);
    EndStepGreedy(g, t, root, m, read, w, None);
  }

  lemma IdleGreedy(g: Grammar, t: Tables, all: seq<Token>, root: nat, m: Machine, w: Work, w': Work)
    requires GrammarSound(g, t) && Sound(g, t, all, root, Idle(m), w) && NoError(g, Idle(m))
    requires StatusGreedy(g, t, root, all, Idle(m), w) && WorkStep(g, t, root, Idle(m), w, w')
    ensures StepIdle(g, m).Panicked? || StatusGreedy(g, t, root, all, StepIdle(g, m), w')
  {
    FollowStays(g, all, m);
    if m.stack != [] && NextOf(m.buffer).1.None? {
      IdleEndGreedy(g, t, root, m, all[..Cursor(all, m.buffer)], w);
    }
  }

  lemma NoPeek(g: Grammar, t: Tables, root: nat, m: Machine, read: seq<Token>, token: Token, w: Work)
    requires GrammarSound(g, t) && HasBuilt(g, t, root, m, read, w) && m.stack != []
    ensures var plan := g.Lookup(m.Tos().state, token.transition); plan.Some? ==> plan.value.mode != PositivePeek
  {
    KnownState(g, t, root, m, read, w);
    assert StateSound(g, t, m.Tos().state);
  }

  lemma PendingGreedy(g: Grammar, t: Tables, all: seq<Token>, root: nat, m: Machine, token: Token, w: Work, w': Work)
    requires GrammarSound(g, t) && Sound(g, t, all, root, Pending(m, token), w) && NoError(g, Pending(m, token))
    requires StatusGreedy(g, t, root, all, Pending(m, token), w) && WorkStep(g, t, root, Pending(m, token), w, w')
    ensures StepPending(g, m, token).Panicked? || StatusGreedy(g, t, root, all, StepPending(g, m, token), w')
  {
    if m.stack != [] {
      var read, plan := all[..Cursor(all, m.buffer) - 1], g.Lookup(m.Tos().state, token.transition);
      if plan.None? {
        FinalHasBuilt(g, t, root, m, read, w);
        EndStepGreedy(g, t, root, m, read, w, Some(token));
      } else if PlanApplies(g, m, plan.value) {
        NoPeek(g, t, root, m, read, token, w);
        PlanStepGreedy(g, t, root, m, read, token, plan.value, w, w', Follow(all, StepPending(g, m, token)));
      }
    }
  }

  lemma StepGreedy(g: Grammar, t: Tables, all: seq<Token>, root: nat, s: Status, w: Work, w': Work)
    requires GrammarSound(g, t) && Sound(g, t, all, root, s, w) && NoError(g, s)
    requires StatusGreedy(g, t, root, all, s, w) && WorkStep(g, t, root, s, w, w')
    ensures Step(g, s).Panicked? || StatusGreedy(g, t, root, all, Step(g, s), w')
  {
    match s
    case Idle(m) => IdleGreedy(g, t, all, root, m, w, w');
    case Pending(m, token) => PendingGreedy(g, t, all, root, m, token, w, w');
    case _ =>
  }

  // ----- whole runs

  /** What the parser has built is sound and greedy, and it goes on. */
  ghost predicate GreedySoFar(g: Grammar, t: Tables, all: seq<Token>, root: nat, s: Status) {
    !s.Panicked? && exists w :: Sound(g, t, all, root, s, w) && StatusGreedy(g, t, root, all, s, w)
  }

  lemma OverOrGreedy(g: Grammar, t: Tables, all: seq<Token>, root: nat, s: Status)
    requires GrammarSound(g, t) && Short(all) && GreedySoFar(g, t, all, root, s) && NoError(g, s) && !IsOver(s)
    ensures GreedySoFar(g, t, all, root, Step(g, s))
            && Left(all, Step(g, s), MostPushes(g)) < Left(all, s, MostPushes(g))
  {
    var w :| Sound(g, t, all, root, s, w) && StatusGreedy(g, t, root, all, s, w);
    StepGetsNearer(g, t, all, root, s, w);
    PanicsOnInputLeft(g, t, all, root, s, w);
    var w' := StepSound(g, t, all, root, s, w);
    StepGreedy(g, t, all, root, s, w, w');
    assert Sound(g, t, all, root, Step(g, s), w') && StatusGreedy(g, t, root, all, Step(g, s), w');
  }

  /** A parse of the first tokens that is greedy with the next one in view. */
  ghost predicate GreedyParse(g: Grammar, t: Tables, root: nat, all: seq<Token>, prefix: nat, nodes: seq<InternalNode>,
                              d: Deriv)
  {
    && prefix <= |all| && IsParse(t, root, all[..prefix], nodes, d)
    && GreedyFrom(g, t, root, d, if prefix < |all| then Some(all[prefix]) else None)
  }

  lemma PrefixIsGreedy(g: Grammar, t: Tables, all: seq<Token>, root: nat, m: Machine, token: Token, w: Work)
    requires Sound(g, t, all, root, Pending(m, token), w) && WorkGreedy(g, t, root, w, Some(token)) && m.stack == []
    ensures w.Finished? && Cursor(all, m.buffer) <= |all|
    ensures GreedyParse(g, t, root, all, Cursor(all, m.buffer) - 1, m.tree, w.d)
  {
  }

  lemma DoneIsGreedy(g: Grammar, t: Tables, all: seq<Token>, root: nat, nodes: seq<InternalNode>, w: Work)
    requires Sound(g, t, all, root, Done(nodes), w) && WorkGreedy(g, t, root, w, None)
    ensures w.Finished? && GreedyParse(g, t, root, all, |all|, nodes, w.d)
  {
    assert all[..|all|] == all;
  }

  /** From there the run panics. */
  lemma LeftPanics(g: Grammar, s: Status, n: nat)
    requires s.Pending? && s.machine.stack == [] && n > 0
    ensures Run(g, s, n) == Panicked
  {
    RunOnce(g, s, n);
    RunDone(g, Step(g, s), n - 1);
  }

  /** From there the run stays as it is, or panics. */
  lemma GreedyEnds(g: Grammar, t: Tables, all: seq<Token>, root: nat, s: Status, n: nat)
    returns (prefix: nat, nodes: seq<InternalNode>, d: Deriv)
    requires GreedySoFar(g, t, all, root, s) && IsOver(s) && n > 0
    ensures GreedyParse(g, t, root, all, prefix, nodes, d)
    ensures Run(g, s, n) == if prefix == |all| then Done(nodes) else Panicked
  {
    var w :| Sound(g, t, all, root, s, w) && StatusGreedy(g, t, root, all, s, w);
    if s.Done? {
      DoneIsGreedy(g, t, all, root, s.nodes, w);
      RunDone(g, s, n);
      prefix, nodes, d := |all|, s.nodes, w.d;
    } else {
      PrefixIsGreedy(g, t, all, root, s.machine, s.token, w);
      LeftPanics(g, s, n);
      prefix, nodes, d := Cursor(all, s.machine.buffer) - 1, s.machine.tree, w.d;
    }
  }

  /** A run without errors ends with a greedy derivation: of all tokens, or of those
      before the one that it panics at. */
  lemma ErrorFreeIsGreedy(g: Grammar, t: Tables, all: seq<Token>, root: nat)
    returns (prefix: nat, nodes: seq<InternalNode>, d: Deriv)
    requires GrammarSound(g, t) && Short(all) && StateId(root, 0) in g.states
    requires NoErrors(g, Start(g, root, all), Steps(g, all))
    ensures GreedyParse(g, t, root, all, prefix, nodes, d)
    ensures Run(g, Start(g, root, all), Steps(g, all)) == if prefix == |all| then Done(nodes) else Panicked
  {
    var s, n := Start(g, root, all), Steps(g, all);
    StartSound(g, t, all, root);
    assert Sound(g, t, all, root, s, Nothing) && StatusGreedy(g, t, root, all, s, Nothing);
    StartIsWithin(g, all, root);
    var p := (s': Status) => GreedySoFar(g, t, all, root, s');
    var ok := (s': Status) => NoError(g, s');
    var left := (s': Status) => Left(all, s', MostPushes(g));
    forall s' | p(s') && ok(s') && !IsOver(s')
      ensures p(Step(g, s')) && left(Step(g, s')) < left(s')
    {
      OverOrGreedy(g, t, all, root, s');
    }
    var mid, rest := RunGetsOver(g, p, ok, IsOver, left, s, n, Run(g, s, n));
    prefix, nodes, d := GreedyEnds(g, t, all, root, mid, rest);
  }
}
