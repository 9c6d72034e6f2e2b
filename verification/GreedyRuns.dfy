/** A greedy derivation by the plans is what the parser finds: it follows the
    derivation from one token to the next, and never meets an error. */
module GreedyRuns {
  import opened Rules
  import opened Trees
  import opened ReplayBuffer
  import opened Parsing
  import opened Derivations
  import opened Plans
  import opened TreeBuilding
  import opened Soundness
  import opened ErrorFreeRuns
  import opened Greedy
  import Powerset

  // ----- a derivation cut behind one of its leaves or nodes

  predicate EndsWith(rest: seq<Token>, tail: seq<Token>) {
    |tail| <= |rest| && rest[|rest| - |tail|..] == tail
  }

  function Front(rest: seq<Token>, tail: seq<Token>): seq<Token>
    requires EndsWith(rest, tail)
  {
    rest[..|rest| - |tail|]
  }

  /** The open nodes `fr`, from the outermost on, with `last` as the newest child of
      the innermost, are what there is of the derivation before the tokens `rest`.
      Of nodes that are of one rule, each the first child of the next, only the
      innermost is there so far. */
  ghost predicate Cut(x: Deriv, fr: seq<Frame>, last: Deriv, rest: seq<Token>)
    decreases x, 1
  {
    if fr == [] then x == last && rest == []
    else x.DNode? && (CutHere(x, fr, last, rest) || CutInside(x, fr, last, rest))
  }

  /** The outermost open node is this one. */
  ghost predicate CutHere(x: Deriv, fr: seq<Frame>, last: Deriv, rest: seq<Token>)
    requires fr != [] && x.DNode?
    decreases x, 0
  {
    var i := |fr[0].kids|;
    && fr[0].rule == x.rule && fr[0].start == x.start && i < |x.kids| && fr[0].kids == x.kids[..i]
    && !(i == 0 && IsOf(x.kids[0], x.rule))
    && EndsWith(rest, YieldAll(x.kids[i + 1..]))
    && Cut(x.kids[i], fr[1..], last, Front(rest, YieldAll(x.kids[i + 1..])))
  }

  /** The node will be made around its first child later. */
  ghost predicate CutInside(x: Deriv, fr: seq<Frame>, last: Deriv, rest: seq<Token>)
    requires fr != [] && x.DNode?
    decreases x, 0
  {
    && x.kids != [] && IsOf(x.kids[0], x.rule)
    && EndsWith(rest, YieldAll(x.kids[1..]))
    && Cut(x.kids[0], fr, last, Front(rest, YieldAll(x.kids[1..])))
  }

  lemma JoinedEnds(a: seq<Token>, tail: seq<Token>)
    ensures EndsWith(a + tail, tail) && Front(a + tail, tail) == a
  {
  }

  lemma CutAt(x: Deriv, i: nat, fr: seq<Frame>, last: Deriv, rest: seq<Token>)
    requires x.DNode? && i < |x.kids| && fr != [] && fr[0].rule == x.rule && fr[0].start == x.start
    requires fr[0].kids == x.kids[..i] && !(i == 0 && IsOf(x.kids[0], x.rule)) && Cut(x.kids[i], fr[1..], last, rest)
    ensures Cut(x, fr, last, rest + YieldAll(x.kids[i + 1..]))
  {
    JoinedEnds(rest, YieldAll(x.kids[i + 1..]));
    assert CutHere(x, fr, last, rest + YieldAll(x.kids[i + 1..]));
  }

  lemma CutWithin(x: Deriv, fr: seq<Frame>, last: Deriv, rest: seq<Token>)
    requires x.DNode? && x.kids != [] && IsOf(x.kids[0], x.rule) && fr != [] && Cut(x.kids[0], fr, last, rest)
    ensures Cut(x, fr, last, rest + YieldAll(x.kids[1..]))
  {
    JoinedEnds(rest, YieldAll(x.kids[1..]));
    assert CutInside(x, fr, last, rest + YieldAll(x.kids[1..]));
  }

  lemma EndsJoined(rest: seq<Token>, tail: seq<Token>)
    requires EndsWith(rest, tail)
    ensures rest == Front(rest, tail) + tail
  {
  }

  // ----- the open nodes after a plan

  function NewFrames(omitted: set<nat>, pushes: seq<Push>, token: Token): (fr: seq<Frame>)
    ensures |fr| == |pushes|
  {
    if pushes == [] then [] else [NewFrame(omitted, pushes[0], token)] + NewFrames(omitted, pushes[1..], token)
  }

  lemma {:induction false} PushedIsAppended(omitted: set<nat>, fs: seq<Frame>, f: Frame, pushes: seq<Push>,
                                            token: Token)
    ensures var (fs', f') := Pushed(omitted, fs, f, pushes, token);
            fs' + [f'] == fs + [f] + NewFrames(omitted, pushes, token)
    decreases |pushes|
  {
    if pushes != [] {
      var nf := NewFrame(omitted, pushes[0], token);
      PushedIsAppended(omitted, fs + [f], nf, pushes[1..], token);
      assert fs + [f] + [nf] + NewFrames(omitted, pushes[1..], token)
          == fs + [f] + ([nf] + NewFrames(omitted, pushes[1..], token));
    }
  }

  function TopOf(fr: seq<Frame>): Frame
    requires fr != []
  {
    fr[|fr| - 1]
  }

  function AppliedTo(omitted: set<nat>, fr: seq<Frame>, last: Deriv, plan: Plan, token: Token): seq<Frame>
    requires fr != []
  {
    fr[..|fr| - 1] + ([Prepared(omitted, TopOf(fr), last, plan.mode == LeftRecursive)]
                      + NewFrames(omitted, plan.pushes, token))
  }

  // ----- first leaves

  lemma {:induction false} FirstOfYield(d: Deriv)
    requires Filled(d)
    ensures FirstLeaf(d).DLeaf? && Yield(d) != [] && Yield(d)[0] == FirstLeaf(d).token
    ensures FirstStart(d) == FirstLeaf(d).token.startIndex
    decreases d
  {
    if d.DNode? {
      FirstOfYield(d.kids[0]);
    }
  }

  lemma FirstOfRest(ds: seq<Deriv>, i: nat)
    requires i < |ds| && Filled(ds[i])
    ensures YieldAll(ds[i..]) == Yield(ds[i]) + YieldAll(ds[i + 1..])
    ensures FirstLeaf(ds[i]).DLeaf? && Yield(ds[i]) != [] && YieldAll(ds[i..]) != []
            && YieldAll(ds[i..])[0] == TokenOf(FirstLeaf(ds[i]))
    ensures YieldAll(ds[i..])[1..] == Yield(ds[i])[1..] + YieldAll(ds[i + 1..])
  {
    assert ds[i..][1..] == ds[i + 1..];
    FirstOfYield(ds[i]);
  }

  lemma {:induction false} FirstLeafTypes(t: Tables, d: Deriv, continued: bool)
    requires LeafTypes(t, d, continued) && Filled(d)
    ensures LeafTypes(t, FirstLeaf(d), continued)
    decreases d
  {
    if d.DNode? {
      assert AllTypes(t, d.rule, d.kids, continued);
      FirstLeafTypes(t, d.kids[0], Continues(d.rule, d.kids, 0, continued));
    }
  }

  /** The leaf that a plan makes is the one of the derivation. */
  lemma SameLeaf(g: Grammar, t: Tables, from: StateId, wrapped: bool, d: Deriv, spine: seq<nat>)
    requires Filled(d) && LeafTypes(t, d, wrapped) && EnteredBy(g, t, from, wrapped, FirstLeaf(d), spine)
    ensures var leaf := FirstLeaf(d);
            var plan := g.Lookup(from, leaf.token.transition).value;
            leaf == DLeaf(leaf.kind, plan.type_, leaf.token)
  {
    FirstLeafTypes(t, d, wrapped);
  }

  // ----- the nodes that a plan opens

  lemma {:induction false} SpineNotEmpty(d: Deriv)
    requires d.DNode?
    ensures Spine(d) != []
    decreases d
  {
    if d.kids != [] && IsOf(d.kids[0], d.rule) {
      SpineNotEmpty(d.kids[0]);
    }
  }

  /** The rules entered on the way to the first leaf, as open nodes. */
  lemma {:induction false} SpineCut(omitted: set<nat>, x: Deriv, pushes: seq<Push>, token: Token)
    requires Filled(x) && Spans(x, false) && RulesOf(pushes) == Spine(x) && token == TokenOf(FirstLeaf(x))
    ensures Yield(x) != [] && Cut(x, NewFrames(omitted, pushes, token), FirstLeaf(x), Yield(x)[1..])
    decreases x, 1
  {
    FirstOfYield(x);
    if x.DNode? {
      SpineNotEmpty(x);
      if IsOf(x.kids[0], x.rule) {
        KidSpans(x.rule, x.start, x.kids, false, 0);
        SpineCut(omitted, x.kids[0], pushes, token);
        WrappedCut(x, NewFrames(omitted, pushes, token));
      } else {
        assert RulesOf(pushes)[0] == Spine(x)[0] == x.rule;
        RootCut(omitted, x, false, NewFrame(omitted, pushes[0], token), pushes[1..], token);
      }
    }
  }

  lemma WrappedCut(x: Deriv, fr: seq<Frame>)
    requires Filled(x) && x.DNode? && IsOf(x.kids[0], x.rule) && fr != []
    requires Yield(x.kids[0]) != [] && Cut(x.kids[0], fr, FirstLeaf(x.kids[0]), Yield(x.kids[0])[1..])
    ensures Yield(x) != [] && Cut(x, fr, FirstLeaf(x), Yield(x)[1..])
  {
    CutWithin(x, fr, FirstLeaf(x), Yield(x.kids[0])[1..]);
    FirstOfRest(x.kids, 0);
    assert x.kids[0..] == x.kids;
  }

  lemma HereCut(x: Deriv, fr: seq<Frame>)
    requires Filled(x) && x.DNode? && !IsOf(x.kids[0], x.rule) && fr != []
    requires fr[0].rule == x.rule && fr[0].start == x.start && fr[0].kids == []
    requires Yield(x.kids[0]) != [] && Cut(x.kids[0], fr[1..], FirstLeaf(x.kids[0]), Yield(x.kids[0])[1..])
    ensures Yield(x) != [] && Cut(x, fr, FirstLeaf(x), Yield(x)[1..])
  {
    CutAt(x, 0, fr, FirstLeaf(x), Yield(x.kids[0])[1..]);
    FirstOfRest(x.kids, 0);
    assert x.kids[0..] == x.kids;
  }

  /** The same for a node whose frame is given, like the root, which may start at 0. */
  lemma {:induction false} RootCut(omitted: set<nat>, x: Deriv, zero: bool, f: Frame, pushes: seq<Push>, token: Token)
    requires Filled(x) && x.DNode? && Spans(x, zero) && Spine(x) == [x.rule] + RulesOf(pushes)
    requires token == TokenOf(FirstLeaf(x)) && f.rule == x.rule && f.kids == []
    requires f.start == if zero then 0 else token.startIndex
    ensures Yield(x) != [] && Cut(x, [f] + NewFrames(omitted, pushes, token), FirstLeaf(x), Yield(x)[1..])
    decreases x, 0
  {
    FirstOfYield(x);
    KidSpans(x.rule, x.start, x.kids, zero, 0);
    FirstOfYield(x.kids[0]);
    var fr := [f] + NewFrames(omitted, pushes, token);
    if IsOf(x.kids[0], x.rule) {
      RootCut(omitted, x.kids[0], zero, f, pushes, token);
      WrappedCut(x, fr);
    } else {
      assert Spine(x)[1..] == Spine(x.kids[0]) && ([x.rule] + RulesOf(pushes))[1..] == RulesOf(pushes);
      SpineCut(omitted, x.kids[0], pushes, token);
      assert fr[1..] == NewFrames(omitted, pushes, token);
      HereCut(x, fr);
    }
  }

  // ----- what comes next

  /** A part of a greedy parse. */
  ghost predicate IsPart(g: Grammar, t: Tables, x: Deriv, zero: bool, continued: bool, follow: Option<Token>,
                         wrapped: bool)
  {
    && Derives(t, x) && Filled(x) && Spans(x, zero) && LeafTypes(t, x, continued)
    && IsGreedy(g, t, x, follow, wrapped)
  }

  lemma PartOfPart(g: Grammar, t: Tables, x: Deriv, zero: bool, continued: bool, follow: Option<Token>, wrapped: bool,
                   i: nat)
    requires IsPart(g, t, x, zero, continued, follow, wrapped) && x.DNode? && i < |x.kids|
    ensures IsPart(g, t, x.kids[i], zero && i == 0 && IsOf(x.kids[i], x.rule),
                   Continues(x.rule, x.kids, i, continued), FollowOf(x.kids, i, follow),
                   i == 0 && IsOf(x.kids[i], x.rule))
    ensures i > 0 ==> IsEntered(g, t, x.rule, x.kids[..i], x.kids[i])
  {
    KidSpans(x.rule, x.start, x.kids, zero, i);
    assert AllTypes(t, x.rule, x.kids, continued) && AllGreedy(g, t, x.rule, x.kids, follow);
  }

  function Upcoming(rest: seq<Token>, follow: Option<Token>): Option<Token> {
    if rest != [] then Some(rest[0]) else follow
  }

  function CutState(t: Tables, fr: seq<Frame>, last: Deriv): StateId
    requires fr != []
  {
    StateAfter(t, TopOf(fr).rule, TopOf(fr).kids + [last])
  }

  /** The plan for the next token leads on in the derivation, by a certain label. */
  ghost predicate PlanGoesOn(g: Grammar, t: Tables, x: Deriv, fr: seq<Frame>, last: Deriv, rest: seq<Token>,
                             kind: TransitionType)
    requires fr != []
  {
    rest != [] &&
    var token, from := rest[0], CutState(t, fr, last);
    && from.rule in t.dfas && from.index < |t.dfas[from.rule]|
    && var plan := g.Lookup(from, token.transition);
       && plan.Some? && PlanReads(t, from, token.transition, plan.value, kind)
       && Cut(x, AppliedTo(t.omitted, fr, last, plan.value, token), DLeaf(kind, plan.value.type_, token), rest[1..])
  }

  predicate IsFinalState(t: Tables, id: StateId) {
    id.rule in t.dfas && id.index < |t.dfas[id.rule]| && t.dfas[id.rule][id.index].isFinal
  }

  /** There is no plan, and ending the innermost node leads on. */
  ghost predicate EndGoesOn(g: Grammar, t: Tables, x: Deriv, fr: seq<Frame>, last: Deriv, rest: seq<Token>,
                            follow: Option<Token>)
    requires fr != []
  {
    var next, id := Upcoming(rest, follow), CutState(t, fr, last);
    && (next.Some? ==> g.Lookup(id, next.value.transition).None?) && IsFinalState(t, id)
    && Cut(x, fr[..|fr| - 1], Closed(t.omitted, TopOf(fr), last), rest)
  }

  /** The derivation is complete but for the end of its own node. */
  ghost predicate IsComplete(t: Tables, x: Deriv, fr: seq<Frame>, last: Deriv, rest: seq<Token>) {
    |fr| == 1 && rest == [] && x.DNode? && Closed(t.omitted, fr[0], last) == x
  }

  ghost predicate GoesOn(g: Grammar, t: Tables, x: Deriv, fr: seq<Frame>, last: Deriv, rest: seq<Token>,
                         follow: Option<Token>)
    requires fr != []
  {
    (exists kind :: PlanGoesOn(g, t, x, fr, last, rest, kind)) || EndGoesOn(g, t, x, fr, last, rest, follow)
  }

  /** A node that is complete and not the first child of one of its rule ends. */
  lemma CompleteEnds(g: Grammar, t: Tables, x: Deriv, zero: bool, continued: bool, follow: Option<Token>,
                     fr: seq<Frame>, last: Deriv, rest: seq<Token>)
    requires IsPart(g, t, x, zero, continued, follow, false) && IsComplete(t, x, fr, last, rest)
    ensures EndGoesOn(g, t, x, fr, last, rest, follow)
  {
    assert fr[..|fr| - 1] == [];
  }

  // ----- from a child to its node

  lemma AppliedBelow(omitted: set<nat>, f: Frame, inner: seq<Frame>, last: Deriv, plan: Plan, token: Token)
    requires inner != []
    ensures var after := AppliedTo(omitted, [f] + inner, last, plan, token);
            after != [] && after[0] == f && after[1..] == AppliedTo(omitted, inner, last, plan, token)
  {
    var fr, n := [f] + inner, |inner| - 1;
    var after := AppliedTo(omitted, fr, last, plan, token);
    assert fr[..n + 1] == [f] + inner[..n] && fr[n + 1] == inner[n];
    assert after == [f] + AppliedTo(omitted, inner, last, plan, token);
  }

  /** Below the outermost node, the cut goes on with that of a child. */
  lemma CutBehind(x: Deriv, i: nat, f: Frame, after: seq<Frame>, leaf: Deriv, r: seq<Token>)
    requires x.DNode? && i < |x.kids| && after != [] && after[0] == f && f.rule == x.rule && f.start == x.start
    requires f.kids == x.kids[..i] && !(i == 0 && IsOf(x.kids[0], x.rule)) && r != []
             && Cut(x.kids[i], after[1..], leaf, r[1..])
    ensures var rest := r + YieldAll(x.kids[i + 1..]); rest != [] && rest[0] == r[0] && Cut(x, after, leaf, rest[1..])
  {
    CutAt(x, i, after, leaf, r[1..]);
    assert (r + YieldAll(x.kids[i + 1..]))[1..] == r[1..] + YieldAll(x.kids[i + 1..]);
  }

  lemma LiftPlan(g: Grammar, t: Tables, x: Deriv, fr: seq<Frame>, last: Deriv, rest: seq<Token>, kind: TransitionType)
    requires x.DNode? && fr != [] && |fr| > 1 && CutHere(x, fr, last, rest)
    requires PlanGoesOn(g, t, x.kids[|fr[0].kids|], fr[1..], last, Front(rest, YieldAll(x.kids[|fr[0].kids| + 1..])),
                        kind)
    ensures PlanGoesOn(g, t, x, fr, last, rest, kind)
  {
    var i, inner := |fr[0].kids|, fr[1..];
    var r := Front(rest, YieldAll(x.kids[i + 1..]));
    EndsJoined(rest, YieldAll(x.kids[i + 1..]));
    assert fr == [fr[0]] + inner && CutState(t, inner, last) == CutState(t, fr, last);
    LiftPlanBy(g, t, x, i, fr[0], inner, last, r, kind);
  }

  lemma LiftPlanBy(g: Grammar, t: Tables, x: Deriv, i: nat, f: Frame, inner: seq<Frame>, last: Deriv, r: seq<Token>,
                   kind: TransitionType)
    requires x.DNode? && i < |x.kids| && f.rule == x.rule && f.start == x.start && inner != []
    requires f.kids == x.kids[..i] && !(i == 0 && IsOf(x.kids[0], x.rule))
    requires PlanGoesOn(g, t, x.kids[i], inner, last, r, kind)
    ensures PlanGoesOn(g, t, x, [f] + inner, last, r + YieldAll(x.kids[i + 1..]), kind)
  {
    var plan := g.Lookup(CutState(t, inner, last), r[0].transition).value;
    var after := AppliedTo(t.omitted, [f] + inner, last, plan, r[0]);
    assert TopOf([f] + inner) == TopOf(inner);
    AppliedBelow(t.omitted, f, inner, last, plan, r[0]);
    CutBehind(x, i, f, after, DLeaf(kind, plan.type_, r[0]), r);
  }

  lemma LiftPlanInside(g: Grammar, t: Tables, x: Deriv, fr: seq<Frame>, last: Deriv, rest: seq<Token>,
                       kind: TransitionType)
    requires x.DNode? && fr != [] && CutInside(x, fr, last, rest)
    requires PlanGoesOn(g, t, x.kids[0], fr, last, Front(rest, YieldAll(x.kids[1..])), kind)
    ensures PlanGoesOn(g, t, x, fr, last, rest, kind)
  {
    var tail := YieldAll(x.kids[1..]);
    var r := Front(rest, tail);
    EndsJoined(rest, tail);
    var plan := g.Lookup(CutState(t, fr, last), rest[0].transition).value;
    CutWithin(x, AppliedTo(t.omitted, fr, last, plan, rest[0]), DLeaf(kind, plan.type_, rest[0]), r[1..]);
    assert rest[1..] == r[1..] + tail;
  }

  /** What comes behind the i-th child is what follows it. */
  lemma UpcomingBehind(x: Deriv, i: nat, rest: seq<Token>, follow: Option<Token>)
    requires x.DNode? && Filled(x) && i < |x.kids| && EndsWith(rest, YieldAll(x.kids[i + 1..]))
    ensures Upcoming(Front(rest, YieldAll(x.kids[i + 1..])), FollowOf(x.kids, i, follow)) == Upcoming(rest, follow)
  {
    EndsJoined(rest, YieldAll(x.kids[i + 1..]));
    if i + 1 < |x.kids| {
      FirstOfRest(x.kids, i + 1);
    } else {
      assert x.kids[i + 1..] == [];
    }
  }

  lemma LiftEnd(g: Grammar, t: Tables, x: Deriv, fr: seq<Frame>, last: Deriv, rest: seq<Token>, follow: Option<Token>)
    requires x.DNode? && Filled(x) && |fr| > 1 && CutHere(x, fr, last, rest)
    requires var i := |fr[0].kids|;
             EndGoesOn(g, t, x.kids[i], fr[1..], last, Front(rest, YieldAll(x.kids[i + 1..])),
                       FollowOf(x.kids, i, follow))
    ensures EndGoesOn(g, t, x, fr, last, rest, follow)
  {
    var i, inner := |fr[0].kids|, fr[1..];
    var r := Front(rest, YieldAll(x.kids[i + 1..]));
    EndsJoined(rest, YieldAll(x.kids[i + 1..]));
    UpcomingBehind(x, i, rest, follow);
    assert fr == [fr[0]] + inner;
    LiftEndBy(g, t, x, i, fr[0], inner, last, r, follow);
  }

  lemma LiftEndBy(g: Grammar, t: Tables, x: Deriv, i: nat, f: Frame, inner: seq<Frame>, last: Deriv, r: seq<Token>,
                  follow: Option<Token>)
    requires x.DNode? && i < |x.kids| && f.rule == x.rule && f.start == x.start && inner != []
    requires f.kids == x.kids[..i] && !(i == 0 && IsOf(x.kids[0], x.rule))
    requires var rest := r + YieldAll(x.kids[i + 1..]);
             Upcoming(r, FollowOf(x.kids, i, follow)) == Upcoming(rest, follow)
    requires EndGoesOn(g, t, x.kids[i], inner, last, r, FollowOf(x.kids, i, follow))
    ensures EndGoesOn(g, t, x, [f] + inner, last, r + YieldAll(x.kids[i + 1..]), follow)
  {
    var fr, n := [f] + inner, |inner| - 1;
    var after := [f] + inner[..n];
    assert fr[..n + 1] == after && fr[n + 1] == inner[n] && after[1..] == inner[..n];
    CutAt(x, i, after, Closed(t.omitted, TopOf(inner), last), r);
  }

  lemma LiftEndInside(g: Grammar, t: Tables, x: Deriv, fr: seq<Frame>, last: Deriv, rest: seq<Token>,
                      follow: Option<Token>)
    requires x.DNode? && Filled(x) && fr != [] && CutInside(x, fr, last, rest) && |fr| > 1
    requires EndGoesOn(g, t, x.kids[0], fr, last, Front(rest, YieldAll(x.kids[1..])), FollowOf(x.kids, 0, follow))
    ensures EndGoesOn(g, t, x, fr, last, rest, follow)
  {
    EndsJoined(rest, YieldAll(x.kids[1..]));
    UpcomingBehind(x, 0, rest, follow);
    CutWithin(x, fr[..|fr| - 1], Closed(t.omitted, TopOf(fr), last), Front(rest, YieldAll(x.kids[1..])));
  }

  // ----- the next child

  /** A child of the innermost node is to come, and the plan enters it. */
  lemma NextKid(g: Grammar, t: Tables, x: Deriv, zero: bool, continued: bool, follow: Option<Token>, wrapped: bool,
                f: Frame, last: Deriv, j: nat, isWrapped: bool) returns (kind: TransitionType)
    requires IsPart(g, t, x, zero, continued, follow, wrapped) && x.DNode? && 0 < j < |x.kids|
    requires isWrapped == IsWrapped(x.rule, x.kids[..j])
    requires CutState(t, [f], last) == PlanState(t, x.rule, x.kids[..j])
    requires Prepared(t.omitted, f, last, isWrapped).kids == x.kids[..j]
    requires Prepared(t.omitted, f, last, isWrapped).start == x.start && f.rule == x.rule
    ensures PlanGoesOn(g, t, x, [f], last, YieldAll(x.kids[j..]), kind)
  {
    var kid := x.kids[j];
    PartOfPart(g, t, x, zero, continued, follow, wrapped, j);
    FirstOfRest(x.kids, j);
    assert Continues(x.rule, x.kids, j, continued) == isWrapped;
    var from, token := CutState(t, [f], last), FirstLeaf(kid).token;
    kind := FirstLeaf(kid).kind;
    SameLeaf(g, t, from, isWrapped, kid, Spine(kid));
    var plan := g.Lookup(from, token.transition).value;
    SpineCut(t.omitted, kid, plan.pushes, token);
    var after := AppliedTo(t.omitted, [f], last, plan, token);
    assert after == [Prepared(t.omitted, f, last, isWrapped)] + NewFrames(t.omitted, plan.pushes, token);
    assert after[1..] == NewFrames(t.omitted, plan.pushes, token);
    CutAt(x, j, after, FirstLeaf(kid), Yield(kid)[1..]);
  }

  /** The innermost node, being the outermost one too. */
  lemma AtTop(g: Grammar, t: Tables, x: Deriv, zero: bool, continued: bool, follow: Option<Token>, wrapped: bool,
              f: Frame, last: Deriv, rest: seq<Token>)
    requires IsPart(g, t, x, zero, continued, follow, wrapped) && x.DNode? && CutHere(x, [f], last, rest)
    requires StartFor(t.omitted, f, last) == f.start
    ensures IsComplete(t, x, [f], last, rest) || exists kind :: PlanGoesOn(g, t, x, [f], last, rest, kind)
  {
    var i := |f.kids|;
    EndsJoined(rest, YieldAll(x.kids[i + 1..]));
    assert [f][1..] == [] && x.kids[..i + 1] == f.kids + [last];
    if i + 1 == |x.kids| {
      assert x.kids == f.kids + [last] && x.kids[i + 1..] == [];
    } else {
      var kind := NextKid(g, t, x, zero, continued, follow, wrapped, f, last, i + 1, false);
    }
  }

  /** A complete first child of a node of its own rule becomes that by the plan of
      left recursion. */
  lemma Wraps(g: Grammar, t: Tables, x: Deriv, zero: bool, continued: bool, follow: Option<Token>, wrapped: bool,
              fr: seq<Frame>, last: Deriv, rest: seq<Token>) returns (kind: TransitionType)
    requires IsPart(g, t, x, zero, continued, follow, wrapped) && x.DNode? && fr != [] && CutInside(x, fr, last, rest)
    requires IsComplete(t, x.kids[0], fr, last, Front(rest, YieldAll(x.kids[1..])))
    requires StartFor(t.omitted, TopOf(fr), last) == TopOf(fr).start
    ensures PlanGoesOn(g, t, x, fr, last, rest, kind)
  {
    var y, f := x.kids[0], fr[0];
    EndsJoined(rest, YieldAll(x.kids[1..]));
    KidSpans(x.rule, x.start, x.kids, zero, 0);
    assert fr == [f] && x.kids[..1] == [y] && rest == YieldAll(x.kids[1..]);
    kind := NextKid(g, t, x, zero, continued, follow, wrapped, f, last, 1, true);
  }

  // ----- one step along the derivation

  /** Whatever the cut, the plan for the next token leads on, or there is none and the
      end of the innermost node does; or the derivation is complete. */
  lemma {:induction false} CutGoesOn(g: Grammar, t: Tables, x: Deriv, zero: bool, continued: bool,
                                     follow: Option<Token>, wrapped: bool, fr: seq<Frame>, last: Deriv,
                                     rest: seq<Token>)
    requires IsPart(g, t, x, zero, continued, follow, wrapped) && fr != [] && Cut(x, fr, last, rest)
    requires StartFor(t.omitted, TopOf(fr), last) == TopOf(fr).start
    ensures GoesOn(g, t, x, fr, last, rest, follow) || IsComplete(t, x, fr, last, rest)
    decreases x
  {
    if CutHere(x, fr, last, rest) {
      if |fr| == 1 {
        assert fr == [fr[0]];
        AtTop(g, t, x, zero, continued, follow, wrapped, fr[0], last, rest);
      } else {
        CutBelow(g, t, x, zero, continued, follow, wrapped, fr, last, rest);
      }
    } else {
      CutAround(g, t, x, zero, continued, follow, wrapped, fr, last, rest);
    }
  }

  lemma {:induction false} CutBelow(g: Grammar, t: Tables, x: Deriv, zero: bool, continued: bool,
                                    follow: Option<Token>, wrapped: bool, fr: seq<Frame>, last: Deriv, rest: seq<Token>)
    requires IsPart(g, t, x, zero, continued, follow, wrapped) && |fr| > 1 && x.DNode? && CutHere(x, fr, last, rest)
    requires StartFor(t.omitted, TopOf(fr), last) == TopOf(fr).start
    ensures GoesOn(g, t, x, fr, last, rest, follow)
    decreases x, 0
  {
    var i := |fr[0].kids|;
    var kid, r := x.kids[i], Front(rest, YieldAll(x.kids[i + 1..]));
    PartOfPart(g, t, x, zero, continued, follow, wrapped, i);
    var follow', continued' := FollowOf(x.kids, i, follow), Continues(x.rule, x.kids, i, continued);
    assert TopOf(fr[1..]) == TopOf(fr);
    CutGoesOn(g, t, kid, false, continued', follow', false, fr[1..], last, r);
    if IsComplete(t, kid, fr[1..], last, r) {
      CompleteEnds(g, t, kid, false, continued', follow', fr[1..], last, r);
    }
    if kind :| PlanGoesOn(g, t, kid, fr[1..], last, r, kind) {
      LiftPlan(g, t, x, fr, last, rest, kind);
    } else {
      LiftEnd(g, t, x, fr, last, rest, follow);
    }
  }

  lemma {:induction false} CutAround(g: Grammar, t: Tables, x: Deriv, zero: bool, continued: bool,
                                     follow: Option<Token>, wrapped: bool, fr: seq<Frame>, last: Deriv,
                                     rest: seq<Token>)
    requires IsPart(g, t, x, zero, continued, follow, wrapped) && fr != [] && x.DNode? && CutInside(x, fr, last, rest)
    requires StartFor(t.omitted, TopOf(fr), last) == TopOf(fr).start
    ensures GoesOn(g, t, x, fr, last, rest, follow)
    decreases x, 0
  {
    var y, r := x.kids[0], Front(rest, YieldAll(x.kids[1..]));
    PartOfPart(g, t, x, zero, continued, follow, wrapped, 0);
    var follow' := FollowOf(x.kids, 0, follow);
    CutGoesOn(g, t, y, zero, continued, follow', true, fr, last, r);
    if IsComplete(t, y, fr, last, r) {
      var kind := Wraps(g, t, x, zero, continued, follow, wrapped, fr, last, rest);
    } else if kind :| PlanGoesOn(g, t, y, fr, last, r, kind) {
      LiftPlanInside(g, t, x, fr, last, rest, kind);
    } else {
      LiftEndInside(g, t, x, fr, last, rest, follow);
    }
  }

  // ----- every step

  /** What has been built is a cut of the derivation, with the tokens up to `prefix`
      to come. */
  ghost predicate WorkCuts(d: Deriv, all: seq<Token>, prefix: nat, w: Work, consumed: nat) {
    && consumed <= prefix <= |all|
    && match w
       case Nothing => consumed == 0
       case Subtrees(fs, f, last) => Cut(d, fs + [f], last, all[consumed..prefix])
       case Finished(x) => x == d && consumed == prefix
  }

  function Consumed(all: seq<Token>, s: Status): int {
    match s
    case Idle(m) => Cursor(all, m.buffer)
    case Pending(m, _) => Cursor(all, m.buffer) - 1
    case _ => |all|
  }

  ghost predicate StatusCuts(d: Deriv, all: seq<Token>, prefix: nat, s: Status, w: Work) {
    Consumed(all, s) >= 0 && WorkCuts(d, all, prefix, w, Consumed(all, s))
  }

  function NextToken(all: seq<Token>, prefix: nat): Option<Token> {
    if prefix < |all| then Some(all[prefix]) else None
  }

  lemma ParseIsPart(g: Grammar, t: Tables, root: nat, all: seq<Token>, prefix: nat, nodes: seq<InternalNode>, d: Deriv)
    requires GreedyParse(g, t, root, all, prefix, nodes, d)
    ensures IsPart(g, t, d, ZeroRoot(t, root), false, NextToken(all, prefix), false)
  {
  }

  lemma TreesGoOn(g: Grammar, t: Tables, root: nat, all: seq<Token>, prefix: nat, nodes: seq<InternalNode>, d: Deriv,
                  fr: seq<Frame>, last: Deriv, consumed: nat)
    requires GreedyParse(g, t, root, all, prefix, nodes, d) && consumed <= prefix && fr != []
    requires Cut(d, fr, last, all[consumed..prefix]) && StartFor(t.omitted, TopOf(fr), last) == TopOf(fr).start
    ensures GoesOn(g, t, d, fr, last, all[consumed..prefix], NextToken(all, prefix))
  {
    ParseIsPart(g, t, root, all, prefix, nodes, d);
    var zero, follow := ZeroRoot(t, root), NextToken(all, prefix);
    CutGoesOn(g, t, d, zero, false, follow, false, fr, last, all[consumed..prefix]);
    if IsComplete(t, d, fr, last, all[consumed..prefix]) {
      CompleteEnds(g, t, d, zero, false, follow, fr, last, all[consumed..prefix]);
    }
  }

  lemma TopStart(g: Grammar, t: Tables, root: nat, m: Machine, read: seq<Token>, fs: seq<Frame>, f: Frame, last: Deriv)
    requires HasBuilt(g, t, root, m, read, Subtrees(fs, f, last))
    ensures StartFor(t.omitted, f, last) == f.start
  {
    OpenTop(g, t, m.stack, fs, f, 1, Label(last));
    ClosedSpans(t.omitted, ZeroRoot(t, root) && fs == [], f, last);
  }

  lemma EndCuts(t: Tables, d: Deriv, all: seq<Token>, prefix: nat, fs: seq<Frame>, f: Frame, last: Deriv, consumed: nat)
    requires consumed <= prefix <= |all| && Cut(d, fs, Closed(t.omitted, f, last), all[consumed..prefix])
    ensures WorkCuts(d, all, prefix, EndWork(t, Subtrees(fs, f, last)), consumed)
  {
    if fs == [] {
      assert EndWork(t, Subtrees(fs, f, last)) == Finished(Closed(t.omitted, f, last));
      assert all[consumed..prefix] == [];
    } else {
      var n := |fs| - 1;
      assert fs[..n] + [fs[n]] == fs;
      assert EndWork(t, Subtrees(fs, f, last)) == Subtrees(fs[..n], fs[n], Closed(t.omitted, f, last));
    }
  }

  lemma PlanCuts(t: Tables, root: nat, d: Deriv, all: seq<Token>, prefix: nat, fs: seq<Frame>, f: Frame, last: Deriv,
                 consumed: nat, plan: Plan, token: Token, kind: TransitionType)
    requires consumed < prefix <= |all|
    requires Cut(d, AppliedTo(t.omitted, fs + [f], last, plan, token), DLeaf(kind, plan.type_, token),
                 all[consumed..prefix][1..])
    ensures WorkCuts(d, all, prefix, PlanWork(t, root, Subtrees(fs, f, last), plan, token, kind), consumed + 1)
  {
    var f1 := Prepared(t.omitted, f, last, plan.mode == LeftRecursive);
    PushedIsAppended(t.omitted, fs, f1, plan.pushes, token);
    assert (fs + [f])[..|fs|] == fs;
    assert fs + [f1] + NewFrames(t.omitted, plan.pushes, token)
        == fs + ([f1] + NewFrames(t.omitted, plan.pushes, token));
    assert all[consumed..prefix][1..] == all[consumed + 1..prefix];
  }

  /** The first plan. */
  lemma FirstCuts(g: Grammar, t: Tables, root: nat, all: seq<Token>, prefix: nat, nodes: seq<InternalNode>, d: Deriv)
    returns (plan: Plan, kind: TransitionType)
    requires GreedyParse(g, t, root, all, prefix, nodes, d)
    ensures prefix > 0 && root in t.dfas && 0 < |t.dfas[root]|
    ensures g.Lookup(StateId(root, 0), all[0].transition) == Some(plan)
    ensures PlanReads(t, StateId(root, 0), all[0].transition, plan, kind)
    ensures WorkCuts(d, all, prefix, PlanWork(t, root, Nothing, plan, all[0], kind), 1)
  {
    FirstOfYield(d);
    var leaf, from := FirstLeaf(d), StateId(root, 0);
    assert all[0] == all[..prefix][0] == leaf.token;
    SameLeaf(g, t, from, false, d, Spine(d)[1..]);
    plan, kind := g.Lookup(from, leaf.token.transition).value, leaf.kind;
    var f := RootFrame(t, root, if root in t.omitted then leaf.token.startIndex else 0);
    assert Spine(d) == [Spine(d)[0]] + Spine(d)[1..];
    RootCut(t.omitted, d, ZeroRoot(t, root), f, plan.pushes, leaf.token);
    PushedIsAppended(t.omitted, [], f, plan.pushes, leaf.token);
    assert [] + [f] + NewFrames(t.omitted, plan.pushes, leaf.token)
        == [f] + NewFrames(t.omitted, plan.pushes, leaf.token);
    assert Yield(d)[1..] == all[1..prefix];
  }

  // ----- steps along the derivation

  /** A greedy parse, and a point of a run that has built a cut of it. */
  ghost predicate OnTrack(g: Grammar, t: Tables, root: nat, all: seq<Token>, prefix: nat, nodes: seq<InternalNode>,
                          d: Deriv, s: Status, w: Work)
  {
    && GrammarSound(g, t) && Short(all) && GreedyParse(g, t, root, all, prefix, nodes, d)
    && Sound(g, t, all, root, s, w) && StatusCuts(d, all, prefix, s, w)
  }

  /** The step goes on along the derivation, without an error. */
  ghost predicate Leads(g: Grammar, t: Tables, root: nat, all: seq<Token>, prefix: nat, d: Deriv, s: Status, w': Work) {
    NoError(g, s) && Sound(g, t, all, root, Step(g, s), w') && StatusCuts(d, all, prefix, Step(g, s), w')
  }

  ghost predicate CanLead(g: Grammar, t: Tables, root: nat, all: seq<Token>, prefix: nat, d: Deriv, s: Status) {
    exists w' :: Leads(g, t, root, all, prefix, d, s, w')
  }

  lemma LedTo(g: Grammar, t: Tables, root: nat, all: seq<Token>, prefix: nat, d: Deriv, s: Status, w': Work, n: nat)
    requires NoError(g, s) && Sound(g, t, all, root, Step(g, s), w')
    requires Consumed(all, Step(g, s)) == n && WorkCuts(d, all, prefix, w', n)
    ensures CanLead(g, t, root, all, prefix, d, s)
  {
    assert Leads(g, t, root, all, prefix, d, s, w');
  }

  /** What follows the cut of the trees: a plan that leads on, or no plan and the end of
      the innermost node. */
  ghost predicate Ahead(g: Grammar, t: Tables, d: Deriv, id: StateId, all: seq<Token>, prefix: nat, w: Work,
                        consumed: nat)
  {
    && w.Subtrees? && consumed <= prefix <= |all|
    && var rest := all[consumed..prefix];
       || (exists kind :: PlanGoesOn(g, t, d, w.fs + [w.f], w.last, rest, kind))
       || (g.Info(id).isFinal && WorkCuts(d, all, prefix, EndWork(t, w), consumed)
           && var next := Upcoming(rest, NextToken(all, prefix));
              next.Some? ==> g.Lookup(id, next.value.transition).None?)
  }

  lemma AheadOf(g: Grammar, t: Tables, d: Deriv, id: StateId, all: seq<Token>, prefix: nat, w: Work, consumed: nat)
    requires w.Subtrees? && consumed <= prefix <= |all| && id == CutState(t, w.fs + [w.f], w.last)
    requires IsFinalState(t, id) ==> g.Info(id).isFinal
    requires GoesOn(g, t, d, w.fs + [w.f], w.last, all[consumed..prefix], NextToken(all, prefix))
    ensures Ahead(g, t, d, id, all, prefix, w, consumed)
  {
    var rest, fr := all[consumed..prefix], w.fs + [w.f];
    if EndGoesOn(g, t, d, fr, w.last, rest, NextToken(all, prefix)) {
      assert fr[..|fr| - 1] == w.fs;
      EndCuts(t, d, all, prefix, w.fs, w.f, w.last, consumed);
    }
  }

  lemma TrackGoesOn(g: Grammar, t: Tables, root: nat, all: seq<Token>, prefix: nat, nodes: seq<InternalNode>, d: Deriv,
                    m: Machine, read: seq<Token>, w: Work, consumed: nat)
    requires GrammarSound(g, t) && GreedyParse(g, t, root, all, prefix, nodes, d)
    requires HasBuilt(g, t, root, m, read, w) && w.Subtrees? && WorkCuts(d, all, prefix, w, consumed)
    ensures m.stack != [] && m.Tos().state in g.states && StateSound(g, t, m.Tos().state)
    ensures Ahead(g, t, d, m.Tos().state, all, prefix, w, consumed)
  {
    TopState(g, t, root, m, read, w.fs, w.f, w.last);
    TopStart(g, t, root, m, read, w.fs, w.f, w.last);
    TreesGoOn(g, t, root, all, prefix, nodes, d, w.fs + [w.f], w.last, consumed);
    AheadOf(g, t, d, m.Tos().state, all, prefix, w, consumed);
  }

  // At the end of the input.

  lemma ParseNotEmpty(g: Grammar, t: Tables, root: nat, all: seq<Token>, prefix: nat, nodes: seq<InternalNode>,
                      d: Deriv)
    requires GreedyParse(g, t, root, all, prefix, nodes, d)
    ensures prefix > 0
  {
    FirstOfYield(d);
  }

  lemma NothingAhead(g: Grammar, t: Tables, d: Deriv, id: StateId, all: seq<Token>, prefix: nat, w: Work)
    requires Ahead(g, t, d, id, all, prefix, w, |all|)
    ensures g.Info(id).isFinal && WorkCuts(d, all, prefix, EndWork(t, w), |all|)
  {
    assert all[|all|..prefix] == [];
  }

  lemma InputEnds(g: Grammar, t: Tables, root: nat, all: seq<Token>, prefix: nat, nodes: seq<InternalNode>, d: Deriv,
                  m: Machine, w: Work)
    requires GrammarSound(g, t) && GreedyParse(g, t, root, all, prefix, nodes, d) && w.Subtrees?
    requires HasBuilt(g, t, root, m, all, w) && WorkCuts(d, all, prefix, w, |all|)
    ensures m.stack != [] && g.Info(m.Tos().state).isFinal && WorkCuts(d, all, prefix, EndWork(t, w), |all|)
  {
    TrackGoesOn(g, t, root, all, prefix, nodes, d, m, all, w, |all|);
    NothingAhead(g, t, d, m.Tos().state, all, prefix, w);
  }

  /** With the input at its end there are trees, as long as a node is open. */
  lemma TreesAtEnd(g: Grammar, t: Tables, root: nat, all: seq<Token>, prefix: nat, d: Deriv, m: Machine, w: Work)
    requires HasBuilt(g, t, root, m, all, w) && WorkCuts(d, all, prefix, w, |all|) && m.stack != [] && prefix > 0
    ensures w.Subtrees?
  {
  }

  lemma ReadLeads(g: Grammar, t: Tables, root: nat, all: seq<Token>, m: Machine, w: Work)
    requires Sound(g, t, all, root, Idle(m), w) && m.stack != [] && NextOf(m.buffer).1.Some?
    ensures Sound(g, t, all, root, StepIdle(g, m), w)
    ensures Consumed(all, StepIdle(g, m)) == Cursor(all, m.buffer)
  {
    NextAtCursor(all, m.buffer);
    var m', read := m.(buffer := NextOf(m.buffer).0), all[..Cursor(all, m.buffer)];
    BufferKeeps(g, t, root, m, read, w, m'.buffer);
    PendingAgain(g, t, all, root, m', NextOf(m.buffer).1.value, read, w);
  }

  lemma DoneLeads(g: Grammar, t: Tables, root: nat, all: seq<Token>, m: Machine, w: Work)
    requires Sound(g, t, all, root, Idle(m), w) && m.stack == []
    ensures NoError(g, Idle(m)) && Sound(g, t, all, root, StepIdle(g, m), w)
    ensures Consumed(all, StepIdle(g, m)) == Cursor(all, m.buffer)
  {
    assert all[..|all|] == all;
  }

  lemma IdleEndLeads(g: Grammar, t: Tables, root: nat, all: seq<Token>, prefix: nat, nodes: seq<InternalNode>,
                     d: Deriv, m: Machine, w: Work) returns (w': Work)
    requires GrammarSound(g, t) && Short(all) && GreedyParse(g, t, root, all, prefix, nodes, d) && m.stack != []
    requires Consistent(all, m.buffer) && m.buffer.tokens == [] && Cursor(all, m.buffer) == |all|
    requires HasBuilt(g, t, root, m, all, w) && WorkCuts(d, all, prefix, w, |all|)
    ensures g.Info(m.Tos().state).isFinal && EndOfNode(m).Ok?
    ensures Sound(g, t, all, root, Idle(EndOfNode(m).value), w')
    ensures Consumed(all, Idle(EndOfNode(m).value)) == |all| && WorkCuts(d, all, prefix, w', |all|)
  {
    ParseNotEmpty(g, t, root, all, prefix, nodes, d);
    TreesAtEnd(g, t, root, all, prefix, d, m, w);
    InputEnds(g, t, root, all, prefix, nodes, d, m, w);
    var m';
    m', w' := EndReads(g, t, root, m, all, w);
    IdleAgain(g, t, all, root, m', all, w');
  }

  lemma NoMoreInput(g: Grammar, t: Tables, root: nat, all: seq<Token>, m: Machine, w: Work) returns (m': Machine)
    requires Sound(g, t, all, root, Idle(m), w) && m.stack != [] && NextOf(m.buffer).1.None?
    ensures m' == m.(buffer := NextOf(m.buffer).0) && Consistent(all, m'.buffer) && m'.buffer.tokens == []
    ensures Cursor(all, m.buffer) == Cursor(all, m'.buffer) == |all| && HasBuilt(g, t, root, m', all, w)
  {
    NextAtCursor(all, m.buffer);
    assert all[..|all|] == all;
    m' := m.(buffer := NextOf(m.buffer).0);
    BufferKeeps(g, t, root, m, all, w, m'.buffer);
  }

  lemma NoMoreLeads(g: Grammar, t: Tables, root: nat, all: seq<Token>, prefix: nat, nodes: seq<InternalNode>,
                    d: Deriv, m: Machine, w: Work) returns (w': Work)
    requires OnTrack(g, t, root, all, prefix, nodes, d, Idle(m), w) && m.stack != [] && NextOf(m.buffer).1.None?
    ensures NoError(g, Idle(m)) && Sound(g, t, all, root, StepIdle(g, m), w')
    ensures Consumed(all, StepIdle(g, m)) == |all| && WorkCuts(d, all, prefix, w', |all|)
  {
    var m' := NoMoreInput(g, t, root, all, m, w);
    w' := IdleEndLeads(g, t, root, all, prefix, nodes, d, m', w);
  }

  lemma IdleOnTrack(g: Grammar, t: Tables, root: nat, all: seq<Token>, prefix: nat, nodes: seq<InternalNode>, d: Deriv,
                    m: Machine, w: Work)
    requires OnTrack(g, t, root, all, prefix, nodes, d, Idle(m), w)
    ensures CanLead(g, t, root, all, prefix, d, Idle(m))
  {
    var w', n := w, Cursor(all, m.buffer);
    if m.stack == [] {
      DoneLeads(g, t, root, all, m, w);
    } else if NextOf(m.buffer).1.Some? {
      ReadLeads(g, t, root, all, m, w);
    } else {
      w' := NoMoreLeads(g, t, root, all, prefix, nodes, d, m, w);
      n := |all|;
    }
    LedTo(g, t, root, all, prefix, d, Idle(m), w', n);
  }

  // With a token at hand.

  lemma PendingPlan(g: Grammar, t: Tables, root: nat, all: seq<Token>, m: Machine,
                    token: Token, w: Work, plan: Plan, kind: TransitionType) returns (w': Work)
    requires GrammarSound(g, t) && Short(all) && Sound(g, t, all, root, Pending(m, token), w) && m.stack != []
    requires g.Lookup(m.Tos().state, token.transition) == Some(plan)
    requires m.Tos().state in g.states && StateSound(g, t, m.Tos().state)
    requires PlanReads(t, m.Tos().state, token.transition, plan, kind)
    ensures NoError(g, Pending(m, token)) && Sound(g, t, all, root, StepPending(g, m, token), w')
    ensures w' == PlanWork(t, root, w, plan, token, kind)
            && Consumed(all, StepPending(g, m, token)) == Cursor(all, m.buffer)
  {
    PendingDoesFit(g, t, all, root, m, token, w);
    w' := PlanWithKind(g, t, all, root, m, token, plan, kind, w);
  }

  lemma PendingEnd(g: Grammar, t: Tables, root: nat, all: seq<Token>, m: Machine, token: Token,
                   w: Work) returns (w': Work)
    requires GrammarSound(g, t) && Short(all) && Sound(g, t, all, root, Pending(m, token), w) && m.stack != []
    requires g.Lookup(m.Tos().state, token.transition).None? && g.Info(m.Tos().state).isFinal
    ensures NoError(g, Pending(m, token)) && Sound(g, t, all, root, StepPending(g, m, token), w')
    ensures w' == EndWork(t, w) && Consumed(all, StepPending(g, m, token)) == Cursor(all, m.buffer) - 1
  {
    var read := all[..Cursor(all, m.buffer) - 1];
    w' := EndStepSound(g, t, all, root, m, token, read, w);
  }

  lemma PlanLeads(g: Grammar, t: Tables, root: nat, all: seq<Token>, prefix: nat, d: Deriv, m: Machine, token: Token,
                  w: Work, plan: Plan, kind: TransitionType, consumed: nat)
    requires GrammarSound(g, t) && Short(all) && Sound(g, t, all, root, Pending(m, token), w) && m.stack != []
    requires consumed == Cursor(all, m.buffer) - 1
    requires g.Lookup(m.Tos().state, token.transition) == Some(plan)
    requires m.Tos().state in g.states && StateSound(g, t, m.Tos().state)
    requires PlanReads(t, m.Tos().state, token.transition, plan, kind)
    requires WorkCuts(d, all, prefix, PlanWork(t, root, w, plan, token, kind), consumed + 1)
    ensures CanLead(g, t, root, all, prefix, d, Pending(m, token))
  {
    var w' := PendingPlan(g, t, root, all, m, token, w, plan, kind);
    LedTo(g, t, root, all, prefix, d, Pending(m, token), w', consumed + 1);
  }

  lemma EndLeads(g: Grammar, t: Tables, root: nat, all: seq<Token>, prefix: nat, d: Deriv, m: Machine, token: Token,
                 w: Work, consumed: nat)
    requires GrammarSound(g, t) && Short(all) && Sound(g, t, all, root, Pending(m, token), w) && m.stack != []
    requires consumed == Cursor(all, m.buffer) - 1
    requires g.Lookup(m.Tos().state, token.transition).None? && g.Info(m.Tos().state).isFinal
    requires WorkCuts(d, all, prefix, EndWork(t, w), consumed)
    ensures CanLead(g, t, root, all, prefix, d, Pending(m, token))
  {
    var w' := PendingEnd(g, t, root, all, m, token, w);
    LedTo(g, t, root, all, prefix, d, Pending(m, token), w', consumed);
  }

  lemma FirstLeads(g: Grammar, t: Tables, root: nat, all: seq<Token>, prefix: nat, nodes: seq<InternalNode>, d: Deriv,
                   m: Machine, token: Token, w: Work)
    requires OnTrack(g, t, root, all, prefix, nodes, d, Pending(m, token), w) && m.stack != [] && w.Nothing?
    ensures CanLead(g, t, root, all, prefix, d, Pending(m, token))
  {
    KnownState(g, t, root, m, all[..Cursor(all, m.buffer) - 1], w);
    assert StateSound(g, t, m.Tos().state);
    var plan, kind := FirstCuts(g, t, root, all, prefix, nodes, d);
    PlanLeads(g, t, root, all, prefix, d, m, token, w, plan, kind, 0);
  }

  /** The plan of the step, by a label, or the end of a node. */
  ghost predicate TreesStep(g: Grammar, t: Tables, root: nat, d: Deriv, all: seq<Token>, prefix: nat, id: StateId,
                            token: Token, w: Work, consumed: nat, kind: Option<TransitionType>)
  {
    var plan := g.Lookup(id, token.transition);
    match kind
    case Some(k) =>
      && plan.Some? && id.rule in t.dfas && id.index < |t.dfas[id.rule]|
      && PlanReads(t, id, token.transition, plan.value, k)
      && WorkCuts(d, all, prefix, PlanWork(t, root, w, plan.value, token, k), consumed + 1)
    case None => plan.None? && g.Info(id).isFinal && WorkCuts(d, all, prefix, EndWork(t, w), consumed)
  }

  ghost predicate HasStep(g: Grammar, t: Tables, root: nat, d: Deriv, all: seq<Token>, prefix: nat, id: StateId,
                          token: Token, w: Work, consumed: nat)
  {
    exists kind :: TreesStep(g, t, root, d, all, prefix, id, token, w, consumed, kind)
  }

  lemma StepAhead(g: Grammar, t: Tables, root: nat, d: Deriv, id: StateId, all: seq<Token>, prefix: nat, w: Work,
                  consumed: nat, token: Token)
    requires Ahead(g, t, d, id, all, prefix, w, consumed) && id == CutState(t, w.fs + [w.f], w.last)
    requires consumed < |all| && token == all[consumed]
    ensures HasStep(g, t, root, d, all, prefix, id, token, w, consumed)
  {
    var rest, fr := all[consumed..prefix], w.fs + [w.f];
    if k :| PlanGoesOn(g, t, d, fr, w.last, rest, k) {
      var plan := g.Lookup(id, token.transition).value;
      PlanCuts(t, root, d, all, prefix, w.fs, w.f, w.last, consumed, plan, token, k);
      assert TreesStep(g, t, root, d, all, prefix, id, token, w, consumed, Some(k));
    } else {
      assert Upcoming(rest, NextToken(all, prefix)) == Some(token);
      assert TreesStep(g, t, root, d, all, prefix, id, token, w, consumed, None);
    }
  }

  lemma TreesStepAt(g: Grammar, t: Tables, root: nat, all: seq<Token>, prefix: nat, nodes: seq<InternalNode>, d: Deriv,
                    m: Machine, read: seq<Token>, token: Token, w: Work, consumed: nat)
    requires GrammarSound(g, t) && GreedyParse(g, t, root, all, prefix, nodes, d) && HasBuilt(g, t, root, m, read, w)
    requires w.Subtrees? && WorkCuts(d, all, prefix, w, consumed) && consumed < |all| && token == all[consumed]
    ensures m.stack != [] && m.Tos().state in g.states && StateSound(g, t, m.Tos().state)
    ensures HasStep(g, t, root, d, all, prefix, m.Tos().state, token, w, consumed)
  {
    TrackGoesOn(g, t, root, all, prefix, nodes, d, m, read, w, consumed);
    TopState(g, t, root, m, read, w.fs, w.f, w.last);
    StepAhead(g, t, root, d, m.Tos().state, all, prefix, w, consumed, token);
  }

  /** The step by which the trees go on. */
  lemma StepLeads(g: Grammar, t: Tables, root: nat, all: seq<Token>, prefix: nat, d: Deriv, m: Machine, token: Token,
                  w: Work, consumed: nat)
    requires GrammarSound(g, t) && Short(all) && Sound(g, t, all, root, Pending(m, token), w) && m.stack != []
    requires m.Tos().state in g.states && StateSound(g, t, m.Tos().state) && consumed == Cursor(all, m.buffer) - 1
    requires HasStep(g, t, root, d, all, prefix, m.Tos().state, token, w, consumed)
    ensures CanLead(g, t, root, all, prefix, d, Pending(m, token))
  {
    var kind :| TreesStep(g, t, root, d, all, prefix, m.Tos().state, token, w, consumed, kind);
    if kind.Some? {
      var plan := g.Lookup(m.Tos().state, token.transition).value;
      PlanLeads(g, t, root, all, prefix, d, m, token, w, plan, kind.value, consumed);
    } else {
      EndLeads(g, t, root, all, prefix, d, m, token, w, consumed);
    }
  }

  lemma TreesHaveStep(g: Grammar, t: Tables, root: nat, all: seq<Token>, prefix: nat, nodes: seq<InternalNode>,
                      d: Deriv, m: Machine, token: Token, w: Work, consumed: nat)
    requires OnTrack(g, t, root, all, prefix, nodes, d, Pending(m, token), w) && w.Subtrees?
    requires consumed == Cursor(all, m.buffer) - 1
    ensures m.stack != [] && m.Tos().state in g.states && StateSound(g, t, m.Tos().state)
    ensures HasStep(g, t, root, d, all, prefix, m.Tos().state, token, w, consumed)
  {
    TreesStepAt(g, t, root, all, prefix, nodes, d, m, all[..consumed], token, w, consumed);
  }

  lemma TreesLead(g: Grammar, t: Tables, root: nat, all: seq<Token>, prefix: nat, nodes: seq<InternalNode>, d: Deriv,
                  m: Machine, token: Token, w: Work)
    requires OnTrack(g, t, root, all, prefix, nodes, d, Pending(m, token), w) && m.stack != [] && w.Subtrees?
    ensures CanLead(g, t, root, all, prefix, d, Pending(m, token))
  {
    var consumed: nat := Cursor(all, m.buffer) - 1;
    TreesHaveStep(g, t, root, all, prefix, nodes, d, m, token, w, consumed);
    StepLeads(g, t, root, all, prefix, d, m, token, w, consumed);
  }

  lemma PendingOnTrack(g: Grammar, t: Tables, root: nat, all: seq<Token>, prefix: nat, nodes: seq<InternalNode>,
                       d: Deriv, m: Machine, token: Token, w: Work)
    requires OnTrack(g, t, root, all, prefix, nodes, d, Pending(m, token), w) && m.stack != []
    ensures CanLead(g, t, root, all, prefix, d, Pending(m, token))
  {
    if w.Nothing? {
      FirstLeads(g, t, root, all, prefix, nodes, d, m, token, w);
    } else {
      TreesLead(g, t, root, all, prefix, nodes, d, m, token, w);
    }
  }

  // ----- whole runs

  /** The run follows the derivation; or it has panicked at the token behind it. */
  ghost predicate Follows(g: Grammar, t: Tables, root: nat, all: seq<Token>, prefix: nat, nodes: seq<InternalNode>,
                          d: Deriv, s: Status)
  {
    if s.Panicked? then prefix < |all| else exists w :: OnTrack(g, t, root, all, prefix, nodes, d, s, w)
  }

  lemma StepOnTrack(g: Grammar, t: Tables, root: nat, all: seq<Token>, prefix: nat, nodes: seq<InternalNode>,
                    d: Deriv, s: Status, w: Work)
    requires OnTrack(g, t, root, all, prefix, nodes, d, s, w) && !s.Panicked?
    ensures InputLeft(s) || CanLead(g, t, root, all, prefix, d, s)
  {
    match s
    case Idle(m) => IdleOnTrack(g, t, root, all, prefix, nodes, d, m, w);
    case Pending(m, token) =>
      if m.stack != [] {
        PendingOnTrack(g, t, root, all, prefix, nodes, d, m, token, w);
      }
    case Done(_) => assert Leads(g, t, root, all, prefix, d, s, w);
    case Panicked =>
  }

  /** A token that is left over is one behind the derivation. */
  lemma LeftBehind(g: Grammar, t: Tables, root: nat, all: seq<Token>, prefix: nat, nodes: seq<InternalNode>, d: Deriv,
                   m: Machine, token: Token, w: Work)
    requires OnTrack(g, t, root, all, prefix, nodes, d, Pending(m, token), w) && m.stack == []
    ensures prefix < |all|
  {
    assert w.Finished?;
  }

  lemma StepFollows(g: Grammar, t: Tables, root: nat, all: seq<Token>, prefix: nat, nodes: seq<InternalNode>, d: Deriv,
                    s: Status)
    requires Follows(g, t, root, all, prefix, nodes, d, s)
    ensures NoError(g, s) && Follows(g, t, root, all, prefix, nodes, d, Step(g, s))
  {
    if !s.Panicked? {
      var w :| OnTrack(g, t, root, all, prefix, nodes, d, s, w);
      StepOnTrack(g, t, root, all, prefix, nodes, d, s, w);
      PanicsOnInputLeft(g, t, all, root, s, w);
      if InputLeft(s) {
        LeftBehind(g, t, root, all, prefix, nodes, d, s.machine, s.token, w);
      } else {
        var w' :| Leads(g, t, root, all, prefix, d, s, w');
        assert OnTrack(g, t, root, all, prefix, nodes, d, Step(g, s), w');
      }
    }
  }

  lemma StartFollows(g: Grammar, t: Tables, root: nat, all: seq<Token>, prefix: nat, nodes: seq<InternalNode>,
                     d: Deriv)
    requires GrammarSound(g, t) && Short(all) && StateId(root, 0) in g.states
    requires GreedyParse(g, t, root, all, prefix, nodes, d)
    ensures Follows(g, t, root, all, prefix, nodes, d, Start(g, root, all))
  {
    StartSound(g, t, all, root);
    FreshConsistent(all);
    assert OnTrack(g, t, root, all, prefix, nodes, d, Start(g, root, all), Nothing);
  }

  lemma RunFollows(g: Grammar, t: Tables, root: nat, all: seq<Token>, prefix: nat, nodes: seq<InternalNode>, d: Deriv,
                   n: nat)
    requires GrammarSound(g, t) && Short(all) && StateId(root, 0) in g.states
    requires GreedyParse(g, t, root, all, prefix, nodes, d)
    ensures Follows(g, t, root, all, prefix, nodes, d, Run(g, Start(g, root, all), n))
  {
    var p := (s: Status) => Follows(g, t, root, all, prefix, nodes, d, s);
    var any := (s: Status) => true;
    StartFollows(g, t, root, all, prefix, nodes, d);
    forall s | p(s) && any(s)
      ensures p(Step(g, s))
    {
      StepFollows(g, t, root, all, prefix, nodes, d, s);
    }
    RunKeeps(g, p, any, Start(g, root, all), n);
  }

  /** No step of any run needs error recovery. */
  lemma GreedyIsErrorFree(g: Grammar, t: Tables, root: nat, all: seq<Token>, prefix: nat, nodes: seq<InternalNode>,
                          d: Deriv, n: nat)
    requires GrammarSound(g, t) && Short(all) && StateId(root, 0) in g.states
    requires GreedyParse(g, t, root, all, prefix, nodes, d)
    ensures NoErrors(g, Start(g, root, all), n)
  {
    forall k: nat | k < n
      ensures NoError(g, Run(g, Start(g, root, all), k))
    {
      RunFollows(g, t, root, all, prefix, nodes, d, k);
      StepFollows(g, t, root, all, prefix, nodes, d, Run(g, Start(g, root, all), k));
    }
  }

  /** A run that is done has found this derivation. */
  lemma DoneFollows(g: Grammar, t: Tables, root: nat, all: seq<Token>, prefix: nat, nodes: seq<InternalNode>, d: Deriv,
                    found: seq<InternalNode>)
    requires Follows(g, t, root, all, prefix, nodes, d, Done(found))
    ensures prefix == |all| && found == nodes
  {
    var w :| OnTrack(g, t, root, all, prefix, nodes, d, Done(found), w);
    assert w == Finished(d);
  }

  /** A greedy derivation is what the parser ends with: its array, or, if a token comes
      behind it, the panic at that token. */
  lemma GreedyDecides(g: Grammar, t: Tables, root: nat, all: seq<Token>, prefix: nat, nodes: seq<InternalNode>,
                      d: Deriv)
    requires GrammarSound(g, t) && Short(all) && StateId(root, 0) in g.states
    requires GreedyParse(g, t, root, all, prefix, nodes, d)
    ensures NoErrors(g, Start(g, root, all), Steps(g, all))
    ensures Run(g, Start(g, root, all), Steps(g, all)) == if prefix == |all| then Done(nodes) else Panicked
  {
    GreedyIsErrorFree(g, t, root, all, prefix, nodes, d, Steps(g, all));
    RunFollows(g, t, root, all, prefix, nodes, d, Steps(g, all));
    var reached, found, _ := ErrorFreeIsGreedy(g, t, all, root);
    if reached == |all| {
      DoneFollows(g, t, root, all, prefix, nodes, d, found);
    }
  }

  /** The grammar has a greedy derivation of a first part of the tokens. */
  ghost predicate HasGreedy(g: Grammar, t: Tables, root: nat, all: seq<Token>) {
    exists prefix, nodes, d :: GreedyParse(g, t, root, all, prefix, nodes, d)
  }

  /** And one of all tokens, with this array. */
  ghost predicate HasGreedyTree(g: Grammar, t: Tables, root: nat, all: seq<Token>, nodes: seq<InternalNode>) {
    exists d :: GreedyParse(g, t, root, all, |all|, nodes, d)
  }

  /** The parser needs no error recovery if and only if there is a greedy derivation,
      and it ends with an array if and only if that is the one of a greedy derivation
      of all tokens. */
  lemma ErrorFreeExactly(g: Grammar, t: Tables, root: nat, all: seq<Token>, nodes: seq<InternalNode>)
    requires GrammarSound(g, t) && Short(all) && StateId(root, 0) in g.states
    ensures NoErrors(g, Start(g, root, all), Steps(g, all)) <==> HasGreedy(g, t, root, all)
    ensures NoErrors(g, Start(g, root, all), Steps(g, all)) && Run(g, Start(g, root, all), Steps(g, all)) == Done(nodes)
       <==> HasGreedyTree(g, t, root, all, nodes)
  {
    if NoErrors(g, Start(g, root, all), Steps(g, all)) {
      var _, _, _ := ErrorFreeIsGreedy(g, t, all, root);
    }
    if prefix, found, d :| GreedyParse(g, t, root, all, prefix, found, d) {
      GreedyDecides(g, t, root, all, prefix, found, d);
    }
    if d :| GreedyParse(g, t, root, all, |all|, nodes, d) {
      GreedyDecides(g, t, root, all, |all|, nodes, d);
    }
  }
}
