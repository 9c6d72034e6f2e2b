/** Every run of the parser ends, whatever the grammar, with errors and alternatives
    as well: each time an alternative is given up, fewer ways are left to go on from
    its token. Only looking ahead can go on forever. */
module Termination {
  import opened Rules
  import opened Trees
  import opened ReplayBuffer
  import opened Parsing
  import opened Derivations
  import opened Plans
  import opened ErrorFreeRuns

  // ----- multiples and powers

  function Times(a: nat, x: nat): nat {
    if a == 0 then 0 else x + Times(a - 1, x)
  }

  function Pow(b: nat, k: nat): nat {
    if k == 0 then 1 else Times(b, Pow(b, k - 1))
  }

  lemma {:induction false} TimesSum(a: nat, b: nat, x: nat)
    ensures Times(a + b, x) == Times(a, x) + Times(b, x)
    decreases a
  {
    if a > 0 {
      TimesSum(a - 1, b, x);
    }
  }

  lemma TimesGrows(a: nat, b: nat, x: nat)
    requires a <= b
    ensures Times(a, x) <= Times(b, x)
  {
    TimesSum(a, b - a, x);
  }

  lemma TimesPositive(a: nat, x: nat)
    requires a > 0 && x > 0
    ensures Times(a, x) > 0
  {
  }

  lemma {:induction false} PowPositive(b: nat, k: nat)
    requires b > 0
    ensures Pow(b, k) > 0
    decreases k
  {
    if k > 0 {
      PowPositive(b, k - 1);
      TimesPositive(b, Pow(b, k - 1));
    }
  }

  /** A plan that has taken its own place leaves one way less open. */
  lemma Spent(was: nat, ready: nat, now: nat, taken: nat, left: nat, worth: nat)
    requires ready + Times(taken + 1 + left, worth) <= was + Times(left, worth) && now <= ready + Times(taken, worth)
    ensures now + worth <= was
  {
    TimesSum(taken + 1, left, worth);
  }

  /** With one token less to come, even all plans weigh less than one does before. */
  lemma OneTokenLess(w: nat, k: nat)
    ensures Times(w, Pow(w + 1, k)) < Pow(w + 1, k + 1)
  {
    PowPositive(w + 1, k);
  }

  // ----- how many ways a plan leaves open

  /** The plan itself and the plans that it can be replaced by later. */
  function PlanWeight(plan: Plan): nat
    decreases plan, 1
  {
    1 + PushesWeight(plan.pushes)
  }

  function PushesWeight(pushes: seq<Push>): nat
    decreases pushes, 0
  {
    if pushes == [] then 0 else PushWeight(pushes[0]) + PushesWeight(pushes[1..])
  }

  function PushWeight(push: Push): nat
    decreases push, 0
  {
    match push.mode
    case LLPush => 0
    case AlternativePush(fallback, replay) => PlanWeight(fallback) + PlanWeight(replay)
  }

  ghost function MostWeight(g: Grammar): (w: nat)
    ensures w > 0
  {
    1 + MaxOf(set id, key | id in g.states && key in g.states[id].plans :: PlanWeight(g.states[id].plans[key]))
  }

  lemma WeightBounded(g: Grammar, id: StateId, key: nat)
    requires g.Lookup(id, key).Some?
    ensures PlanWeight(g.Lookup(id, key).value) <= MostWeight(g)
  {
    var weights := set id, key | id in g.states && key in g.states[id].plans :: PlanWeight(g.states[id].plans[key]);
    assert PlanWeight(g.states[id].plans[key]) in weights;
    MaxIsMax(weights, PlanWeight(g.states[id].plans[key]));
  }

  /** What a stack node can still do if there is an error above it. */
  function ModeWeight(mode: ModeData): nat {
    match mode
    case Alternative(point, fallback) => PlanWeight(fallback) + PlanWeight(point.replayPlan)
    case LastAlternative(point, _, _) => PlanWeight(point.replayPlan)
    case Plain => 0
  }

  function Exponent(end: int, mode: ModeData): nat {
    if mode.Plain? || end < mode.point.tokenIndex then 0 else end - mode.point.tokenIndex
  }

  /** The ways that the stack leaves open, those from earlier tokens weighing more.
      The record begins `end` tokens before the end of the input. */
  function Potential(b: nat, end: int, stack: seq<StackNode>): nat
    decreases |stack|
  {
    if stack == [] then 0
    else
      var n := |stack| - 1;
      Potential(b, end, stack[..n]) + Times(ModeWeight(stack[n].mode), Pow(b, Exponent(end, stack[n].mode)))
  }

  function End(all: seq<Token>, buffer: Buffer): int {
    |all| - Base(all, buffer)
  }

  function PotentialOf(b: nat, all: seq<Token>, m: Machine): nat {
    Potential(b, End(all, m.buffer), m.stack)
  }

  // ----- what always holds of the stack

  /** Saved places are in the record, which is kept as long as there are any. */
  ghost predicate NodeFine(buffer: Buffer, node: StackNode) {
    && (!node.mode.Plain? ==> node.recording && node.mode.point.tokenIndex < |buffer.tokens|)
    && (node.recording ==> buffer.isRecording)
  }

  ghost predicate StackFine(buffer: Buffer, stack: seq<StackNode>) {
    && (forall j :: 0 <= j < |stack| ==> NodeFine(buffer, stack[j]))
    && forall j, k :: 0 <= j < k < |stack| && stack[j].recording ==> stack[k].recording
  }

  ghost predicate Fine(all: seq<Token>, m: Machine) {
    Consistent(all, m.buffer) && StackFine(m.buffer, m.stack)
  }

  /** Right behind a token that was read. */
  ghost predicate Behind(all: seq<Token>, m: Machine, token: Token) {
    Fine(all, m) && CanMark(all, m.buffer, token)
  }

  ghost predicate StatusFine(all: seq<Token>, s: Status) {
    match s
    case Idle(m) => Fine(all, m)
    case Pending(m, token) => Behind(all, m, token)
    case _ => true
  }

  // ----- stacks that leave less open

  predicate NoHeavier(node: StackNode, was: StackNode) {
    node.recording == was.recording && (node.mode == was.mode || node.mode.Plain?)
  }

  ghost predicate Lighter(stack: seq<StackNode>, was: seq<StackNode>) {
    |stack| == |was| && forall j :: 0 <= j < |stack| ==> NoHeavier(stack[j], was[j])
  }

  lemma LighterFine(buffer: Buffer, stack: seq<StackNode>, was: seq<StackNode>)
    requires StackFine(buffer, was) && Lighter(stack, was)
    ensures StackFine(buffer, stack)
  {
    forall j | 0 <= j < |stack|
      ensures NodeFine(buffer, stack[j])
    {
      assert NodeFine(buffer, was[j]) && NoHeavier(stack[j], was[j]);
    }
    forall j, k | 0 <= j < k < |stack| && stack[j].recording
      ensures stack[k].recording
    {
      assert NoHeavier(stack[j], was[j]) && NoHeavier(stack[k], was[k]);
    }
  }

  lemma {:induction false} LighterWeighsLess(b: nat, end: int, stack: seq<StackNode>, was: seq<StackNode>)
    requires Lighter(stack, was)
    ensures Potential(b, end, stack) <= Potential(b, end, was)
    decreases |stack|
  {
    if stack != [] {
      var n := |stack| - 1;
      forall j | 0 <= j < n
        ensures NoHeavier(stack[..n][j], was[..n][j])
      {
        assert NoHeavier(stack[j], was[j]);
      }
      LighterWeighsLess(b, end, stack[..n], was[..n]);
      assert NoHeavier(stack[n], was[n]);
    }
  }

  lemma PrefixFine(buffer: Buffer, stack: seq<StackNode>, i: nat)
    requires StackFine(buffer, stack) && i <= |stack|
    ensures StackFine(buffer, stack[..i])
  {
  }

  lemma {:induction false} PrefixWeighsLess(b: nat, end: int, stack: seq<StackNode>, i: nat)
    requires i <= |stack|
    ensures Potential(b, end, stack[..i]) <= Potential(b, end, stack)
    decreases |stack|
  {
    if i == |stack| {
      assert stack[..i] == stack;
    } else {
      var n := |stack| - 1;
      PrefixWeighsLess(b, end, stack[..n], i);
      assert stack[..n][..i] == stack[..i];
    }
  }

  lemma OneMoreNode(b: nat, end: int, stack: seq<StackNode>, node: StackNode)
    ensures Potential(b, end, stack + [node])
         == Potential(b, end, stack) + Times(ModeWeight(node.mode), Pow(b, Exponent(end, node.mode)))
  {
    assert (stack + [node])[..|stack|] == stack;
  }

  lemma {:induction false} NothingOpen(b: nat, end: int, stack: seq<StackNode>)
    requires forall j :: 0 <= j < |stack| ==> stack[j].mode.Plain?
    ensures Potential(b, end, stack) == 0
    decreases |stack|
  {
    if stack != [] {
      NothingOpen(b, end, stack[..|stack| - 1]);
    }
  }

  // ----- moving in the buffer

  /** A record that is in use keeps its place. */
  ghost predicate SameRecord(all: seq<Token>, buffer: Buffer, buffer': Buffer) {
    buffer.isRecording ==>
      buffer'.isRecording && Base(all, buffer') == Base(all, buffer) && |buffer.tokens| <= |buffer'.tokens|
  }

  lemma BufferMoved(b: nat, all: seq<Token>, buffer: Buffer, buffer': Buffer, stack: seq<StackNode>)
    requires StackFine(buffer, stack) && SameRecord(all, buffer, buffer')
    ensures StackFine(buffer', stack)
    ensures Potential(b, End(all, buffer'), stack) == Potential(b, End(all, buffer), stack)
  {
    assert forall j :: 0 <= j < |stack| ==> NodeFine(buffer, stack[j]);
    if !buffer.isRecording {
      NothingOpen(b, End(all, buffer), stack);
      NothingOpen(b, End(all, buffer'), stack);
    }
  }

  lemma ReadMoves(all: seq<Token>, buffer: Buffer)
    requires Consistent(all, buffer)
    ensures SameRecord(all, buffer, NextOf(buffer).0)
  {
    if buffer.isRecording {
      NextKeepsRecord(all, buffer);
    }
  }

  // ----- a plan takes a token

  lemma NodeAdded(b: nat, all: seq<Token>, buffer: Buffer, stack: seq<StackNode>, node: StackNode, buffer': Buffer)
    requires StackFine(buffer, stack) && stack != [] && SameRecord(all, buffer, buffer') && NodeFine(buffer', node)
    requires stack[|stack| - 1].recording ==> node.recording
    ensures StackFine(buffer', stack + [node])
    ensures var end := End(all, buffer');
            Potential(b, end, stack + [node])
            == Potential(b, End(all, buffer), stack) + Times(ModeWeight(node.mode), Pow(b, Exponent(end, node.mode)))
  {
    BufferMoved(b, all, buffer, buffer', stack);
    OneMoreNode(b, End(all, buffer'), stack, node);
    forall j, k | 0 <= j < k < |stack + [node]| && (stack + [node])[j].recording
      ensures (stack + [node])[k].recording
    {
      assert k == |stack| && j < k - 1 ==> stack[k - 1].recording;
    }
  }

  function Counted(m: Machine): seq<StackNode>
    requires m.stack != []
  {
    m.WithTos(m.Tos().(childrenCount := m.Tos().childrenCount + 1)).stack
  }

  lemma CountedFine(b: nat, all: seq<Token>, m: Machine)
    requires m.stack != [] && Fine(all, m)
    ensures StackFine(m.buffer, Counted(m))
    ensures Potential(b, End(all, m.buffer), Counted(m)) <= PotentialOf(b, all, m)
  {
    LighterFine(m.buffer, Counted(m), m.stack);
    LighterWeighsLess(b, End(all, m.buffer), Counted(m), m.stack);
  }

  /** What a push does to the stack and the buffer. */
  lemma PushShape(g: Grammar, m: Machine, push: Push, token: Token)
    requires m.stack != [] && CanStart(m.buffer)
    ensures var (m', recording) := ApplyPush(g, m, push, token, m.Tos().recording);
            && m'.stack == Counted(m) + [m'.Tos()] && recording == m'.Tos().recording
            && match push.mode
               case LLPush => m'.Tos().mode.Plain? && recording == m.Tos().recording && m'.buffer == m.buffer
               case AlternativePush(fallback, replay) =>
                 var point := BacktrackingPoint(|m.tree|, StartOf(m.buffer, token).1, m.Tos().childrenCount, replay);
                 m'.Tos().mode == Alternative(point, fallback) && recording && m'.buffer == StartOf(m.buffer, token).0
  {
  }

  /** What one way weighs that goes on from the last token. */
  function Worth(b: nat, all: seq<Token>, buffer: Buffer): nat {
    Pow(b, if Cursor(all, buffer) <= |all| then |all| - Cursor(all, buffer) + 1 else 0)
  }

  /** Where the machine is after some of a plan, with no more left open than this. */
  ghost predicate Within(b: nat, all: seq<Token>, m: Machine, token: Token, bound: nat, worth: nat) {
    && m.stack != [] && Behind(all, m, token) && CanStart(m.buffer)
    && PotentialOf(b, all, m) <= bound && Worth(b, all, m.buffer) == worth
  }

  lemma PushFine(g: Grammar, all: seq<Token>, m: Machine, push: Push, token: Token)
    requires m.stack != [] && Behind(all, m, token) && CanStart(m.buffer)
    ensures var (m', recording) := ApplyPush(g, m, push, token, m.Tos().recording);
            && Consistent(all, m'.buffer) && CanMark(all, m'.buffer, token) && recording == m'.Tos().recording
            && Cursor(all, m'.buffer) == Cursor(all, m.buffer) && SameRecord(all, m.buffer, m'.buffer)
            && NodeFine(m'.buffer, m'.Tos()) && (m.Tos().recording ==> recording)
            && m'.stack == Counted(m) + [m'.Tos()]
  {
    PushShape(g, m, push, token);
    StartAtCursor(all, m.buffer, token);
    assert NodeFine(m.buffer, m.Tos());
  }

  lemma NodeWeighs(b: nat, g: Grammar, all: seq<Token>, m: Machine, push: Push, token: Token)
    requires m.stack != [] && Behind(all, m, token) && CanStart(m.buffer)
    ensures var m' := ApplyPush(g, m, push, token, m.Tos().recording).0;
            Times(ModeWeight(m'.Tos().mode), Pow(b, Exponent(End(all, m'.buffer), m'.Tos().mode)))
            == Times(PushWeight(push), Worth(b, all, m.buffer))
  {
    PushShape(g, m, push, token);
    StartAtCursor(all, m.buffer, token);
    NextAtCursor(all, m.buffer);
  }

  lemma PushWeighs(b: nat, g: Grammar, all: seq<Token>, m: Machine, push: Push, token: Token, bound: nat, worth: nat)
    requires Within(b, all, m, token, bound, worth)
    ensures var (m', recording) := ApplyPush(g, m, push, token, m.Tos().recording);
            && recording == m'.Tos().recording && Cursor(all, m'.buffer) == Cursor(all, m.buffer)
            && Within(b, all, m', token, bound + Times(PushWeight(push), worth), worth)
  {
    var m' := ApplyPush(g, m, push, token, m.Tos().recording).0;
    CountedFine(b, all, m);
    PushFine(g, all, m, push, token);
    NodeWeighs(b, g, all, m, push, token);
    NodeAdded(b, all, m.buffer, Counted(m), m'.Tos(), m'.buffer);
  }

  lemma {:induction false} PushesWeigh(b: nat, g: Grammar, all: seq<Token>, m: Machine, pushes: seq<Push>, token: Token,
                                       bound: nat, worth: nat)
    requires Within(b, all, m, token, bound, worth)
    ensures var m' := ApplyPushes(g, m, pushes, token, m.Tos().recording);
            && Cursor(all, m'.buffer) == Cursor(all, m.buffer)
            && Within(b, all, m', token, bound + Times(PushesWeight(pushes), worth), worth)
    decreases |pushes|
  {
    if pushes != [] {
      PushWeighs(b, g, all, m, pushes[0], token, bound, worth);
      var (m', _) := ApplyPush(g, m, pushes[0], token, m.Tos().recording);
      var first := Times(PushWeight(pushes[0]), worth);
      PushesWeigh(b, g, all, m', pushes[1..], token, bound + first, worth);
      TimesSum(PushWeight(pushes[0]), PushesWeight(pushes[1..]), worth);
    }
  }

  lemma TopLighter(b: nat, all: seq<Token>, m: Machine, m': Machine)
    requires Fine(all, m) && m'.buffer == m.buffer && Lighter(m'.stack, m.stack)
    ensures Fine(all, m') && PotentialOf(b, all, m') <= PotentialOf(b, all, m)
  {
    LighterFine(m.buffer, m'.stack, m.stack);
    LighterWeighsLess(b, End(all, m.buffer), m'.stack, m.stack);
  }

  lemma PreparedLighter(g: Grammar, m: Machine, plan: Plan)
    requires PlanApplies(g, m, plan)
    ensures var m' := Prepare(g, m, plan);
            && m'.stack != [] && m'.buffer == m.buffer && Lighter(m'.stack, m.stack)
            && m'.Tos().recording == m.Tos().recording
  {
  }

  lemma PlanPushes(b: nat, g: Grammar, all: seq<Token>, m: Machine, plan: Plan, token: Token, bound: nat, worth: nat)
    requires Within(b, all, m, token, bound, worth) && PlanApplies(g, m, plan)
    ensures var m' := ApplyPushes(g, Prepare(g, m, plan), plan.pushes, token, m.Tos().recording);
            && Cursor(all, m'.buffer) == Cursor(all, m.buffer)
            && Within(b, all, m', token, bound + Times(PushesWeight(plan.pushes), worth), worth)
  {
    PreparedLighter(g, m, plan);
    TopLighter(b, all, m, Prepare(g, m, plan));
    PushesWeigh(b, g, all, Prepare(g, m, plan), plan.pushes, token, bound, worth);
  }

  lemma LeafWithin(b: nat, all: seq<Token>, m: Machine, type_: nat, token: Token, bound: nat, worth: nat)
    requires Within(b, all, m, token, bound, worth)
    ensures Within(b, all, AddLeaf(m, type_, token), token, bound, worth)
    ensures AddLeaf(m, type_, token).buffer == m.buffer
  {
    TopLighter(b, all, m, AddLeaf(m, type_, token));
  }

  /** A plan makes up for itself with less than its weight. */
  lemma PlanWeighs(b: nat, g: Grammar, all: seq<Token>, m: Machine, plan: Plan, token: Token, bound: nat, worth: nat)
    requires Within(b, all, m, token, bound, worth) && PlanApplies(g, m, plan)
    ensures var m' := ApplyPlan(g, m, plan, token);
            && Cursor(all, m'.buffer) == Cursor(all, m.buffer)
            && Within(b, all, m', token, bound + Times(PushesWeight(plan.pushes), worth), worth)
  {
    var m' := ApplyPlan(g, m, plan, token);
    if g.Info(plan.next).isNegativeLookahead {
      TopLighter(b, all, m, m');
    } else {
      PlanPushes(b, g, all, m, plan, token, bound, worth);
      var pushed := ApplyPushes(g, Prepare(g, m, plan), plan.pushes, token, m.Tos().recording);
      LeafWithin(b, all, pushed, plan.type_, token, bound + Times(PushesWeight(plan.pushes), worth), worth);
    }
  }

  // ----- an alternative is given up

  /** Back behind the token of the alternative, with one way less open. */
  ghost predicate GivesUp(b: nat, all: seq<Token>, m: Machine, i: nat, m': Machine)
    requires i < |m.stack|
  {
    && Fine(all, m') && 0 < Cursor(all, m'.buffer) <= |all| && Worth(b, all, m'.buffer) == MarkWorth(b, all, m, i)
    && PotentialOf(b, all, m') + MarkWorth(b, all, m, i) <= PotentialOf(b, all, m)
  }

  /** What is on the stack up to the alternative, with less left open there. */
  lemma UpToAlternative(b: nat, end: int, stack: seq<StackNode>, i: nat, node: StackNode)
    requires i < |stack|
    ensures Potential(b, end, stack[..i] + [node]) + Times(ModeWeight(stack[i].mode),
                                                           Pow(b, Exponent(end, stack[i].mode)))
         <= Potential(b, end, stack) + Times(ModeWeight(node.mode), Pow(b, Exponent(end, node.mode)))
  {
    PrefixWeighsLess(b, end, stack, i + 1);
    assert stack[..i + 1] == stack[..i] + [stack[i]];
    OneMoreNode(b, end, stack[..i], stack[i]);
    OneMoreNode(b, end, stack[..i], node);
  }

  /** The token of the alternative is read again. */
  lemma ResetReads(all: seq<Token>, m: Machine, i: nat)
    requires Fine(all, m) && i < |m.stack| && !m.stack[i].mode.Plain?
    ensures var mark := m.stack[i].mode.point.tokenIndex;
            var (buffer, token) := NextOf(ResetOf(m.buffer, mark));
            && token.Some? && Consistent(all, buffer) && CanMark(all, buffer, token.value)
            && SameRecord(all, m.buffer, buffer) && 0 < Cursor(all, buffer) <= |all|
            && |all| - Cursor(all, buffer) + 1 == End(all, m.buffer) - mark
  {
    assert NodeFine(m.buffer, m.stack[i]);
    var mark := m.stack[i].mode.point.tokenIndex;
    ResetToMark(all, m.buffer, mark);
    NextAtCursor(all, ResetOf(m.buffer, mark));
    ReadMoves(all, ResetOf(m.buffer, mark));
  }

  /** What weighs the alternative, with its token read again. */
  function MarkWorth(b: nat, all: seq<Token>, m: Machine, i: nat): nat
    requires i < |m.stack|
  {
    Pow(b, Exponent(End(all, m.buffer), m.stack[i].mode))
  }

  lemma FallbackShape(m: Machine, i: nat)
    requires i < |m.stack| && m.stack[i].mode.Alternative? && m.tree != []
    ensures var ready := FallbackReady(m, i).0;
            && ready.stack == m.stack[..i] + [ready.Tos()] && ready.Tos().recording == m.stack[i].recording
            && ready.Tos().mode.LastAlternative? && ready.Tos().mode.point == m.stack[i].mode.point
            && ready.buffer == NextOf(ResetOf(m.buffer, m.stack[i].mode.point.tokenIndex)).0
            && FallbackReady(m, i).1 == NextOf(ResetOf(m.buffer, m.stack[i].mode.point.tokenIndex)).1
  {
  }

  lemma FallbackReadyWeighs(b: nat, all: seq<Token>, m: Machine, i: nat)
    requires Fine(all, m) && i < |m.stack| && m.stack[i].mode.Alternative? && m.tree != []
    ensures var (ready, token) := FallbackReady(m, i);
            var mode, worth := m.stack[i].mode, MarkWorth(b, all, m, i);
            && token.Some? && ready.stack != [] && Behind(all, ready, token.value)
            && 0 < Cursor(all, ready.buffer) <= |all| && Worth(b, all, ready.buffer) == worth
            && PotentialOf(b, all, ready) + Times(ModeWeight(mode), worth)
               <= PotentialOf(b, all, m) + Times(PlanWeight(mode.point.replayPlan), worth)
  {
    var ready := FallbackReady(m, i).0;
    ResetReads(all, m, i);
    FallbackShape(m, i);
    PrefixFine(m.buffer, m.stack, i + 1);
    UpToAlternative(b, End(all, m.buffer), m.stack, i, ready.Tos());
    assert StackFine(m.buffer, ready.stack) by {
      assert NodeFine(m.buffer, m.stack[i]);
    }
    BufferMoved(b, all, m.buffer, ready.buffer, ready.stack);
  }

  /** The plan that is applied there uses up one of the ways. */
  lemma GivesUpBy(b: nat, g: Grammar, all: seq<Token>, m: Machine, i: nat, ready: Machine, plan: Plan, token: Token,
                  left: nat)
    requires i < |m.stack| && Behind(all, ready, token) && PlanApplies(g, ready, plan)
    requires 0 < Cursor(all, ready.buffer) <= |all| && Worth(b, all, ready.buffer) == MarkWorth(b, all, m, i)
    requires var worth := MarkWorth(b, all, m, i);
             PotentialOf(b, all, ready) + Times(PlanWeight(plan) + left, worth) <= PotentialOf(b, all, m) + Times(left,
                                                                                                                  worth)
    ensures GivesUp(b, all, m, i, ApplyPlan(g, ready, plan, token))
  {
    var worth, m' := MarkWorth(b, all, m, i), ApplyPlan(g, ready, plan, token);
    PlanWeighs(b, g, all, ready, plan, token, PotentialOf(b, all, ready), worth);
    Spent(PotentialOf(b, all, m), PotentialOf(b, all, ready), PotentialOf(b, all, m'), PushesWeight(plan.pushes), left,
          worth);
  }

  lemma FallbackIs(g: Grammar, m: Machine, i: nat)
    requires i < |m.stack| && m.stack[i].mode.Alternative? && Fallback(g, m, i).Ok?
    ensures m.tree != []
    ensures var (ready, token) := FallbackReady(m, i);
            var plan := m.stack[i].mode.fallbackPlan;
            token.Some? && PlanApplies(g, ready, plan)
            && Fallback(g, m, i).value == ApplyPlan(g, ready, plan, token.value)
  {
  }

  lemma FallbackWeighs(b: nat, g: Grammar, all: seq<Token>, m: Machine, i: nat)
    requires Fine(all, m) && i < |m.stack| && m.stack[i].mode.Alternative? && Fallback(g, m, i).Ok?
    ensures GivesUp(b, all, m, i, Fallback(g, m, i).value)
  {
    var (ready, token) := FallbackReady(m, i);
    var mode := m.stack[i].mode;
    FallbackIs(g, m, i);
    FallbackReadyWeighs(b, all, m, i);
    GivesUpBy(b, g, all, m, i, ready, mode.fallbackPlan, token.value, PlanWeight(mode.point.replayPlan));
  }

  lemma ReplayShape(m: Machine, i: nat)
    requires 0 < i < |m.stack| && m.stack[i].mode.LastAlternative?
    ensures var (ready, token) := ReplayReady(m, i);
            && ready.stack != [] && Lighter(ready.stack, m.stack[..i])
            && (ready.buffer, token) == NextOf(ResetOf(m.buffer, m.stack[i].mode.point.tokenIndex))
  {
  }

  lemma StopFine(b: nat, all: seq<Token>, m: Machine)
    requires Fine(all, m) && m.stack != []
    ensures Fine(all, StopUnlessRecording(m)) && PotentialOf(b, all, StopUnlessRecording(m)) == PotentialOf(b, all, m)
    ensures Cursor(all, StopUnlessRecording(m).buffer) == Cursor(all, m.buffer)
  {
  }

  lemma ReplayReadyWeighs(b: nat, all: seq<Token>, m: Machine, i: nat)
    requires Fine(all, m) && 0 < i < |m.stack| && m.stack[i].mode.LastAlternative?
    ensures var (ready, token) := ReplayReady(m, i);
            var mode, worth := m.stack[i].mode, MarkWorth(b, all, m, i);
            && token.Some? && ready.stack != [] && Behind(all, ready, token.value)
            && 0 < Cursor(all, ready.buffer) <= |all| && Worth(b, all, ready.buffer) == worth
            && PotentialOf(b, all, ready) + Times(ModeWeight(mode), worth) <= PotentialOf(b, all, m)
  {
    var ready, end := ReplayReady(m, i).0, End(all, m.buffer);
    ResetReads(all, m, i);
    ReplayShape(m, i);
    PrefixFine(m.buffer, m.stack, i);
    LighterFine(m.buffer, ready.stack, m.stack[..i]);
    LighterWeighsLess(b, end, ready.stack, m.stack[..i]);
    PrefixWeighsLess(b, end, m.stack, i + 1);
    assert m.stack[..i + 1] == m.stack[..i] + [m.stack[i]];
    OneMoreNode(b, end, m.stack[..i], m.stack[i]);
    BufferMoved(b, all, m.buffer, ready.buffer, ready.stack);
  }

  lemma ReplayIs(g: Grammar, m: Machine, i: nat)
    requires i < |m.stack| && m.stack[i].mode.LastAlternative? && Replay(g, m, i).Ok?
    ensures i > 0
    ensures var (ready, token) := ReplayReady(m, i);
            var plan := m.stack[i].mode.point.replayPlan;
            && token.Some? && PlanApplies(g, ready, plan)
            && Replay(g, m, i).value == StopUnlessRecording(ApplyPlan(g, ready, plan, token.value))
  {
  }

  lemma ReplayWeighs(b: nat, g: Grammar, all: seq<Token>, m: Machine, i: nat)
    requires Fine(all, m) && i < |m.stack| && m.stack[i].mode.LastAlternative? && Replay(g, m, i).Ok?
    ensures GivesUp(b, all, m, i, Replay(g, m, i).value)
  {
    ReplayIs(g, m, i);
    var (ready, token) := ReplayReady(m, i);
    var replay := m.stack[i].mode.point.replayPlan;
    ReplayReadyWeighs(b, all, m, i);
    GivesUpBy(b, g, all, m, i, ready, replay, token.value, 0);
    StoppedGivesUp(b, all, m, i, ApplyPlan(g, ready, replay, token.value));
  }

  lemma StoppedGivesUp(b: nat, all: seq<Token>, m: Machine, i: nat, m': Machine)
    requires i < |m.stack| && m'.stack != [] && GivesUp(b, all, m, i, m')
    ensures GivesUp(b, all, m, i, StopUnlessRecording(m'))
  {
    StopFine(b, all, m');
  }

  // ----- steps that leave the buffer in place

  lemma PrefixIsFine(b: nat, all: seq<Token>, m: Machine, m': Machine, i: nat)
    requires Fine(all, m) && i <= |m.stack| && m'.stack == m.stack[..i] && m'.buffer == m.buffer
    ensures Fine(all, m') && PotentialOf(b, all, m') <= PotentialOf(b, all, m)
  {
    PrefixFine(m.buffer, m.stack, i);
    PrefixWeighsLess(b, End(all, m.buffer), m.stack, i);
  }

  lemma {:induction false} PopFailedShape(m: Machine, i: nat)
    requires i < |m.stack| && PopFailed(m, i).Ok?
    ensures PopFailed(m, i).value.stack == m.stack[..i] && PopFailed(m, i).value.buffer == m.buffer
    decreases |m.stack|
  {
    var popped := PopNormal(m);
    var k := m.Tos().treeNodeIndex;
    var marked := popped.tree[k].(type_ := SetErrorRecoveryBit(popped.tree[k].type_));
    var m' := popped.(tree := popped.tree[k := marked]);
    if i + 1 == |m.stack| {
      assert PopFailed(m', i) == Ok(m');
    } else {
      PopFailedShape(m', i);
      assert m'.stack[..i] == m.stack[..i];
    }
  }

  /** The stack without an alternative that is done with, recording if it has to. */
  lemma StoppedFine(b: nat, all: seq<Token>, m: Machine, m': Machine)
    requires Fine(all, m) && m.stack != []
    requires m'.stack == m.stack && m'.buffer == if m.Tos().recording then m.buffer else StopOf(m.buffer)
    ensures Fine(all, m') && PotentialOf(b, all, m') == PotentialOf(b, all, m)
    ensures Cursor(all, m'.buffer) == Cursor(all, m.buffer)
  {
  }

  lemma EndWeighs(b: nat, all: seq<Token>, m: Machine)
    requires Fine(all, m) && m.stack != [] && EndOfNode(m).Ok?
    ensures var m' := EndOfNode(m).value;
            && Fine(all, m') && PotentialOf(b, all, m') <= PotentialOf(b, all, m) && |m'.stack| < |m.stack|
            && Cursor(all, m'.buffer) == Cursor(all, m.buffer)
            && (forall token :: CanMark(all, m.buffer, token) ==> CanMark(all, m'.buffer, token))
  {
    var m', n := EndOfNode(m).value, |m.stack| - 1;
    var below := Machine(m.stack[..n], m.tree, m.buffer);
    PrefixIsFine(b, all, m, below, n);
    if !m.Tos().mode.Plain? {
      var counted := below.WithTos(m'.Tos());
      TopLighter(b, all, below, counted);
      StoppedFine(b, all, counted, m');
    }
  }

  // ----- every step

  /** What is still open, with the tokens that are to come. */
  function OpenWith(w: nat, all: seq<Token>, s: Status): nat {
    match s
    case Idle(m) => PotentialOf(w + 1, all, m) + Times(w, Pow(w + 1, Remaining(all, m.buffer)))
    case Pending(m, _) => PotentialOf(w + 1, all, m) + Times(w, Pow(w + 1, Remaining(all, m.buffer) + 1))
    case _ => 0
  }

  ghost function Open(g: Grammar, all: seq<Token>, s: Status): nat {
    OpenWith(MostWeight(g), all, s)
  }

  function Depth(s: Status): nat {
    match s
    case Idle(m) => |m.stack|
    case Pending(m, _) => |m.stack|
    case _ => 0
  }

  function Turn(s: Status): nat {
    if s.Idle? then 1 else 0
  }

  predicate IsEnd(s: Status) {
    s.Done? || s.Panicked?
  }

  /** Fewer ways are open, or as many with fewer nodes on the stack, or a token was
      read. */
  ghost predicate Nearer(g: Grammar, all: seq<Token>, s: Status, s': Status) {
    || IsEnd(s')
    || Open(g, all, s') < Open(g, all, s)
    || (Open(g, all, s') == Open(g, all, s) && Depth(s') < Depth(s))
    || (Open(g, all, s') == Open(g, all, s) && Depth(s') == Depth(s) && Turn(s') < Turn(s))
  }

  /** Looking ahead changes only the state of the top node. */
  predicate Peeks(g: Grammar, s: Status) {
    && s.Pending? && s.machine.stack != []
    && var plan := g.Lookup(s.machine.Tos().state, s.token.transition);
       plan.Some? && plan.value.mode == PositivePeek
  }

  /** An alternative is given up. */
  lemma GivenUp(g: Grammar, all: seq<Token>, m: Machine, i: nat, m': Machine, s: Status)
    requires Fine(all, m) && i < |m.stack| && !m.stack[i].mode.Plain? && (s.Idle? || s.Pending?) && s.machine == m
    requires GivesUp(MostWeight(g) + 1, all, m, i, m')
    ensures Open(g, all, Idle(m')) < Open(g, all, s)
  {
    OneTokenLess(MostWeight(g), Remaining(all, m'.buffer));
  }

  /** What recovery leads to. */
  ghost predicate Recovers(g: Grammar, all: seq<Token>, m: Machine, hasToken: bool, s: Status, r: Recovery) {
    && Fine(all, r.machine) && (r.again ==> r.machine.buffer == m.buffer)
    && ((!r.again && Open(g, all, Idle(r.machine)) < Open(g, all, s))
        || (r.machine.buffer == m.buffer && |r.machine.stack| < |m.stack| && r.again == hasToken
            && PotentialOf(MostWeight(g) + 1, all, r.machine) <= PotentialOf(MostWeight(g) + 1, all, m)))
  }

  lemma RecoverAtWeighs(g: Grammar, all: seq<Token>, m: Machine, k: nat, hasToken: bool, s: Status)
    requires Fine(all, m) && k < |m.stack| && (s.Idle? || s.Pending?) && s.machine == m
    requires RecoverAt(g, m, k, hasToken).Some? && RecoverAt(g, m, k, hasToken).value.Ok?
    ensures Recovers(g, all, m, hasToken, s, RecoverAt(g, m, k, hasToken).value.value)
  {
    var b := MostWeight(g) + 1;
    if m.stack[k].mode.Alternative? {
      FallbackWeighs(b, g, all, m, k);
      GivenUp(g, all, m, k, Fallback(g, m, k).value, s);
    } else if m.stack[k].mode.LastAlternative? && FirstWasBetter(m, k) {
      ReplayWeighs(b, g, all, m, k);
      GivenUp(g, all, m, k, Replay(g, m, k).value, s);
    } else {
      PopFailedShape(m, k);
      PrefixIsFine(b, all, m, PopFailed(m, k).value, k);
    }
  }

  lemma {:induction false} RecoverWeighs(g: Grammar, all: seq<Token>, m: Machine, i: nat, hasToken: bool, s: Status)
    requires Fine(all, m) && i <= |m.stack| && (s.Idle? || s.Pending?) && s.machine == m
    requires Recover(g, m, i, hasToken).Ok?
    ensures Recovers(g, all, m, hasToken, s, Recover(g, m, i, hasToken).value)
    decreases i
  {
    if RecoverAt(g, m, i - 1, hasToken).Some? {
      RecoverAtWeighs(g, all, m, i - 1, hasToken, s);
    } else {
      RecoverWeighs(g, all, m, i - 1, hasToken, s);
    }
  }

  lemma ReadNearer(g: Grammar, all: seq<Token>, m: Machine)
    requires Fine(all, m)
    ensures var (buffer, token) := NextOf(m.buffer);
            var m' := m.(buffer := buffer);
            && Fine(all, m')
            && if token.None? then Open(g, all, Idle(m')) == Open(g, all, Idle(m))
               else Behind(all, m', token.value) && Open(g, all, Pending(m', token.value)) == Open(g, all, Idle(m))
  {
    ReadMoves(all, m.buffer);
    NextAtCursor(all, m.buffer);
    BufferMoved(MostWeight(g) + 1, all, m.buffer, NextOf(m.buffer).0, m.stack);
  }

  lemma IdleNearer(g: Grammar, all: seq<Token>, m: Machine)
    requires Fine(all, m)
    ensures StatusFine(all, StepIdle(g, m)) && Nearer(g, all, Idle(m), StepIdle(g, m))
  {
    if m.stack != [] {
      ReadNearer(g, all, m);
      var m' := m.(buffer := NextOf(m.buffer).0);
      if NextOf(m.buffer).1.None? {
        if g.Info(m.Tos().state).isFinal {
          if EndOfNode(m').Ok? {
            EndWeighs(MostWeight(g) + 1, all, m');
          }
        } else if ErrorRecovery(g, m', None).Ok? {
          RecoverWeighs(g, all, m', |m'.stack|, false, Idle(m'));
        }
      }
    }
  }

  lemma TakenWeighs(w: nat, k: nat, was: nat, now: nat, pushes: nat)
    requires pushes + 1 <= w && now <= was + Times(pushes, Pow(w + 1, k + 1))
    ensures now + Times(w, Pow(w + 1, k)) < was + Times(w, Pow(w + 1, k + 1))
  {
    OneTokenLess(w, k);
    TimesGrows(pushes + 1, w, Pow(w + 1, k + 1));
  }

  lemma WorthOfToken(b: nat, all: seq<Token>, buffer: Buffer)
    requires Consistent(all, buffer)
    ensures Worth(b, all, buffer) == Pow(b, Remaining(all, buffer) + 1)
  {
    NextAtCursor(all, buffer);
  }

  lemma TakeWeighs(b: nat, g: Grammar, all: seq<Token>, m: Machine, plan: Plan, token: Token, k: nat)
    requires Behind(all, m, token) && PlanApplies(g, m, plan) && k == Remaining(all, m.buffer)
    ensures var m' := ApplyPlan(g, m, plan, token);
            && Fine(all, m') && Remaining(all, m'.buffer) == k
            && PotentialOf(b, all, m') <= PotentialOf(b, all, m) + Times(PushesWeight(plan.pushes), Pow(b, k + 1))
  {
    WorthOfToken(b, all, m.buffer);
    PlanWeighs(b, g, all, m, plan, token, PotentialOf(b, all, m), Pow(b, k + 1));
  }

  lemma TakenIsLess(w: nat, all: seq<Token>, m: Machine, m': Machine, token: Token, pushes: nat)
    requires pushes + 1 <= w && Remaining(all, m'.buffer) == Remaining(all, m.buffer)
    requires PotentialOf(w + 1, all, m')
             <= PotentialOf(w + 1, all, m) + Times(pushes, Pow(w + 1, Remaining(all, m.buffer) + 1))
    ensures OpenWith(w, all, Idle(m')) < OpenWith(w, all, Pending(m, token))
  {
    TakenWeighs(w, Remaining(all, m.buffer), PotentialOf(w + 1, all, m), PotentialOf(w + 1, all, m'), pushes);
  }

  lemma TakeNearer(w: nat, g: Grammar, all: seq<Token>, m: Machine, plan: Plan, token: Token)
    requires Behind(all, m, token) && PlanApplies(g, m, plan) && PlanWeight(plan) <= w
    ensures var m' := ApplyPlan(g, m, plan, token);
            Fine(all, m') && OpenWith(w, all, Idle(m')) < OpenWith(w, all, Pending(m, token))
  {
    var m' := ApplyPlan(g, m, plan, token);
    TakeWeighs(w + 1, g, all, m, plan, token, Remaining(all, m.buffer));
    TakenIsLess(w, all, m, m', token, PushesWeight(plan.pushes));
  }

  lemma ErrorNodeNearer(g: Grammar, all: seq<Token>, m: Machine, nonterminal: nat, token: Token)
    requires Behind(all, m, token) && m.stack != []
    ensures var m' := AddErrorNode(m, nonterminal, token);
            Fine(all, m') && Open(g, all, Idle(m')) < Open(g, all, Pending(m, token))
  {
    var w := MostWeight(g);
    TopLighter(w + 1, all, m, AddErrorNode(m, nonterminal, token));
    OneTokenLess(w, Remaining(all, m.buffer));
    TimesGrows(1, w, Pow(w + 1, Remaining(all, m.buffer) + 1));
  }

  lemma PendingNearer(g: Grammar, all: seq<Token>, m: Machine, token: Token)
    requires Behind(all, m, token) && !Peeks(g, Pending(m, token))
    ensures StatusFine(all, StepPending(g, m, token)) && Nearer(g, all, Pending(m, token), StepPending(g, m, token))
  {
    if m.stack != [] {
      var plan := g.Lookup(m.Tos().state, token.transition);
      if plan.Some? {
        if PlanApplies(g, m, plan.value) {
          WeightBounded(g, m.Tos().state, token.transition);
          TakeNearer(MostWeight(g), g, all, m, plan.value, token);
        }
      } else if g.Info(m.Tos().state).isFinal {
        if EndOfNode(m).Ok? {
          EndWeighs(MostWeight(g) + 1, all, m);
        }
      } else if g.Info(m.Tos().state).errorNode.Some? {
        ErrorNodeNearer(g, all, m, g.Info(m.Tos().state).errorNode.value, token);
      } else if Recover(g, m, |m.stack|, true).Ok? {
        RecoverWeighs(g, all, m, |m.stack|, true, Pending(m, token));
      }
    }
  }

  lemma StepNearer(g: Grammar, all: seq<Token>, s: Status)
    requires StatusFine(all, s) && !Peeks(g, s) && !IsEnd(s)
    ensures StatusFine(all, Step(g, s)) && Nearer(g, all, s, Step(g, s))
  {
    match s
    case Idle(m) => IdleNearer(g, all, m);
    case Pending(m, token) => PendingNearer(g, all, m, token);
    case _ =>
  }

  lemma PeekKeeps(g: Grammar, all: seq<Token>, s: Status)
    requires StatusFine(all, s) && Peeks(g, s)
    ensures StatusFine(all, Step(g, s)) && Step(g, s).Pending?
    ensures Open(g, all, Step(g, s)) <= Open(g, all, s) && Depth(Step(g, s)) == Depth(s)
  {
    var m, plan := s.machine, g.Lookup(s.machine.Tos().state, s.token.transition).value;
    var m' := m.WithTos(m.Tos().(state := plan.next));
    TopLighter(MostWeight(g) + 1, all, m, m');
    assert Step(g, s) == Pending(m', s.token);
  }

  // ----- whole runs

  /** From some step on the parser only looks ahead. */
  ghost predicate OnlyPeeks(g: Grammar, s: Status, n: nat) {
    forall k: nat :: n <= k ==> Peeks(g, Run(g, s, k))
  }

  ghost predicate PeeksForever(g: Grammar, s: Status) {
    exists n: nat :: OnlyPeeks(g, s, n)
  }

  lemma PeeksLater(g: Grammar, s: Status)
    requires PeeksForever(g, Step(g, s))
    ensures PeeksForever(g, s)
  {
    var n: nat :| OnlyPeeks(g, Step(g, s), n);
    forall k: nat | n + 1 <= k
      ensures Peeks(g, Run(g, s, k))
    {
      RunOnce(g, s, k);
      assert Peeks(g, Run(g, Step(g, s), k - 1));
    }
    assert OnlyPeeks(g, s, n + 1);
  }

  lemma SomethingElse(g: Grammar, s: Status) returns (k: nat)
    requires !PeeksForever(g, s)
    ensures !Peeks(g, Run(g, s, k))
  {
    assert !OnlyPeeks(g, s, 0);
    k :| !Peeks(g, Run(g, s, k));
  }

  /** The run comes to its end, the next step that does not look ahead being the
      `k`-th. */
  lemma {:induction false} RunFrom(g: Grammar, all: seq<Token>, s: Status, k: nat) returns (n: nat)
    requires StatusFine(all, s) && !PeeksForever(g, s) && !Peeks(g, Run(g, s, k))
    ensures IsEnd(Run(g, s, n))
    decreases Open(g, all, s), Depth(s), Turn(s), k
  {
    if IsEnd(s) {
      n := 0;
    } else {
      if PeeksForever(g, Step(g, s)) {
        PeeksLater(g, s);
      }
      if Peeks(g, s) {
        PeekKeeps(g, all, s);
        RunOnce(g, s, k);
        n := RunFrom(g, all, Step(g, s), k - 1);
      } else {
        StepNearer(g, all, s);
        n := 0;
        if !IsEnd(Step(g, s)) {
          var k' := SomethingElse(g, Step(g, s));
          n := RunFrom(g, all, Step(g, s), k');
        }
      }
      n := n + 1;
      RunOnce(g, s, n);
    }
  }

  lemma StartFine(g: Grammar, root: nat, all: seq<Token>)
    ensures StatusFine(all, Start(g, root, all))
  {
    assert all[..] == all && all[|all|..] == [];
  }

  ghost predicate Ends(g: Grammar, s: Status) {
    exists n: nat :: IsEnd(Run(g, s, n))
  }

  lemma EndedPeeksNoMore(g: Grammar, s: Status, n: nat, from: nat)
    requires IsEnd(Run(g, s, n))
    ensures !OnlyPeeks(g, s, from)
  {
    RunJoin(g, s, n, from);
    RunDone(g, Run(g, s, n), from);
    assert !Peeks(g, Run(g, s, n + from));
  }

  /** A run comes to an end if and only if it does not go on looking ahead forever. */
  lemma RunEndsExactly(g: Grammar, root: nat, all: seq<Token>)
    ensures Ends(g, Start(g, root, all)) <==> !PeeksForever(g, Start(g, root, all))
  {
    var s := Start(g, root, all);
    if n: nat :| IsEnd(Run(g, s, n)) {
      forall from: nat
        ensures !OnlyPeeks(g, s, from)
      {
        EndedPeeksNoMore(g, s, n, from);
      }
    }
    if !PeeksForever(g, s) {
      StartFine(g, root, all);
      var k := SomethingElse(g, s);
      var n := RunFrom(g, all, s, k);
    }
  }

  /** No plan looks ahead. */
  ghost predicate NoPeeks(g: Grammar) {
    forall id, key :: id in g.states && key in g.states[id].plans ==> g.states[id].plans[key].mode != PositivePeek
  }

  /** With a grammar without lookaheads, every run ends, on all tokens. */
  lemma EveryRunEnds(g: Grammar, root: nat, all: seq<Token>)
    requires NoPeeks(g)
    ensures Ends(g, Start(g, root, all))
  {
    var s := Start(g, root, all);
    forall from: nat
      ensures !OnlyPeeks(g, s, from)
    {
      NotPeeking(g, Run(g, s, from));
    }
    RunEndsExactly(g, root, all);
  }

  lemma NotPeeking(g: Grammar, s: Status)
    requires NoPeeks(g)
    ensures !Peeks(g, s)
  {
  }

  /** So does every run with a grammar that was generated, on whatever tokens. */
  lemma GeneratedRunsEnd(g: Grammar, t: Tables, root: nat, all: seq<Token>)
    requires GrammarSound(g, t)
    ensures Ends(g, Start(g, root, all))
  {
    forall id, key | id in g.states && key in g.states[id].plans
      ensures g.states[id].plans[key].mode != PositivePeek
    {
      assert StateSound(g, t, id);
    }
    EveryRunEnds(g, root, all);
  }
}
