/** The part of an automaton that one rule contributes: how the pieces of a
    rule are joined, and why the joined piece spells what it should. */
module Fragments {
  import opened Rules
  import opened Languages
  import opened RuleLanguage
  import opened Nfa

  /** No state has more than one transition with a type. */
  ghost predicate OneTypedEach(n: Nfa) {
    forall p, i, j :: 0 <= p < |n| && 0 <= i < |n[p]| && 0 <= j < |n[p]| && n[p][i].kind.Some? && n[p][j].kind.Some?
      ==> i == j
  }

  ghost predicate Untyped(n: Nfa, p: nat)
    requires p < |n|
  {
    forall tr :: tr in n[p] ==> tr.kind.None?
  }

  ghost predicate Sound(n: Nfa) {
    WellFormed(n) && OneTypedEach(n)
  }

  /** `n` is `n0` with new states that lead to new states only. */
  ghost predicate Grown(n0: Nfa, n: Nfa) {
    Sound(n) && Extends(n0, n) && ClosedFrom(n, |n0|)
  }

  function At(s: nat, e: nat, port: Port): nat {
    if port == Start then s else e
  }

  ghost predicate SpellsRule(n: Nfa, names: Names, rule: Rule, s: nat, e: nat)
    requires names.Accepts(rule)
  {
    forall f, t :: Between(n, At(s, e, f), At(s, e, t)) == Built(names, rule, f, t)
  }

  /** `n` is `n0` with the states of `rule` added, `s` and `e` their ports. */
  ghost predicate Fragment(n0: Nfa, n: Nfa, names: Names, rule: Rule, s: nat, e: nat)
    requires names.Accepts(rule)
  {
    && Grown(n0, n)
    && |n0| <= s < |n| && |n0| <= e < |n| && s != e
    && Untyped(n, e)
    && SpellsRule(n, names, rule, s, e)
  }

  /** Two new states without transitions. */
  ghost predicate FreshPair(n0: Nfa, n: Nfa) {
    n == n0 + [[], []]
  }

  lemma FreshPairGrown(n0: Nfa, n: Nfa)
    requires Sound(n0) && FreshPair(n0, n)
    ensures Grown(n0, n) && n[|n0|] == [] && n[|n0| + 1] == []
  {
    assert n[..|n0|] == n0;
    assert forall p :: 0 <= p < |n0| ==> n[p] == n0[p];
  }

  lemma GrownTrans(n0: Nfa, n1: Nfa, n2: Nfa)
    requires Grown(n0, n1) && Grown(n1, n2)
    ensures Grown(n0, n2)
  {
    assert forall p :: 0 <= p < |n1| ==> n2[p] == n2[..|n1|][p] == n1[p];
    assert n2[..|n0|] == n1[..|n0|];
  }

  /** A transition between new states, the first typed one of its state if it
      is typed, keeps the automaton grown. */
  lemma GrownByTransition(n0: Nfa, n: Nfa, x: nat, tr: NfaTransition)
    requires Grown(n0, n) && |n0| <= x < |n| && |n0| <= tr.to < |n|
    requires tr.kind.Some? ==> n[x] == []
    ensures Grown(n0, AddTransition(n, x, tr))
  {
    var n' := AddTransition(n, x, tr);
    assert n'[..|n0|] == n[..|n0|];
    assert forall p :: 0 <= p < |n| && p != x ==> n'[p] == n[p];
    assert n'[x] == n[x] + [tr];
  }

  lemma StuckGrown(n0: Nfa, n: Nfa, p: nat)
    requires Grown(n0, n) && p < |n0| && n0[p] == []
    ensures n[p] == []
  {
    assert n[p] == n[..|n0|][p];
  }

  // ----- one lemma for each way a rule is built

  lemma AtomSpells(n0: Nfa, n1: Nfa, n2: Nfa, t: TransitionType)
    requires Sound(n0) && FreshPair(n0, n1)
    requires n2 == AddTransition(n1, |n0|, NfaTransition(Some(t), |n0| + 1))
    ensures Grown(n0, n2) && n2[|n0| + 1] == []
    ensures Between(n2, |n0|, |n0|) == Epsilon()
    ensures Between(n2, |n0|, |n0| + 1) == Letter(t)
  {
    var s, e := |n0|, |n0| + 1;
    var tr := NfaTransition(Some(t), e);
    FreshPairGrown(n0, n1);
    GrownByTransition(n0, n1, s, tr);
    assert Grown(n0, n2) && n2[e] == n1[e];
    AtomWay(n1, s, e, t);
  }

  lemma AtomWay(n: Nfa, s: nat, e: nat, t: TransitionType)
    requires s < |n| && e < |n| && s != e && n[s] == [] && n[e] == []
    ensures Between(AddTransition(n, s, NfaTransition(Some(t), e)), s, s) == Epsilon()
    ensures Between(AddTransition(n, s, NfaTransition(Some(t), e)), s, e) == Letter(t)
  {
    var tr := NfaTransition(Some(t), e);
    BetweenStuck(n, e, s);
    BetweenStuck(n, e, e);
    assert iset{Label(tr)} == Letter(t);
    FirstMove(n, s, tr, e);
    CatEpsilon(iset{Label(tr)});
  }

  /** The two transitions that hang one alternative between `s` and `e`. */
  lemma AddBranch(n: Nfa, n2: Nfa, n3: Nfa, n4: Nfa, s: nat, e: nat, x: nat, y: nat)
    requires Sound(n) && Grown(n, n2) && s < |n| && e < |n| && s != e && n[e] == []
    requires |n| <= x < |n2| && |n| <= y < |n2|
    requires Between(n, s, s) == Epsilon()
    requires n3 == AddTransition(n2, s, EmptyMove(x)) && n4 == AddTransition(n3, y, EmptyMove(e))
    ensures Between(n4, s, s) == Epsilon()
    ensures Between(n4, s, e) == Between(n, s, e) + Between(n2, x, y)
    ensures n4[e] == []
  {
    StuckGrown(n, n2, e);
    EnterBranch(n, n2, n3, s, e, x, y);
    LeaveBy(n3, y, EmptyMove(e), s);
    LeaveElsewhere(n3, y, EmptyMove(e), s, s);
  }

  lemma EnterBranch(n: Nfa, n2: Nfa, n3: Nfa, s: nat, e: nat, x: nat, y: nat)
    requires Sound(n) && Grown(n, n2) && s < |n| && e < |n|
    requires |n| <= x < |n2| && |n| <= y < |n2|
    requires Between(n, s, s) == Epsilon()
    requires n3 == AddTransition(n2, s, EmptyMove(x))
    ensures Between(n3, s, s) == Epsilon()
    ensures Between(n3, s, e) == Between(n, s, e)
    ensures Between(n3, s, y) == Between(n2, x, y)
  {
    BetweenBelow(n2, |n|, x, s);
    BetweenBelow(n2, |n|, x, e);
    BetweenInPrefix(n, n2, s, s);
    BetweenInPrefix(n, n2, s, e);
    BetweenInPrefix(n, n2, s, y);
    ForwardMoveElsewhere(n2, s, EmptyMove(x), s, s);
    ForwardMoveElsewhere(n2, s, EmptyMove(x), s, e);
    EnterBy(n2, s, EmptyMove(x), y);
  }

  lemma OneWayFragment(n0: Nfa, n: Nfa, names: Names, rule: Rule, s: nat, e: nat, a: Lang)
    requires names.Accepts(rule) && Grown(n0, n) && |n0| <= s < |n| && |n0| <= e < |n| && s != e
    requires n[e] == [] && Between(n, s, s) == Epsilon() && Between(n, s, e) == a
    requires forall f, p :: Built(names, rule, f, p) == OneWay(a, f, p)
    ensures Fragment(n0, n, names, rule, s, e)
  {
    BetweenStuck(n, e, s);
    BetweenStuck(n, e, e);
  }

  lemma OptionFragment(n0: Nfa, n: Nfa, n1: Nfa, names: Names, r: Rule, s: nat, e: nat)
    requires names.Accepts(r) && Fragment(n0, n, names, r, s, e)
    requires n1 == AddTransition(n, s, EmptyMove(e))
    ensures Fragment(n0, n1, names, Maybe(r), s, e)
  {
    GrownByTransition(n0, n, s, EmptyMove(e));
    forall f, t: Port
      ensures Between(n1, At(s, e, f), At(s, e, t)) == Built(names, Maybe(r), f, t)
    {
      AddEmptyMove(n, s, e, At(s, e, f), At(s, e, t));
      FragmentPorts(n, names, r, s, e, f, t);
    }
  }

  lemma RepeatFragment(n0: Nfa, n: Nfa, n1: Nfa, names: Names, r: Rule, s: nat, e: nat)
    requires names.Accepts(r) && Fragment(n0, n, names, r, s, e)
    requires n1 == AddTransition(n, e, EmptyMove(s))
    ensures Fragment(n0, n1, names, Multiple(r), s, e)
  {
    GrownByTransition(n0, n, e, EmptyMove(s));
    forall f, t: Port
      ensures Between(n1, At(s, e, f), At(s, e, t)) == Built(names, Multiple(r), f, t)
    {
      AddEmptyMove(n, e, s, At(s, e, f), At(s, e, t));
      FragmentPorts(n, names, r, s, e, f, t);
    }
  }

  lemma FragmentPorts(n: Nfa, names: Names, r: Rule, s: nat, e: nat, f: Port, t: Port)
    requires names.Accepts(r) && SpellsRule(n, names, r, s, e)
    ensures Between(n, At(s, e, f), At(s, e, t)) == Built(names, r, f, t)
    ensures Between(n, At(s, e, f), s) == Built(names, r, f, Start)
    ensures Between(n, At(s, e, f), e) == Built(names, r, f, End)
    ensures Between(n, s, At(s, e, t)) == Built(names, r, Start, t)
    ensures Between(n, e, At(s, e, t)) == Built(names, r, End, t)
    ensures Between(n, s, e) == Built(names, r, Start, End)
    ensures Between(n, e, s) == Built(names, r, End, Start)
  {
    assert At(s, e, Start) == s && At(s, e, End) == e;
  }

  /** An alternative hung between two states: what was between them before, and
      the language of the alternative. */
  lemma BranchHung(n0: Nfa, n1: Nfa, n2: Nfa, n3: Nfa, n4: Nfa, names: Names, rule: Rule, s: nat, e: nat, x: nat,
                   y: nat)
    requires names.Accepts(rule) && Grown(n0, n1) && Fragment(n1, n2, names, rule, x, y)
    requires |n0| <= s < |n1| && |n0| <= e < |n1| && s != e && n1[e] == [] && Between(n1, s, s) == Epsilon()
    requires n3 == AddTransition(n2, s, EmptyMove(x)) && n4 == AddTransition(n3, y, EmptyMove(e))
    ensures Grown(n0, n4) && |n1| <= |n4| && n4[e] == [] && Between(n4, s, s) == Epsilon()
    ensures Between(n4, s, e) == Between(n1, s, e) + Built(names, rule, Start, End)
  {
    GrownTrans(n0, n1, n2);
    FragmentPorts(n2, names, rule, x, y, Start, End);
    GrownByTransition(n0, n2, s, EmptyMove(x));
    GrownByTransition(n0, n3, y, EmptyMove(e));
    AddBranch(n1, n2, n3, n4, s, e, x, y);
  }

  lemma SequenceFragment(n0: Nfa, n1: Nfa, n2: Nfa, n3: Nfa, names: Names, r1: Rule, r2: Rule,
                         s1: nat, e1: nat, s2: nat, e2: nat)
    requires names.Accepts(r1) && names.Accepts(r2)
    requires Fragment(n0, n1, names, r1, s1, e1) && Fragment(n1, n2, names, r2, s2, e2)
    requires n3 == AddTransition(n2, e1, EmptyMove(s2))
    ensures Fragment(n0, n3, names, Next(r1, r2), s1, e2)
  {
    GrownTrans(n0, n1, n2);
    GrownByTransition(n0, n2, e1, EmptyMove(s2));
    SequenceParts(n0, n1, n2, names, r1, r2, s1, e1, s2, e2);
    SequencePorts(n2, n3, s1, e1, s2, e2);
    assert Built(names, Next(r1, r2), Start, End) == Cat(Built(names, r1, Start, End), Built(names, r2, Start, End));
    forall f, t: Port
      ensures Between(n3, At(s1, e2, f), At(s1, e2, t)) == Built(names, Next(r1, r2), f, t)
    {
    }
  }

  lemma SequenceParts(n0: Nfa, n1: Nfa, n2: Nfa, names: Names, r1: Rule, r2: Rule, s1: nat, e1: nat, s2: nat, e2: nat)
    requires names.Accepts(r1) && names.Accepts(r2)
    requires Fragment(n0, n1, names, r1, s1, e1) && Fragment(n1, n2, names, r2, s2, e2)
    ensures Between(n2, s2, e1) == Empty() && Between(n2, s1, e2) == Empty()
    ensures Between(n2, s2, s1) == Empty() && Between(n2, e2, s1) == Empty() && Between(n2, e2, e1) == Empty()
    ensures Between(n2, s1, s1) == Built(names, r1, Start, Start)
    ensures Between(n2, s1, e1) == Built(names, r1, Start, End)
    ensures Between(n2, s2, e2) == Built(names, r2, Start, End)
    ensures Between(n2, e2, e2) == Built(names, r2, End, End)
  {
    BetweenBelow(n2, |n1|, s2, e1);
    BetweenBelow(n2, |n1|, s2, s1);
    BetweenBelow(n2, |n1|, e2, s1);
    BetweenBelow(n2, |n1|, e2, e1);
    BetweenInPrefix(n1, n2, s1, e1);
    BetweenInPrefix(n1, n2, s1, s1);
    BetweenInPrefix(n1, n2, s1, e2);
    FragmentPorts(n1, names, r1, s1, e1, Start, Start);
    FragmentPorts(n2, names, r2, s2, e2, End, End);
  }

  /** Joining the end of one part to the start of another that nothing leads
      back from. */
  lemma SequencePorts(n2: Nfa, n3: Nfa, s1: nat, e1: nat, s2: nat, e2: nat)
    requires e1 < |n2| && n3 == AddTransition(n2, e1, EmptyMove(s2))
    requires Between(n2, s2, e1) == Empty() && Between(n2, s1, e2) == Empty()
    requires Between(n2, s2, s1) == Empty() && Between(n2, e2, s1) == Empty() && Between(n2, e2, e1) == Empty()
    ensures Between(n3, s1, s1) == Between(n2, s1, s1)
    ensures Between(n3, e2, e2) == Between(n2, e2, e2)
    ensures Between(n3, e2, s1) == Empty()
    ensures Between(n3, s1, e2) == Cat(Between(n2, s1, e1), Between(n2, s2, e2))
  {
    ForwardMoveElsewhere(n2, e1, EmptyMove(s2), s1, s1);
    EmptyForwardMove(n2, e1, s2, s1, e2);
    ForwardMoveElsewhere(n2, e1, EmptyMove(s2), e2, s1);
    ForwardMoveElsewhere(n2, e1, EmptyMove(s2), e2, e2);
  }

  /** A lookahead wraps the operand in two marked transitions. */
  lemma LookaheadWraps(n0: Nfa, n1: Nfa, n2: Nfa, n3: Nfa, n4: Nfa, s: nat, e: nat, t: TransitionType)
    requires Grown(n0, n1) && FreshPair(n1, n2)
    requires |n0| <= s < |n1| && |n0| <= e < |n1| && Untyped(n1, e)
    requires n3 == AddTransition(n2, |n1|, NfaTransition(Some(t), s))
    requires n4 == AddTransition(n3, e, NfaTransition(Some(LookaheadEnd), |n1| + 1))
    ensures Grown(n0, n4) && n4[|n1| + 1] == []
    ensures Between(n4, |n1|, |n1|) == Epsilon()
    ensures Between(n4, |n1|, |n1| + 1) == Guarded(t, Between(n1, s, e))
  {
    FreshPairGrown(n1, n2);
    GrownTrans(n0, n1, n2);
    GrownByTransition(n0, n2, |n1|, NfaTransition(Some(t), s));
    assert n3[e] == n2[e] == n1[e];
    LookaheadGrown(n0, n3, e, |n1| + 1, n1);
    LookaheadSpells(n1, n2, n3, n4, s, e, t);
  }

  lemma LookaheadGrown(n0: Nfa, n3: Nfa, e: nat, b: nat, n1: Nfa)
    requires Grown(n0, n3) && |n0| <= e < |n1| && |n1| <= |n3| && n3[e] == n1[e] && Untyped(n1, e) && |n0| <= b < |n3|
    ensures Grown(n0, AddTransition(n3, e, NfaTransition(Some(LookaheadEnd), b)))
  {
    var tr := NfaTransition(Some(LookaheadEnd), b);
    var n4 := AddTransition(n3, e, tr);
    assert n4[..|n0|] == n3[..|n0|];
    assert forall p :: 0 <= p < |n3| && p != e ==> n4[p] == n3[p];
    assert n4[e] == n3[e] + [tr];
    assert forall i :: 0 <= i < |n3[e]| ==> n3[e][i] in n3[e] && n3[e][i].kind.None?;
  }

  lemma LookaheadSpells(n1: Nfa, n2: Nfa, n3: Nfa, n4: Nfa, s: nat, e: nat, t: TransitionType)
    requires Sound(n1) && s < |n1| && e < |n1| && FreshPair(n1, n2)
    requires n3 == AddTransition(n2, |n1|, NfaTransition(Some(t), s))
    requires n4 == AddTransition(n3, e, NfaTransition(Some(LookaheadEnd), |n1| + 1))
    ensures Between(n4, |n1|, |n1|) == Epsilon()
    ensures Between(n4, |n1|, |n1| + 1) == Guarded(t, Between(n1, s, e))
    ensures n4[|n1| + 1] == []
  {
    var a, b := |n1|, |n1| + 1;
    var tr, tr' := NfaTransition(Some(t), s), NfaTransition(Some(LookaheadEnd), b);
    FreshPairGrown(n1, n2);
    LookaheadEnters(n1, n2, n3, s, e, t);
    LeaveBy(n3, e, tr', a);
    LeaveElsewhere(n3, e, tr', a, a);
  }

  lemma LookaheadEnters(n1: Nfa, n2: Nfa, n3: Nfa, s: nat, e: nat, t: TransitionType)
    requires Sound(n1) && s < |n1| && e < |n1| && FreshPair(n1, n2) && Grown(n1, n2)
    requires n3 == AddTransition(n2, |n1|, NfaTransition(Some(t), s))
    ensures Between(n3, |n1|, |n1|) == Epsilon()
    ensures Between(n3, |n1|, |n1| + 1) == Empty()
    ensures Between(n3, |n1|, e) == Cat(Letter(t), Between(n1, s, e))
  {
    var a, b := |n1|, |n1| + 1;
    var tr := NfaTransition(Some(t), s);
    BetweenInPrefix(n1, n2, s, a);
    BetweenInPrefix(n1, n2, s, b);
    BetweenInPrefix(n1, n2, s, e);
    FirstMove(n2, a, tr, e);
    BetweenStuck(n2, a, b);
    ForwardMoveElsewhere(n2, a, tr, a, b);
  }

  // ----- from every state of a rule its end can be reached

  ghost predicate Leads(n: Nfa, p: nat, q: nat) {
    exists path :: Walk(n, p, path, q)
  }

  ghost predicate AllLead(n0: Nfa, n: Nfa, end: nat) {
    forall p: nat :: |n0| <= p < |n| ==> Leads(n, p, end)
  }

  lemma LeadsJoin(n: Nfa, p: nat, q: nat, r: nat)
    requires Leads(n, p, q) && Leads(n, q, r)
    ensures Leads(n, p, r)
  {
    var path1 :| Walk(n, p, path1, q);
    var path2 :| Walk(n, q, path2, r);
    WalkJoin(n, p, path1, q, path2, r);
  }

  lemma LeadsHere(n: Nfa, p: nat)
    ensures Leads(n, p, p)
  {
    assert Walk(n, p, [], p);
  }

  lemma LeadsAdded(n: Nfa, x: nat, tr: NfaTransition)
    requires x < |n|
    ensures Leads(AddTransition(n, x, tr), x, tr.to)
    ensures forall p, q :: Leads(n, p, q) ==> Leads(AddTransition(n, x, tr), p, q)
  {
    var n' := AddTransition(n, x, tr);
    assert n'[x] == n[x] + [tr] && tr in n'[x];
    assert Walk(n', x, [tr], tr.to) by {
      assert [tr][1..] == [];
    }
    forall p, q | Leads(n, p, q)
      ensures Leads(n', p, q)
    {
      var path :| Walk(n, p, path, q);
      WalkMonotone(n, n', p, path, q);
    }
  }

  lemma LeadsExtended(n: Nfa, n': Nfa)
    requires Extends(n, n')
    ensures forall p, q :: Leads(n, p, q) ==> Leads(n', p, q)
  {
    forall p, q | Leads(n, p, q)
      ensures Leads(n', p, q)
    {
      var path :| Walk(n, p, path, q);
      assert forall p :: 0 <= p < |n| ==> n'[p] == n'[..|n|][p] == n[p];
      WalkMonotone(n, n', p, path, q);
    }
  }

  lemma SymbolLeads(n0: Nfa, n1: Nfa, n2: Nfa, t: TransitionType)
    requires FreshPair(n0, n1) && n2 == AddTransition(n1, |n0|, NfaTransition(Some(t), |n0| + 1))
    ensures AllLead(n0, n2, |n0| + 1)
  {
    LeadsAdded(n1, |n0|, NfaTransition(Some(t), |n0| + 1));
    LeadsHere(n2, |n0| + 1);
  }

  lemma SequenceLeads(n0: Nfa, n1: Nfa, n2: Nfa, n3: Nfa, e1: nat, s2: nat, e2: nat)
    requires Extends(n1, n2) && |n0| <= |n1| && AllLead(n0, n1, e1) && AllLead(n1, n2, e2)
    requires e1 < |n1| <= s2 < |n2| && n3 == AddTransition(n2, e1, EmptyMove(s2))
    ensures AllLead(n0, n3, e2)
  {
    LeadsExtended(n1, n2);
    LeadsAdded(n2, e1, EmptyMove(s2));
    LeadsJoin(n3, e1, s2, e2);
    forall p: nat | |n0| <= p < |n3|
      ensures Leads(n3, p, e2)
    {
      if p < |n1| {
        assert Leads(n1, p, e1);
        LeadsJoin(n3, p, e1, e2);
      } else {
        assert Leads(n2, p, e2);
      }
    }
  }

  /** All states but `s`, and `s` itself once a branch has been hung in. */
  ghost predicate AllButLead(n0: Nfa, n: Nfa, s: nat, e: nat, hung: bool) {
    forall p: nat :: |n0| <= p < |n| && (hung || p != s) ==> Leads(n, p, e)
  }

  lemma BranchLeads(n0: Nfa, n1: Nfa, n2: Nfa, n3: Nfa, n4: Nfa, s: nat, e: nat, x: nat, y: nat, hung: bool)
    requires Extends(n1, n2) && |n0| <= |n1| && AllButLead(n0, n1, s, e, hung) && AllLead(n1, n2, y)
    requires s < |n1| <= x < |n2| && y < |n2|
    requires n3 == AddTransition(n2, s, EmptyMove(x)) && n4 == AddTransition(n3, y, EmptyMove(e))
    ensures AllButLead(n0, n4, s, e, true)
  {
    LeadsExtended(n1, n2);
    LeadsAdded(n2, s, EmptyMove(x));
    LeadsAdded(n3, y, EmptyMove(e));
    forall p: nat | |n0| <= p < |n4|
      ensures Leads(n4, p, e)
    {
      if p >= |n1| {
        assert Leads(n2, p, y);
        LeadsJoin(n4, p, y, e);
      } else if p == s {
        assert Leads(n2, x, y);
        LeadsJoin(n4, x, y, e);
        LeadsJoin(n4, s, x, e);
      } else {
        assert Leads(n1, p, e);
      }
    }
  }

  lemma PairLeads(n0: Nfa, n1: Nfa)
    requires FreshPair(n0, n1)
    ensures AllButLead(n0, n1, |n0|, |n0| + 1, false)
  {
    LeadsHere(n1, |n0| + 1);
  }

  // ----- labels

  /** Nonterminals are those that the names give. */
  ghost predicate KindsKnown(names: Names, n: Nfa) {
    forall p, tr :: 0 <= p < |n| && tr in n[p] && tr.kind.Some? ==> KnownKind(names, tr.kind.value)
  }

  ghost predicate KnownKind(names: Names, kind: TransitionType) {
    kind.Nonterminal? ==> kind.nonterminal in names.nonterminals.Values
  }
}
