/** The automaton of one rule: its nondeterministic states, built from the
    rule, and the deterministic states constructed from them. */
module Automaton {
  import opened Rules
  import opened Languages
  import opened RuleLanguage
  import opened Nfa
  import opened Fragments
  import opened Powerset

  predicate MayBeOmitted(rule: Rule) {
    match rule
    case NodeMayBeOmitted(_) => true
    case Identifier(_) => false
    case Keyword(_) => false
    case Or(r1, r2) => MayBeOmitted(r1) || MayBeOmitted(r2)
    case Cut(r1, r2) => MayBeOmitted(r1) || MayBeOmitted(r2)
    case Next(r1, r2) => MayBeOmitted(r1) || MayBeOmitted(r2)
    case Maybe(r) => MayBeOmitted(r)
    case Multiple(r) => MayBeOmitted(r)
    case NegativeLookahead(r) => MayBeOmitted(r)
    case PositiveLookahead(r) => MayBeOmitted(r)
    case DoesErrorRecovery(r) => MayBeOmitted(r)
  }

  predicate NoLookahead(rule: Rule) {
    match rule
    case NegativeLookahead(_) => false
    case PositiveLookahead(_) => false
    case Identifier(_) => true
    case Keyword(_) => true
    case Or(r1, r2) => NoLookahead(r1) && NoLookahead(r2)
    case Cut(r1, r2) => NoLookahead(r1) && NoLookahead(r2)
    case Next(r1, r2) => NoLookahead(r1) && NoLookahead(r2)
    case Maybe(r) => NoLookahead(r)
    case Multiple(r) => NoLookahead(r)
    case NodeMayBeOmitted(r) => NoLookahead(r)
    case DoesErrorRecovery(r) => NoLookahead(r)
  }

  predicate RecoversErrors(rule: Rule) {
    match rule
    case DoesErrorRecovery(_) => true
    case Identifier(_) => false
    case Keyword(_) => false
    case Or(r1, r2) => RecoversErrors(r1) || RecoversErrors(r2)
    case Cut(r1, r2) => RecoversErrors(r1) || RecoversErrors(r2)
    case Next(r1, r2) => RecoversErrors(r1) || RecoversErrors(r2)
    case Maybe(r) => RecoversErrors(r)
    case Multiple(r) => RecoversErrors(r)
    case NegativeLookahead(r) => RecoversErrors(r)
    case PositiveLookahead(r) => RecoversErrors(r)
    case NodeMayBeOmitted(r) => RecoversErrors(r)
  }

  /** A row with one transition for each of its labels, none of them a lookahead,
      in a state where the rule can go on or end. */
  ghost predicate GoodRow(names: Names, dfas: seq<DfaState>, d: nat)
    requires d < |dfas|
  {
    var row := dfas[d].transitions;
    && (forall i, j :: 0 <= i < j < |row| ==> row[i].kind != row[j].kind)
    && (forall i :: 0 <= i < |row| ==> row[i].to < |dfas| && !IsLookahead(row[i].kind) && KnownKind(names, row[i].kind))
    && (dfas[d].isFinal || row != [])
  }

  lemma LabelsAreGood(n: Nfa, dfas: seq<DfaState>, names: Names, end: nat, d: nat)
    requires ValidDfas(n, dfas, end) && AllCalculated(dfas) && d < |dfas| && KindsKnown(names, n) && LookaheadFree(n)
    ensures var row := dfas[d].transitions;
            && (forall i, j :: 0 <= i < j < |row| ==> row[i].kind != row[j].kind)
            && forall i :: 0 <= i < |row| ==>
              row[i].to < |dfas| && !IsLookahead(row[i].kind) && KnownKind(names, row[i].kind)
  {
    var row := dfas[d].transitions;
    assert RowIsMoves(n, dfas, d);
    forall i | 0 <= i < |row|
      ensures row[i].to < |dfas| && !IsLookahead(row[i].kind) && KnownKind(names, row[i].kind)
    {
      RowMoves(n, dfas, end, d, i);
      assert row[i] in row;
    }
  }

  class RuleAutomaton {
    var nfaStates: Nfa
    var nodeMayBeOmitted: bool
    var doesErrorRecovery: bool
    var dfaStates: seq<DfaState>
    var nfaEndId: nat

    constructor ()
      ensures nfaStates == [] && dfaStates == [] && !nodeMayBeOmitted && !doesErrorRecovery
    {
      nfaStates, dfaStates, nfaEndId := [], [], 0;
      nodeMayBeOmitted := false;
      doesErrorRecovery := false;
    }

    method NewNfaStates() returns (start: nat, end: nat)
      modifies this`nfaStates
      ensures FreshPair(old(nfaStates), nfaStates)
      ensures start == |old(nfaStates)| && end == start + 1
      ensures LookaheadFree(old(nfaStates)) ==> LookaheadFree(nfaStates)
      ensures forall names :: KindsKnown(names, old(nfaStates)) ==> KindsKnown(names, nfaStates)
    {
      start, end := |nfaStates|, |nfaStates| + 1;
      nfaStates := nfaStates + [[]] + [[]];
    }

    method AddNfaTransition(start: nat, to: nat, kind: Option<TransitionType>)
      requires start < |nfaStates|
      modifies this`nfaStates
      ensures nfaStates == AddTransition(old(nfaStates), start, NfaTransition(kind, to))
      ensures LookaheadFree(old(nfaStates)) && (kind.None? || !IsLookahead(kind.value)) ==> LookaheadFree(nfaStates)
      ensures forall names :: KindsKnown(names, old(nfaStates)) && (kind.None? || KnownKind(names, kind.value))
                ==> KindsKnown(names, nfaStates)
    {
      nfaStates := nfaStates[start := nfaStates[start] + [NfaTransition(kind, to)]];
    }

    /** Adds the states of a rule. Between its start and end the automaton then
        spells exactly the words the construction is known to compute. */
    method Build(names: Names, rule: Rule) returns (start: nat, end: nat)
      requires names.Accepts(rule) && Sound(nfaStates)
      modifies this`nfaStates, this`nodeMayBeOmitted, this`doesErrorRecovery
      ensures Fragment(old(nfaStates), nfaStates, names, rule, start, end)
      ensures nodeMayBeOmitted == (old(nodeMayBeOmitted) || MayBeOmitted(rule))
      ensures doesErrorRecovery == (old(doesErrorRecovery) || RecoversErrors(rule))
      ensures NoLookahead(rule) && LookaheadFree(old(nfaStates)) ==> LookaheadFree(nfaStates)
      ensures KindsKnown(names, old(nfaStates)) ==> KindsKnown(names, nfaStates)
      ensures NoLookahead(rule) ==> AllLead(old(nfaStates), nfaStates, end)
      decreases rule, 0, 1
    {
      match rule {
        case Identifier(name) =>
          start, end := BuildSymbol(names, rule, names.Resolve(name));
        case Keyword(name) =>
          start, end := BuildSymbol(names, rule, KeywordToken(name));
        case Or(r1, r2) =>
          start, end := BuildOr(names, r1, r2);
        case Maybe(r) =>
          start, end := Build(names, r);
          ghost var n1 := nfaStates;
          AddNfaTransition(start, end, None);
          OptionFragment(old(nfaStates), n1, nfaStates, names, r, start, end);
          LeadsAdded(n1, start, EmptyMove(end));
        case Multiple(r) =>
          start, end := Build(names, r);
          ghost var n1 := nfaStates;
          AddNfaTransition(end, start, None);
          RepeatFragment(old(nfaStates), n1, nfaStates, names, r, start, end);
          LeadsAdded(n1, end, EmptyMove(start));
        case NegativeLookahead(r) =>
          start, end := BuildLookahead(names, r, NegativeLookaheadStart);
          OneWayFragment(old(nfaStates), nfaStates, names, rule, start, end,
                         Guarded(NegativeLookaheadStart, Built(names, r, Start, End)));
        case PositiveLookahead(r) =>
          start, end := BuildLookahead(names, r, PositiveLookaheadStart);
          OneWayFragment(old(nfaStates), nfaStates, names, rule, start, end,
                         Guarded(PositiveLookaheadStart, Built(names, r, Start, End)));
        case Next(r1, r2) =>
          start, end := BuildNext(names, r1, r2);
        case NodeMayBeOmitted(r) =>
          nodeMayBeOmitted := true;
          start, end := Build(names, r);
        case DoesErrorRecovery(r) =>
          doesErrorRecovery := true;
          start, end := Build(names, r);
      }
    }

    /** Two states and one typed transition. */
    method BuildSymbol(names: Names, ghost rule: Rule, kind: TransitionType) returns (start: nat, end: nat)
      requires names.Accepts(rule) && Sound(nfaStates) && !IsLookahead(kind) && KnownKind(names, kind)
      requires forall f, t :: Built(names, rule, f, t) == OneWay(Letter(kind), f, t)
      modifies this`nfaStates
      ensures Fragment(old(nfaStates), nfaStates, names, rule, start, end)
      ensures LookaheadFree(old(nfaStates)) ==> LookaheadFree(nfaStates)
      ensures KindsKnown(names, old(nfaStates)) ==> KindsKnown(names, nfaStates)
      ensures AllLead(old(nfaStates), nfaStates, end)
    {
      start, end := NewNfaStates();
      ghost var n1 := nfaStates;
      AddNfaTransition(start, end, Some(kind));
      AtomSpells(old(nfaStates), n1, nfaStates, kind);
      OneWayFragment(old(nfaStates), nfaStates, names, rule, start, end, Letter(kind));
      SymbolLeads(old(nfaStates), n1, nfaStates, kind);
    }

    /** The two states that alternatives are hung between. */
    method OpenOr() returns (start: nat, end: nat)
      requires Sound(nfaStates)
      modifies this`nfaStates
      ensures Grown(old(nfaStates), nfaStates) && |nfaStates| == |old(nfaStates)| + 2
      ensures start == |old(nfaStates)| && end == start + 1 && nfaStates[end] == []
      ensures Between(nfaStates, start, start) == Epsilon() && Between(nfaStates, start, end) == Empty()
      ensures AllButLead(old(nfaStates), nfaStates, start, end, false)
      ensures LookaheadFree(old(nfaStates)) ==> LookaheadFree(nfaStates)
      ensures forall names :: KindsKnown(names, old(nfaStates)) ==> KindsKnown(names, nfaStates)
    {
      ghost var n0 := nfaStates;
      start, end := NewNfaStates();
      FreshPairGrown(n0, nfaStates);
      PairLeads(n0, nfaStates);
      BetweenStuck(nfaStates, start, start);
      BetweenStuck(nfaStates, start, end);
    }

    method BuildOr(names: Names, r1: Rule, r2: Rule) returns (start: nat, end: nat)
      requires names.Accepts(Or(r1, r2)) && Sound(nfaStates)
      modifies this`nfaStates, this`nodeMayBeOmitted, this`doesErrorRecovery
      ensures Fragment(old(nfaStates), nfaStates, names, Or(r1, r2), start, end)
      ensures nodeMayBeOmitted == (old(nodeMayBeOmitted) || MayBeOmitted(Or(r1, r2)))
      ensures doesErrorRecovery == (old(doesErrorRecovery) || RecoversErrors(Or(r1, r2)))
      ensures NoLookahead(Or(r1, r2)) && LookaheadFree(old(nfaStates)) ==> LookaheadFree(nfaStates)
      ensures KindsKnown(names, old(nfaStates)) ==> KindsKnown(names, nfaStates)
      ensures NoLookahead(Or(r1, r2)) ==> AllLead(old(nfaStates), nfaStates, end)
      decreases Or(r1, r2), 0, 0
    {
      ghost var n0 := nfaStates;
      start, end := OpenOr();
      BuildBranch(names, r1, start, end, n0, false);
      BuildBranch(names, r2, start, end, n0, true);
      OneWayFragment(n0, nfaStates, names, Or(r1, r2), start, end,
                     Built(names, r1, Start, End) + Built(names, r2, Start, End));
    }

    method BuildNext(names: Names, r1: Rule, r2: Rule) returns (start: nat, end: nat)
      requires names.Accepts(Next(r1, r2)) && Sound(nfaStates)
      modifies this`nfaStates, this`nodeMayBeOmitted, this`doesErrorRecovery
      ensures Fragment(old(nfaStates), nfaStates, names, Next(r1, r2), start, end)
      ensures nodeMayBeOmitted == (old(nodeMayBeOmitted) || MayBeOmitted(Next(r1, r2)))
      ensures doesErrorRecovery == (old(doesErrorRecovery) || RecoversErrors(Next(r1, r2)))
      ensures NoLookahead(Next(r1, r2)) && LookaheadFree(old(nfaStates)) ==> LookaheadFree(nfaStates)
      ensures KindsKnown(names, old(nfaStates)) ==> KindsKnown(names, nfaStates)
      ensures NoLookahead(Next(r1, r2)) ==> AllLead(old(nfaStates), nfaStates, end)
      decreases Next(r1, r2), 0, 0
    {
      var start1, end1 := Build(names, r1);
      ghost var n1 := nfaStates;
      var start2, end2 := Build(names, r2);
      ghost var n2 := nfaStates;
      AddNfaTransition(end1, start2, None);
      SequenceFragment(old(nfaStates), n1, n2, nfaStates, names, r1, r2, start1, end1, start2, end2);
      if NoLookahead(Next(r1, r2)) {
        SequenceLeads(old(nfaStates), n1, n2, nfaStates, end1, start2, end2);
      }
      start, end := start1, end2;
    }

    /** One alternative of an `Or`, hung between its two states. */
    method BuildBranch(names: Names, rule: Rule, start: nat, end: nat, ghost n0: Nfa, ghost hung: bool)
      requires names.Accepts(rule) && Grown(n0, nfaStates)
      requires |n0| <= start < |nfaStates| && |n0| <= end < |nfaStates| && start != end && nfaStates[end] == []
      requires Between(nfaStates, start, start) == Epsilon()
      modifies this`nfaStates, this`nodeMayBeOmitted, this`doesErrorRecovery
      ensures Grown(n0, nfaStates) && |old(nfaStates)| <= |nfaStates| && nfaStates[end] == []
      ensures Between(nfaStates, start, start) == Epsilon()
      ensures Between(nfaStates, start, end) == Between(old(nfaStates), start, end) + Built(names, rule, Start, End)
      ensures nodeMayBeOmitted == (old(nodeMayBeOmitted) || MayBeOmitted(rule))
      ensures doesErrorRecovery == (old(doesErrorRecovery) || RecoversErrors(rule))
      ensures NoLookahead(rule) && LookaheadFree(old(nfaStates)) ==> LookaheadFree(nfaStates)
      ensures KindsKnown(names, old(nfaStates)) ==> KindsKnown(names, nfaStates)
      ensures NoLookahead(rule) && AllButLead(n0, old(nfaStates), start, end, hung) ==>
                AllButLead(n0, nfaStates, start, end, true)
      decreases rule, 1, 0
    {
      ghost var n1 := nfaStates;
      var x, y := Build(names, rule);
      ghost var n2 := nfaStates;
      AddNfaTransition(start, x, None);
      ghost var n3 := nfaStates;
      AddNfaTransition(y, end, None);
      BranchHung(n0, n1, n2, n3, nfaStates, names, rule, start, end, x, y);
      if NoLookahead(rule) && AllButLead(n0, n1, start, end, hung) {
        BranchLeads(n0, n1, n2, n3, nfaStates, start, end, x, y, hung);
      }
    }

    /** A lookahead: the operand between two transitions that mark it. */
    method BuildLookahead(names: Names, rule: Rule, kind: TransitionType) returns (start: nat, end: nat)
      requires names.Accepts(rule) && Sound(nfaStates) && (kind.PositiveLookaheadStart? || kind.NegativeLookaheadStart?)
      modifies this`nfaStates, this`nodeMayBeOmitted, this`doesErrorRecovery
      ensures Grown(old(nfaStates), nfaStates) && |old(nfaStates)| <= start < |nfaStates|
      ensures |old(nfaStates)| <= end < |nfaStates| && start != end && nfaStates[end] == []
      ensures Between(nfaStates, start, start) == Epsilon()
      ensures Between(nfaStates, start, end) == Guarded(kind, Built(names, rule, Start, End))
      ensures nodeMayBeOmitted == (old(nodeMayBeOmitted) || MayBeOmitted(rule))
      ensures doesErrorRecovery == (old(doesErrorRecovery) || RecoversErrors(rule))
      ensures KindsKnown(names, old(nfaStates)) ==> KindsKnown(names, nfaStates)
      decreases rule, 1, 0
    {
      ghost var n0 := nfaStates;
      var ruleStart, ruleEnd := Build(names, rule);
      ghost var n1 := nfaStates;
      assert Between(n1, ruleStart, ruleEnd) == Built(names, rule, Start, End) by {
        FragmentPorts(n1, names, rule, ruleStart, ruleEnd, Start, End);
      }
      start, end := NewNfaStates();
      ghost var n2 := nfaStates;
      AddNfaTransition(start, ruleStart, Some(kind));
      ghost var n3 := nfaStates;
      AddNfaTransition(ruleEnd, end, Some(LookaheadEnd));
      LookaheadWraps(n0, n1, n2, n3, nfaStates, ruleStart, ruleEnd, kind);
    }

    /** All states that ε-transitions lead to, on any graph, cycles included. */
    method GroupNfas(ids: seq<nat>) returns (group: set<nat>)
      requires WellFormed(nfaStates) && SetOf(ids) <= AllIds(nfaStates)
      ensures LeastClosed(nfaStates, SetOf(ids), group)
      decreases AllIds(nfaStates) - SetOf(ids)
    {
      var n := nfaStates;
      group := SetOf(ids);
      ghost var start := group;
      ghost var grouped := false;
      for i := 0 to |ids|
        invariant start <= group && Needed(n, start, group)
        invariant if grouped then ClosedUnderEmptyMoves(n, group) else group == start
        invariant grouped || forall k :: 0 <= k < i ==> EmptyMovesWithin(n, ids[k], start)
      {
        assert ids[i] in start;
        var transitions := n[ids[i]];
        for j := 0 to |transitions|
          invariant start <= group && Needed(n, start, group)
          invariant if grouped then ClosedUnderEmptyMoves(n, group) else group == start
          invariant grouped || forall k :: 0 <= k < i ==> EmptyMovesWithin(n, ids[k], start)
          invariant grouped || forall k :: 0 <= k < j && transitions[k].kind.None? ==> transitions[k].to in start
        {
          var transition := transitions[j];
          if transition.kind.None? {
            NeededStep(n, start, group, ids[i], transition);
            group := group + {transition.to};
            if transition.to !in ids {
              var nested := SetToList(group);
              assert transition.to in AllIds(n) - start;
              var more := GroupNfas(nested);
              NeededNested(n, start, group, more);
              group := group + more;
              assert group == more;
              grouped := true;
            } else {
              assert transition.to in start;
            }
          }
        }
        assert grouped || EmptyMovesWithin(n, ids[i], start);
      }
      if !grouped {
        assert ClosedUnderEmptyMoves(n, group);
      }
    }

    // ----- the powerset construction

    ghost predicate Constructing(end: nat)
      reads this
    {
      Sound(nfaStates) && LookaheadFree(nfaStates) && ValidDfas(nfaStates, dfaStates, end)
    }

    /** The deterministic state of a set, found or made. */
    method NfaToDfa(starts: seq<nat>, end: nat) returns (d: nat)
      requires Constructing(end) && SetOf(starts) <= AllIds(nfaStates) && SetOf(starts) != {}
      modifies this`dfaStates
      ensures Constructing(end) && DfasGrown(old(dfaStates), dfaStates)
      ensures d < |dfaStates| && dfaStates[d].nfaSet == Closure(nfaStates, SetOf(starts))
      ensures dfaStates == old(dfaStates) || (d == |old(dfaStates)| && !dfaStates[d].isCalculated
                                              && dfaStates[..d] == old(dfaStates) && |dfaStates| == d + 1)
    {
      var grouped := GroupNfas(starts);
      LeastClosedIsClosure(nfaStates, SetOf(starts), grouped);
      ClosureIsClosed(nfaStates, SetOf(starts));
      NotEmptier(SetOf(starts), grouped);
      d := FindOrAdd(grouped, end);
    }

    method FindOrAdd(grouped: set<nat>, end: nat) returns (d: nat)
      requires Constructing(end) && grouped != {} && grouped <= AllIds(nfaStates)
               && ClosedUnderEmptyMoves(nfaStates, grouped)
      modifies this`dfaStates
      ensures Constructing(end) && DfasGrown(old(dfaStates), dfaStates)
      ensures d < |dfaStates| && dfaStates[d].nfaSet == grouped
      ensures dfaStates == old(dfaStates) || (d == |old(dfaStates)| && !dfaStates[d].isCalculated
                                              && dfaStates[..d] == old(dfaStates) && |dfaStates| == d + 1)
    {
      for i := 0 to |dfaStates|
        invariant forall k :: 0 <= k < i ==> dfaStates[k].nfaSet != grouped
      {
        if dfaStates[i].nfaSet == grouped {
          return i;
        }
      }
      d := |dfaStates|;
      ghost var before := dfaStates;
      dfaStates := dfaStates + [DfaState(grouped, end in grouped, false, [])];
      AddedKeepsValid(nfaStates, before, dfaStates[d], end);
      assert dfaStates[..d] == before;
    }

    /** The typed transitions out of a set, grouped by type. */
    method GroupTransitions(nfaSet: set<nat>) returns (grouped: map<TransitionType, seq<nat>>)
      requires WellFormed(nfaStates) && nfaSet <= AllIds(nfaStates)
      ensures forall t :: t in grouped <==> Move(nfaStates, nfaSet, t) != {}
      ensures forall t :: t in grouped ==> SetOf(grouped[t]) == Move(nfaStates, nfaSet, t)
    {
      var n := nfaStates;
      grouped := map[];
      // Lower ids have higher priority, so the set is gone through in order.
      for id := 0 to |n|
        invariant GroupedSoFar(n, nfaSet, id, 0, grouped)
      {
        if id in nfaSet {
          var transitions := n[id];
          for j := 0 to |transitions|
            invariant GroupedSoFar(n, nfaSet, id, j, grouped)
          {
            GroupedByOneMore(n, nfaSet, id, j, grouped);
            match transitions[j].kind {
              case None =>
              case Some(t) =>
                if t in grouped {
                  grouped := grouped[t := grouped[t] + [transitions[j].to]];
                } else {
                  grouped := grouped[t := [transitions[j].to]];
                }
            }
          }
        }
        GroupedUpToState(n, nfaSet, id, grouped);
      }
      GroupedIsMove(n, nfaSet, grouped);
    }

    /** Calculates the transitions of a state and, through it, of every state
        that was not there before. */
    method ConstructPowersetForDfa(d: nat, end: nat)
      requires Constructing(end) && d < |dfaStates|
      modifies this`dfaStates
      ensures Constructing(end) && DfasGrown(old(dfaStates), dfaStates)
      ensures dfaStates[d].isCalculated
      ensures forall k :: |old(dfaStates)| <= k < |dfaStates| ==> dfaStates[k].isCalculated
      decreases Uncalculated(nfaStates, dfaStates), 0
    {
      if dfaStates[d].isCalculated {
        return;
      }
      ghost var first := dfaStates;
      var grouped := GroupTransitions(dfaStates[d].nfaSet);
      var transitions := MakeRow(dfaStates[d].nfaSet, grouped, end);
      CalculatedKeepsValid(nfaStates, dfaStates, d, transitions, end, grouped.Keys);
      dfaStates := dfaStates[d := dfaStates[d].(transitions := transitions, isCalculated := true)];
      ghost var marked := dfaStates;
      ConstructTargets(transitions, end);
      forall k | |first| <= k < |marked|
        ensures dfaStates[k].isCalculated
      {
        assert IsTarget(transitions, k);
      }
    }

    /** One more transition, to a state found or made. */
    method AddRowTransition(nfaSet: set<nat>, t: TransitionType, ids: seq<nat>, end: nat, row: seq<DfaTransition>,
                         ghost first: seq<DfaState>, ghost done: set<TransitionType>) returns (to: nat)
      requires Constructing(end) && SetOf(ids) == Move(nfaStates, nfaSet, t) != {} && t !in done
      requires DfasGrown(first, dfaStates) && dfaStates[..|first|] == first
      requires RowInProgress(nfaStates, dfaStates, nfaSet, row, done) && AllTargets(row, |first|, |dfaStates|)
      modifies this`dfaStates
      ensures Constructing(end) && DfasGrown(first, dfaStates) && dfaStates[..|first|] == first
      ensures RowInProgress(nfaStates, dfaStates, nfaSet, row + [DfaTransition(t, to)], done + {t})
      ensures AllTargets(row + [DfaTransition(t, to)], |first|, |dfaStates|)
    {
      ghost var before := dfaStates;
      MoveIsWithin(nfaStates, nfaSet, t);
      to := NfaToDfa(ids, end);
      RowStillInProgress(nfaStates, before, dfaStates, nfaSet, row, done, t, to);
      TargetsExtended(row, DfaTransition(t, to), |first|, |before|, |dfaStates|);
      PrefixKept(first, before, dfaStates);
    }

    /** One transition for each group, in any order, to a state found or made. */
    method MakeRow(nfaSet: set<nat>, grouped: map<TransitionType, seq<nat>>, end: nat)
      returns (transitions: seq<DfaTransition>)
      requires Constructing(end)
      requires forall t :: t in grouped ==> SetOf(grouped[t]) == Move(nfaStates, nfaSet, t) != {}
      modifies this`dfaStates
      ensures Constructing(end) && DfasGrown(old(dfaStates), dfaStates)
      ensures dfaStates[..|old(dfaStates)|] == old(dfaStates)
      ensures RowInProgress(nfaStates, dfaStates, nfaSet, transitions, grouped.Keys)
      ensures AllTargets(transitions, |old(dfaStates)|, |dfaStates|)
    {
      ghost var first := dfaStates;
      transitions := [];
      var kinds := grouped.Keys;
      while kinds != {}
        invariant Constructing(end) && DfasGrown(first, dfaStates) && dfaStates[..|first|] == first
        invariant kinds <= grouped.Keys
        invariant RowInProgress(nfaStates, dfaStates, nfaSet, transitions, grouped.Keys - kinds)
        invariant AllTargets(transitions, |first|, |dfaStates|)
        decreases kinds
      {
        var t :| t in kinds;
        var to := AddRowTransition(nfaSet, t, grouped[t], end, transitions, first, grouped.Keys - kinds);
        transitions := transitions + [DfaTransition(t, to)];
        assert grouped.Keys - (kinds - {t}) == grouped.Keys - kinds + {t};
        kinds := kinds - {t};
      }
      assert grouped.Keys - kinds == grouped.Keys;
    }

    method ConstructTargets(transitions: seq<DfaTransition>, end: nat)
      requires Constructing(end) && forall tr :: tr in transitions ==> tr.to < |dfaStates|
      modifies this`dfaStates
      ensures Constructing(end) && DfasGrown(old(dfaStates), dfaStates)
      ensures forall i :: 0 <= i < |transitions| ==> dfaStates[transitions[i].to].isCalculated
      ensures forall k :: |old(dfaStates)| <= k < |dfaStates| ==> dfaStates[k].isCalculated
      decreases Uncalculated(nfaStates, dfaStates), 1
    {
      ghost var marked := dfaStates;
      for i := 0 to |transitions|
        invariant Constructing(end) && DfasGrown(marked, dfaStates)
        invariant forall k :: 0 <= k < i ==> dfaStates[transitions[k].to].isCalculated
        invariant forall k :: |marked| <= k < |dfaStates| ==> dfaStates[k].isCalculated
      {
        GrownShrinksUncalculated(nfaStates, marked, dfaStates);
        assert transitions[i] in transitions;
        ConstructPowersetForDfa(transitions[i].to, end);
      }
    }

    method ConstructPowerset(start: nat, end: nat)
      requires Sound(nfaStates) && LookaheadFree(nfaStates) && dfaStates == []
      requires start < |nfaStates| && end < |nfaStates|
      modifies this`dfaStates
      ensures Constructing(end) && AllCalculated(dfaStates)
      ensures |dfaStates| > 0 && dfaStates[0].nfaSet == Closure(nfaStates, {start})
      ensures forall w :: Accepts(dfaStates, w) <==> w in Between(nfaStates, start, end)
    {
      assert SetOf([start]) == {start};
      var d := NfaToDfa([start], end);
      ConstructPowersetForDfa(d, end);
      forall w: Word
        ensures Accepts(dfaStates, w) <==> w in Between(nfaStates, start, end)
      {
        TableAcceptsSpelled(nfaStates, dfaStates, start, end, w);
      }
    }

    lemma RowsAreGood(names: Names, end: nat)
      requires Constructing(end) && AllCalculated(dfaStates) && KindsKnown(names, nfaStates)
               && AllLead([], nfaStates, end)
      ensures forall d :: 0 <= d < |dfaStates| ==> GoodRow(names, dfaStates, d)
    {
      forall d | 0 <= d < |dfaStates|
        ensures GoodRow(names, dfaStates, d)
      {
        var p: nat :| p in dfaStates[d].nfaSet;
        assert p in AllIds(nfaStates) && Leads(nfaStates, p, end);
        var path :| Walk(nfaStates, p, path, end);
        WalkMovesOn(nfaStates, dfaStates, end, d, p, path);
        LabelsAreGood(nfaStates, dfaStates, names, end, d);
      }
    }

    /** From a rule to its table: the table accepts exactly the words the
        construction computes, and these are the meaning of the rule when the
        operand of every option is a chain. */
    method Generate(names: Names, rule: Rule)
      requires names.Accepts(rule) && NoLookahead(rule)
      requires nfaStates == [] && dfaStates == [] && !nodeMayBeOmitted && !doesErrorRecovery
      modifies this
      ensures Constructing(nfaEndId) && AllCalculated(dfaStates) && |dfaStates| > 0
      ensures nodeMayBeOmitted == MayBeOmitted(rule) && doesErrorRecovery == RecoversErrors(rule)
      ensures forall w :: Accepts(dfaStates, w) <==> w in Built(names, rule, Start, End)
      ensures OptionsAreChains(rule) ==> forall w :: Accepts(dfaStates, w) <==> w in Meaning(names, rule)
      ensures forall d :: 0 <= d < |dfaStates| ==> GoodRow(names, dfaStates, d)
    {
      var start, end := Build(names, rule);
      nfaEndId := end;
      FragmentPorts(nfaStates, names, rule, start, end, Start, End);
      ConstructPowerset(start, end);
      RowsAreGood(names, end);
      if OptionsAreChains(rule) {
        BuiltIsMeaning(names, rule);
      }
    }
  }

  lemma NotEmptier(s: set<nat>, t: set<nat>)
    requires s != {} && s <= t
    ensures t != {}
  {
    var x :| x in s;
  }

  /** A hash set read out as a list, in any order. */
  method SetToList(s: set<nat>) returns (list: seq<nat>)
    ensures SetOf(list) == s
  {
    list := [];
    var rest := s;
    while rest != {}
      invariant rest <= s && SetOf(list) == s - rest
      decreases rest
    {
      var x :| x in rest;
      assert SetOf(list + [x]) == SetOf(list) + {x};
      list := list + [x];
      rest := rest - {x};
    }
  }
}
