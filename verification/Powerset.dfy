/** Deterministic states as sets of nondeterministic ones, and the language of
    the table they form. */
module Powerset {
  import opened Rules
  import opened Languages
  import opened Nfa

  datatype DfaTransition = DfaTransition(kind: TransitionType, to: nat)

  datatype DfaState = DfaState(
    nfaSet: set<nat>,
    isFinal: bool,
    isCalculated: bool,
    transitions: seq<DfaTransition>)

  function SetOf(ids: seq<nat>): set<nat> {
    set i | i in ids
  }

  predicate IsId(n: Nfa, i: nat) {
    i < |n|
  }

  function AllIds(n: Nfa): set<nat> {
    set i: nat | i < |n| && IsId(n, i)
  }

  // ----- ε-closures

  ghost predicate ReachedSilently(n: Nfa, s: set<nat>, q: nat) {
    exists p :: p in s && Spells(n, p, [], q)
  }

  /** All states that ε-transitions lead to from `s`, `s` included. */
  ghost function Closure(n: Nfa, s: set<nat>): set<nat> {
    set q | q in AllIds(n) && ReachedSilently(n, s, q)
  }

  ghost predicate ClosedUnderEmptyMoves(n: Nfa, s: set<nat>) {
    forall p, tr :: p in s && p < |n| && tr in n[p] && tr.kind.None? ==> tr.to in s
  }

  lemma {:induction false} SilentWalkStays(n: Nfa, s: set<nat>, p: nat, path: seq<NfaTransition>, q: nat)
    requires ClosedUnderEmptyMoves(n, s) && p in s
    requires Walk(n, p, path, q) && Spelled(path) == []
    ensures q in s
    decreases |path|
  {
    if path != [] {
      assert Label(path[0]) == [];
      SilentWalkStays(n, s, path[0].to, path[1..], q);
    }
  }

  lemma ClosureIsClosed(n: Nfa, s: set<nat>)
    requires WellFormed(n) && s <= AllIds(n)
    ensures s <= Closure(n, s) <= AllIds(n)
    ensures ClosedUnderEmptyMoves(n, Closure(n, s))
  {
    forall p | p in s
      ensures ReachedSilently(n, s, p)
    {
      SpellsNothing(n, p);
    }
    forall p, tr | p in Closure(n, s) && p < |n| && tr in n[p] && tr.kind.None?
      ensures tr.to in Closure(n, s)
    {
      SilentStepInClosure(n, s, p, tr);
    }
  }

  lemma SilentStepInClosure(n: Nfa, s: set<nat>, p: nat, tr: NfaTransition)
    requires WellFormed(n) && p in Closure(n, s) && p < |n| && tr in n[p] && tr.kind.None?
    ensures tr.to in Closure(n, s)
  {
    SilentStep(n, s, p, tr);
    assert IsId(n, tr.to);
  }

  lemma SilentStep(n: Nfa, s: set<nat>, p: nat, tr: NfaTransition)
    requires ReachedSilently(n, s, p) && p < |n| && tr in n[p] && tr.kind.None?
    ensures ReachedSilently(n, s, tr.to)
  {
    var o :| o in s && Spells(n, o, [], p);
    SpellsStep(n, p, tr);
    SpellsJoin(n, o, [], p, [], tr.to);
    Regroup([], [], [], []);
  }

  /** The closure is the least closed superset. */
  lemma ClosureIsLeast(n: Nfa, s: set<nat>, t: set<nat>)
    requires s <= t && ClosedUnderEmptyMoves(n, t)
    ensures Closure(n, s) <= t
  {
    forall q | q in Closure(n, s)
      ensures q in t
    {
      var p :| p in s && Spells(n, p, [], q);
      var path :| Walk(n, p, path, q) && Spelled(path) == [];
      SilentWalkStays(n, t, p, path, q);
    }
  }

  /** `c` is the least superset of `s` that no ε-transition leaves. */
  ghost predicate LeastClosed(n: Nfa, s: set<nat>, c: set<nat>) {
    s <= c && ClosedUnderEmptyMoves(n, c) && Needed(n, s, c)
  }

  /** Every closed superset of `s` has all of `c`. */
  ghost predicate Needed(n: Nfa, s: set<nat>, c: set<nat>) {
    c <= AllIds(n) && forall t: set<nat> :: s <= t && ClosedUnderEmptyMoves(n, t) ==> c <= t
  }

  lemma LeastClosedIsClosure(n: Nfa, s: set<nat>, c: set<nat>)
    requires WellFormed(n) && s <= AllIds(n) && LeastClosed(n, s, c)
    ensures c == Closure(n, s)
  {
    ClosureIsClosed(n, s);
    ClosureIsLeast(n, s, c);
  }

  lemma NeededStep(n: Nfa, s: set<nat>, c: set<nat>, p: nat, tr: NfaTransition)
    requires WellFormed(n) && Needed(n, s, c) && p in s && s <= AllIds(n) && tr in n[p] && tr.kind.None?
    ensures Needed(n, s, c + {tr.to})
    ensures s <= c && ClosedUnderEmptyMoves(n, c) ==> c + {tr.to} == c
  {
  }

  lemma NeededNested(n: Nfa, s: set<nat>, c: set<nat>, more: set<nat>)
    requires Needed(n, s, c) && LeastClosed(n, c, more)
    ensures Needed(n, s, more) && c + more == more
  {
  }

  /** The ε-transitions of one state stay within `s`. */
  ghost predicate EmptyMovesWithin(n: Nfa, p: nat, s: set<nat>) {
    p < |n| && forall tr :: tr in n[p] && tr.kind.None? ==> tr.to in s
  }

  // ----- one step of the automaton

  /** States that a transition of type `t` leads to from a state of `s`. */
  ghost predicate MovesTo(n: Nfa, s: set<nat>, t: TransitionType, q: nat) {
    exists p :: p in s && p < |n| && NfaTransition(Some(t), q) in n[p]
  }

  ghost function Move(n: Nfa, s: set<nat>, t: TransitionType): set<nat> {
    set q | q in AllIds(n) && MovesTo(n, s, t, q)
  }

  /** Nothing in the automaton looks ahead. */
  ghost predicate LookaheadFree(n: Nfa) {
    forall p, tr :: 0 <= p < |n| && tr in n[p] && tr.kind.Some? ==> !IsLookahead(tr.kind.value)
  }

  predicate IsLookahead(t: TransitionType) {
    t.PositiveLookaheadStart? || t.NegativeLookaheadStart? || t.LookaheadEnd?
  }

  // ----- the table of deterministic states

  /** One row of the table: exactly one transition for each type that some
      state of the set moves by, to the deterministic state of the moves. */
  ghost predicate RowIsMoves(n: Nfa, dfas: seq<DfaState>, d: nat)
    requires d < |dfas|
  {
    var row := dfas[d].transitions;
    && (forall i, j :: 0 <= i < j < |row| ==> row[i].kind != row[j].kind)
    && (forall tr :: tr in row ==>
          tr.to < |dfas| && Move(n, dfas[d].nfaSet, tr.kind) != {}
          && dfas[tr.to].nfaSet == Closure(n, Move(n, dfas[d].nfaSet, tr.kind)))
    && (forall t :: Move(n, dfas[d].nfaSet, t) != {} ==> exists i :: 0 <= i < |row| && row[i].kind == t)
  }

  ghost predicate ValidDfas(n: Nfa, dfas: seq<DfaState>, end: nat) {
    && (forall d :: 0 <= d < |dfas| ==>
          dfas[d].nfaSet != {} && dfas[d].nfaSet <= AllIds(n) && ClosedUnderEmptyMoves(n, dfas[d].nfaSet)
          && dfas[d].isFinal == (end in dfas[d].nfaSet))
    && (forall c, d :: 0 <= c < d < |dfas| ==> dfas[c].nfaSet != dfas[d].nfaSet)
    && (forall d :: 0 <= d < |dfas| && dfas[d].isCalculated ==> RowIsMoves(n, dfas, d))
  }

  ghost predicate AllCalculated(dfas: seq<DfaState>) {
    forall d :: 0 <= d < |dfas| ==> dfas[d].isCalculated
  }

  /** The sets of nondeterministic states that have no calculated state yet. */
  ghost function Uncalculated(n: Nfa, dfas: seq<DfaState>): set<set<nat>> {
    set s: set<nat> | s <= AllIds(n) && !IsCalculatedSet(dfas, s)
  }

  ghost predicate IsCalculatedSet(dfas: seq<DfaState>, s: set<nat>) {
    exists d :: 0 <= d < |dfas| && dfas[d].isCalculated && dfas[d].nfaSet == s
  }

  /** States are never dropped or renumbered, their sets never change, and a
      calculated state is not touched again. */
  ghost predicate DfasGrown(old_: seq<DfaState>, new_: seq<DfaState>) {
    && |old_| <= |new_|
    && forall d :: 0 <= d < |old_| ==>
         new_[d].nfaSet == old_[d].nfaSet && new_[d].isFinal == old_[d].isFinal
         && (old_[d].isCalculated ==> new_[d] == old_[d])
         && (!old_[d].isCalculated && !new_[d].isCalculated ==> new_[d] == old_[d])
  }

  lemma RowKept(n: Nfa, old_: seq<DfaState>, new_: seq<DfaState>, d: nat)
    requires DfasGrown(old_, new_) && d < |old_| && RowIsMoves(n, old_, d) && new_[d] == old_[d]
    ensures RowIsMoves(n, new_, d)
  {
  }

  lemma GrownShrinksUncalculated(n: Nfa, old_: seq<DfaState>, new_: seq<DfaState>)
    requires DfasGrown(old_, new_)
    ensures Uncalculated(n, new_) <= Uncalculated(n, old_)
  {
    forall s: set<nat> | IsCalculatedSet(old_, s)
      ensures IsCalculatedSet(new_, s)
    {
      var d :| 0 <= d < |old_| && old_[d].isCalculated && old_[d].nfaSet == s;
      assert new_[d].isCalculated && new_[d].nfaSet == s;
    }
  }

  lemma AddedKeepsValid(n: Nfa, dfas: seq<DfaState>, state: DfaState, end: nat)
    requires ValidDfas(n, dfas, end) && !state.isCalculated && state.nfaSet != {}
    requires state.nfaSet <= AllIds(n) && ClosedUnderEmptyMoves(n, state.nfaSet)
             && state.isFinal == (end in state.nfaSet)
    requires forall d :: 0 <= d < |dfas| ==> dfas[d].nfaSet != state.nfaSet
    ensures ValidDfas(n, dfas + [state], end) && DfasGrown(dfas, dfas + [state])
  {
    var dfas' := dfas + [state];
    forall d | 0 <= d < |dfas'| && dfas'[d].isCalculated
      ensures RowIsMoves(n, dfas', d)
    {
      RowKept(n, dfas, dfas', d);
    }
  }

  // ----- one row under construction

  /** Moves found in the states below `id`, and in the first `j` transitions of
      `id` itself. */
  ghost predicate MovesBefore(n: Nfa, s: set<nat>, id: nat, j: nat, t: TransitionType, q: nat) {
    exists p, i :: 0 <= p < |n| && 0 <= i < |n[p]| && p in s && (p < id || (p == id && i < j))
                   && n[p][i] == NfaTransition(Some(t), q)
  }

  /** The groups hold exactly those moves. */
  ghost predicate GroupedSoFar(n: Nfa, s: set<nat>, id: nat, j: nat, grouped: map<TransitionType, seq<nat>>) {
    && (forall t, q: nat :: MovesBefore(n, s, id, j, t, q) <==> t in grouped && q in grouped[t])
    && (forall t :: t in grouped ==> grouped[t] != [])
  }

  lemma GroupedByOneMore(n: Nfa, s: set<nat>, id: nat, j: nat, grouped: map<TransitionType, seq<nat>>)
    requires id < |n| && id in s && j < |n[id]| && GroupedSoFar(n, s, id, j, grouped)
    ensures n[id][j].kind.None? ==> GroupedSoFar(n, s, id, j + 1, grouped)
    ensures n[id][j].kind.Some? ==>
              var t := n[id][j].kind.value;
              GroupedSoFar(n, s, id, j + 1, grouped[t := (if t in grouped then grouped[t] else []) + [n[id][j].to]])
  {
    forall t, q: nat
      ensures MovesBefore(n, s, id, j + 1, t, q)
              <==> MovesBefore(n, s, id, j, t, q) || n[id][j] == NfaTransition(Some(t), q)
    {
      if MovesBefore(n, s, id, j, t, q) {
        var p, i :| 0 <= p < |n| && 0 <= i < |n[p]| && p in s && (p < id || (p == id && i < j))
                    && n[p][i] == NfaTransition(Some(t), q);
        assert p < id || (p == id && i < j + 1);
      }
    }
  }

  lemma GroupedUpToState(n: Nfa, s: set<nat>, id: nat, grouped: map<TransitionType, seq<nat>>)
    requires id < |n| && GroupedSoFar(n, s, id, if id in s then |n[id]| else 0, grouped)
    ensures GroupedSoFar(n, s, id + 1, 0, grouped)
  {
    var j, id' := if id in s then |n[id]| else 0, id + 1;
    forall t, q: nat
      ensures MovesBefore(n, s, id', 0, t, q) <==> MovesBefore(n, s, id, j, t, q)
    {
      if MovesBefore(n, s, id', 0, t, q) {
        var p, i :| 0 <= p < |n| && 0 <= i < |n[p]| && p in s && p < id' && n[p][i] == NfaTransition(Some(t), q);
        assert p < id || (p == id && i < j);
      }
      if MovesBefore(n, s, id, j, t, q) {
        var p, i :| 0 <= p < |n| && 0 <= i < |n[p]| && p in s && p <= id && n[p][i] == NfaTransition(Some(t), q);
        assert p < id';
      }
    }
  }

  lemma GroupedIsMove(n: Nfa, s: set<nat>, grouped: map<TransitionType, seq<nat>>)
    requires WellFormed(n) && s <= AllIds(n) && GroupedSoFar(n, s, |n|, 0, grouped)
    ensures forall t :: t in grouped <==> Move(n, s, t) != {}
    ensures forall t :: t in grouped ==> SetOf(grouped[t]) == Move(n, s, t)
  {
    forall t, q: nat
      ensures MovesBefore(n, s, |n|, 0, t, q) <==> q in Move(n, s, t)
    {
      if MovesBefore(n, s, |n|, 0, t, q) {
        var p, i :| 0 <= p < |n| && 0 <= i < |n[p]| && p in s && n[p][i] == NfaTransition(Some(t), q);
        assert n[p][i] in n[p];
      }
    }
    forall t
      ensures t in grouped <==> Move(n, s, t) != {}
      ensures t in grouped ==> SetOf(grouped[t]) == Move(n, s, t)
    {
      if t in grouped {
        assert grouped[t][0] in grouped[t];
      }
    }
  }

  /** A list of transitions that covers exactly the types of `done`. */
  ghost predicate RowInProgress(n: Nfa, dfas: seq<DfaState>, s: set<nat>, row: seq<DfaTransition>,
                                done: set<TransitionType>)
  {
    && (forall i, j :: 0 <= i < j < |row| ==> row[i].kind != row[j].kind)
    && (forall tr :: tr in row ==>
          tr.kind in done && tr.to < |dfas| && dfas[tr.to].nfaSet == Closure(n, Move(n, s, tr.kind)))
    && (forall t :: t in done ==> exists i :: 0 <= i < |row| && row[i].kind == t)
  }

  ghost predicate IsTarget(row: seq<DfaTransition>, d: nat) {
    exists i :: 0 <= i < |row| && row[i].to == d
  }

  lemma MoveIsWithin(n: Nfa, s: set<nat>, t: TransitionType)
    ensures Move(n, s, t) <= AllIds(n)
  {
  }

  /** Every state from `lo` up to `hi` is where some transition of the row goes. */
  ghost predicate AllTargets(row: seq<DfaTransition>, lo: nat, hi: nat) {
    forall k :: lo <= k < hi ==> IsTarget(row, k)
  }

  lemma PrefixKept(first: seq<DfaState>, before: seq<DfaState>, after: seq<DfaState>)
    requires DfasGrown(first, before) && DfasGrown(before, after)
    requires before[..|first|] == first && |before| <= |after| && after[..|before|] == before
    ensures DfasGrown(first, after) && after[..|first|] == first
  {
    assert after[..|first|] == after[..|before|][..|first|];
    assert forall d :: 0 <= d < |first| ==> after[d] == after[..|first|][d] == first[d];
  }

  /** If at most one state was made, it is the target of the new transition. */
  lemma TargetsExtended(row: seq<DfaTransition>, tr: DfaTransition, lo: nat, before: nat, after: nat)
    requires AllTargets(row, lo, before)
    requires after == before || (after == before + 1 && tr.to == before)
    ensures AllTargets(row + [tr], lo, after)
  {
    var row' := row + [tr];
    forall k | lo <= k < after
      ensures IsTarget(row', k)
    {
      if k < before {
        assert IsTarget(row, k);
        var i :| 0 <= i < |row| && row[i].to == k;
        assert row'[i].to == k;
      } else {
        assert row'[|row|].to == k;
      }
    }
  }

  lemma RowStillInProgress(n: Nfa, old_: seq<DfaState>, new_: seq<DfaState>, s: set<nat>, row: seq<DfaTransition>,
                           done: set<TransitionType>, t: TransitionType, to: nat)
    requires RowInProgress(n, old_, s, row, done) && DfasGrown(old_, new_) && t !in done
    requires to < |new_| && new_[to].nfaSet == Closure(n, Move(n, s, t))
    ensures RowInProgress(n, new_, s, row + [DfaTransition(t, to)], done + {t})
  {
    var row' := row + [DfaTransition(t, to)];
    forall u | u in done + {t}
      ensures exists i :: 0 <= i < |row'| && row'[i].kind == u
    {
      if u == t {
        assert row'[|row|].kind == u;
      } else {
        var i :| 0 <= i < |row| && row[i].kind == u;
        assert row'[i].kind == u;
      }
    }
  }

  /** A finished row makes its state a calculated one. */
  lemma CalculatedKeepsValid(n: Nfa, old_: seq<DfaState>, d: nat, row: seq<DfaTransition>, end: nat,
                             done: set<TransitionType>)
    requires ValidDfas(n, old_, end) && d < |old_| && !old_[d].isCalculated
    requires RowInProgress(n, old_, old_[d].nfaSet, row, done)
    requires forall t :: t in done <==> Move(n, old_[d].nfaSet, t) != {}
    ensures var new_ := old_[d := old_[d].(transitions := row, isCalculated := true)];
            ValidDfas(n, new_, end) && DfasGrown(old_, new_) && Uncalculated(n, new_) < Uncalculated(n, old_)
  {
    var new_ := old_[d := old_[d].(transitions := row, isCalculated := true)];
    assert DfasGrown(old_, new_);
    forall k | 0 <= k < |new_| && new_[k].isCalculated
      ensures RowIsMoves(n, new_, k)
    {
      if k != d {
        RowKept(n, old_, new_, k);
      }
    }
    GrownShrinksUncalculated(n, old_, new_);
    assert IsCalculatedSet(new_, old_[d].nfaSet);
    assert old_[d].nfaSet in Uncalculated(n, old_);
  }

  // ----- what the table accepts

  /** The table read as a machine: `None` when a transition is missing. */
  function Next(dfas: seq<DfaState>, d: nat, t: TransitionType): Option<nat>
    requires d < |dfas|
  {
    NextIn(dfas[d].transitions, t)
  }

  function NextIn(row: seq<DfaTransition>, t: TransitionType): Option<nat> {
    if row == [] then None
    else if row[0].kind == t then Some(row[0].to)
    else NextIn(row[1..], t)
  }

  function Run(dfas: seq<DfaState>, d: nat, w: Word): Option<nat>
    decreases |w|
  {
    if d >= |dfas| then None
    else if w == [] then Some(d)
    else match Next(dfas, d, w[0])
      case None => None
      case Some(d') => Run(dfas, d', w[1..])
  }

  lemma {:induction false} NextInFinds(row: seq<DfaTransition>, t: TransitionType)
    ensures NextIn(row, t) == None <==> forall i :: 0 <= i < |row| ==> row[i].kind != t
    ensures NextIn(row, t).Some? ==> DfaTransition(t, NextIn(row, t).value) in row
  {
    if row != [] {
      NextInFinds(row[1..], t);
    }
  }

  /** All states some word leads to from the states of `s`. */
  ghost function Reach(n: Nfa, s: set<nat>, w: Word): set<nat> {
    set q | q in AllIds(n) && Reached(n, s, w, q)
  }

  ghost predicate Reached(n: Nfa, s: set<nat>, w: Word, q: nat) {
    exists p :: p in s && Spells(n, p, w, q)
  }

  lemma ReachNothing(n: Nfa, s: set<nat>)
    ensures Reach(n, s, []) == Closure(n, s)
  {
    assert forall q :: Reached(n, s, [], q) <==> ReachedSilently(n, s, q);
  }

  /** From a closed set a word goes by its first letter first. */
  lemma ReachStep(n: Nfa, s: set<nat>, t: TransitionType, w: Word)
    requires WellFormed(n) && s <= AllIds(n) && ClosedUnderEmptyMoves(n, s)
    ensures Reach(n, s, [t] + w) == Reach(n, Closure(n, Move(n, s, t)), w)
  {
    forall q: nat
      ensures Reached(n, s, [t] + w, q) <==> Reached(n, Closure(n, Move(n, s, t)), w, q)
    {
      if Reached(n, s, [t] + w, q) {
        var p :| p in s && Spells(n, p, [t] + w, q);
        var path :| Walk(n, p, path, q) && Spelled(path) == [t] + w;
        FirstLetterMoves(n, s, t, w, p, path, q);
      }
      if Reached(n, Closure(n, Move(n, s, t)), w, q) {
        MovesThenWord(n, s, t, w, q);
      }
    }
  }

  lemma MovesThenWord(n: Nfa, s: set<nat>, t: TransitionType, w: Word, q: nat)
    requires Reached(n, Closure(n, Move(n, s, t)), w, q)
    ensures Reached(n, s, [t] + w, q)
  {
    var m :| m in Closure(n, Move(n, s, t)) && Spells(n, m, w, q);
    var m0 :| m0 in Move(n, s, t) && Spells(n, m0, [], m);
    var p :| p in s && p < |n| && NfaTransition(Some(t), m0) in n[p];
    SpellsStep(n, p, NfaTransition(Some(t), m0));
    SpellsJoin(n, m0, [], m, w, q);
    assert [] + w == w;
    SpellsJoin(n, p, [t], m0, w, q);
  }

  lemma {:induction false} FirstLetterMoves(n: Nfa, s: set<nat>, t: TransitionType, w: Word, p: nat,
                                            path: seq<NfaTransition>, q: nat)
    requires WellFormed(n) && s <= AllIds(n) && ClosedUnderEmptyMoves(n, s) && p in s
    requires Walk(n, p, path, q) && Spelled(path) == [t] + w
    ensures Reached(n, Closure(n, Move(n, s, t)), w, q)
    decreases |path|
  {
    var first := path[0];
    if first.kind.None? {
      assert Spelled(path[1..]) == [t] + w;
      FirstLetterMoves(n, s, t, w, first.to, path[1..], q);
    } else {
      assert first.kind.value == Spelled(path)[0] == t;
      assert Spelled(path[1..]) == Spelled(path)[1..] == w;
      assert first == NfaTransition(Some(t), first.to) && first.to in Move(n, s, t);
      ClosureIsClosed(n, Move(n, s, t));
      assert Spells(n, first.to, w, q);
    }
  }

  lemma ReachFromNothing(n: Nfa, w: Word)
    ensures Reach(n, {}, w) == {}
  {
  }

  lemma NextIsMoves(n: Nfa, dfas: seq<DfaState>, d: nat, t: TransitionType)
    requires d < |dfas| && RowIsMoves(n, dfas, d)
    ensures Next(dfas, d, t).None? <==> Move(n, dfas[d].nfaSet, t) == {}
    ensures Next(dfas, d, t).Some? ==>
              Next(dfas, d, t).value < |dfas|
              && dfas[Next(dfas, d, t).value].nfaSet == Closure(n, Move(n, dfas[d].nfaSet, t))
  {
    NextInFinds(dfas[d].transitions, t);
  }

  /** The table computes reach sets: a run ends in the deterministic state of
      exactly the states the word leads to, and gets stuck exactly when it
      leads to none. */
  lemma {:induction false} RunComputesReach(n: Nfa, dfas: seq<DfaState>, end: nat, d: nat, w: Word)
    requires WellFormed(n) && ValidDfas(n, dfas, end) && AllCalculated(dfas)
    requires d < |dfas| && dfas[d].nfaSet != {}
    ensures Run(dfas, d, w).None? <==> Reach(n, dfas[d].nfaSet, w) == {}
    ensures Run(dfas, d, w).Some? ==>
              Run(dfas, d, w).value < |dfas| && dfas[Run(dfas, d, w).value].nfaSet == Reach(n, dfas[d].nfaSet, w)
    decreases |w|
  {
    var s := dfas[d].nfaSet;
    ValidRow(n, dfas, end, d);
    if w == [] {
      ReachNothingFromClosed(n, s);
    } else {
      var t, w' := w[0], w[1..];
      assert w == [t] + w';
      NextIsMoves(n, dfas, d, t);
      var s' := Closure(n, Move(n, s, t));
      assert Reach(n, s, w) == Reach(n, s', w') by {
        ReachStep(n, s, t, w');
      }
      if Next(dfas, d, t).None? {
        assert s' == {};
        ReachFromNothing(n, w');
      } else {
        ClosureIsClosed(n, Move(n, s, t));
        RunComputesReach(n, dfas, end, Next(dfas, d, t).value, w');
      }
    }
  }

  lemma ValidRow(n: Nfa, dfas: seq<DfaState>, end: nat, d: nat)
    requires ValidDfas(n, dfas, end) && AllCalculated(dfas) && d < |dfas|
    ensures dfas[d].nfaSet <= AllIds(n) && ClosedUnderEmptyMoves(n, dfas[d].nfaSet) && RowIsMoves(n, dfas, d)
    ensures dfas[d].isFinal == (end in dfas[d].nfaSet)
  {
  }

  lemma ReachNothingFromClosed(n: Nfa, s: set<nat>)
    requires WellFormed(n) && s <= AllIds(n) && ClosedUnderEmptyMoves(n, s)
    ensures Reach(n, s, []) == s
  {
    ReachNothing(n, s);
    ClosureIsClosed(n, s);
    ClosureIsLeast(n, s, s);
  }

  /** The table accepts exactly the words spelled from the start to the end. */
  lemma TableAcceptsSpelled(n: Nfa, dfas: seq<DfaState>, start: nat, end: nat, w: Word)
    requires WellFormed(n) && start < |n| && end < |n|
    requires ValidDfas(n, dfas, end) && AllCalculated(dfas)
    requires |dfas| > 0 && dfas[0].nfaSet == Closure(n, {start})
    ensures Accepts(dfas, w) <==> w in Between(n, start, end)
  {
    assert start in Closure(n, {start}) by {
      ClosureIsClosed(n, {start});
    }
    RunComputesReach(n, dfas, end, 0, w);
    ReachThroughClosure(n, start, w);
    assert IsId(n, end);
    var r := Reach(n, dfas[0].nfaSet, w);
    assert end in r <==> Spells(n, start, w, end);
    if Run(dfas, 0, w).Some? {
      ValidRow(n, dfas, end, Run(dfas, 0, w).value);
    }
  }

  predicate Accepts(dfas: seq<DfaState>, w: Word) {
    match Run(dfas, 0, w)
    case None => false
    case Some(d) => d < |dfas| && dfas[d].isFinal
  }

  lemma ReachedFromStart(n: Nfa, start: nat, w: Word, q: nat)
    requires WellFormed(n) && start < |n| && Reached(n, Closure(n, {start}), w, q)
    ensures Spells(n, start, w, q)
  {
    var p :| p in Closure(n, {start}) && Spells(n, p, w, q);
    SpellsJoin(n, start, [], p, w, q);
    assert [] + w == w;
  }

  lemma ReachThroughClosure(n: Nfa, start: nat, w: Word)
    requires WellFormed(n) && start < |n|
    ensures forall q: nat :: q < |n| ==> (q in Reach(n, Closure(n, {start}), w) <==> Spells(n, start, w, q))
  {
    ClosureIsClosed(n, {start});
    forall q: nat | q < |n|
      ensures Reached(n, Closure(n, {start}), w, q) <==> Spells(n, start, w, q)
    {
      if Reached(n, Closure(n, {start}), w, q) {
        ReachedFromStart(n, start, w, q);
      }
    }
  }

  // ----- what rows look like

  ghost predicate MovesBy(n: Nfa, s: set<nat>, t: TransitionType) {
    exists p, tr :: p in s && p < |n| && tr in n[p] && tr.kind == Some(t)
  }

  /** A row has a label only where some state of its set moves by it. */
  lemma RowMoves(n: Nfa, dfas: seq<DfaState>, end: nat, d: nat, i: nat)
    requires ValidDfas(n, dfas, end) && d < |dfas| && dfas[d].isCalculated && i < |dfas[d].transitions|
    ensures MovesBy(n, dfas[d].nfaSet, dfas[d].transitions[i].kind)
  {
    var tr := dfas[d].transitions[i];
    assert tr in dfas[d].transitions && Move(n, dfas[d].nfaSet, tr.kind) != {};
    var q :| q in Move(n, dfas[d].nfaSet, tr.kind);
    var p :| p in dfas[d].nfaSet && p < |n| && NfaTransition(Some(tr.kind), q) in n[p];
  }

  /** A set from which a walk leads to the end is final or moves on. */
  lemma {:induction false} WalkMovesOn(n: Nfa, dfas: seq<DfaState>, end: nat, d: nat, p: nat, path: seq<NfaTransition>)
    requires WellFormed(n) && ValidDfas(n, dfas, end) && d < |dfas| && dfas[d].isCalculated
    requires p in dfas[d].nfaSet && Walk(n, p, path, end)
    ensures dfas[d].isFinal || dfas[d].transitions != []
    decreases |path|
  {
    if path != [] {
      var tr := path[0];
      if tr.kind.None? {
        WalkMovesOn(n, dfas, end, d, tr.to, path[1..]);
      } else {
        assert tr == NfaTransition(Some(tr.kind.value), tr.to);
        assert MovesTo(n, dfas[d].nfaSet, tr.kind.value, tr.to) && IsId(n, tr.to);
        assert tr.to in Move(n, dfas[d].nfaSet, tr.kind.value);
      }
    }
  }
}
