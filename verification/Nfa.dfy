/** Nondeterministic automata with ε-transitions, and what adding one
    ε-transition does to the languages between their states. */
module Nfa {
  import opened Rules
  import opened Languages

  /** A transition without a label is an ε-transition. */
  datatype NfaTransition = NfaTransition(kind: Option<TransitionType>, to: nat)

  type Nfa = seq<seq<NfaTransition>>

  function EmptyMove(to: nat): NfaTransition {
    NfaTransition(None, to)
  }

  /** Every transition leads to an existing state. */
  ghost predicate WellFormed(n: Nfa) {
    forall p, tr :: 0 <= p < |n| && tr in n[p] ==> tr.to < |n|
  }

  function AddTransition(n: Nfa, from: nat, tr: NfaTransition): Nfa
    requires from < |n|
  {
    n[from := n[from] + [tr]]
  }

  ghost predicate Walk(n: Nfa, p: nat, path: seq<NfaTransition>, q: nat)
    decreases |path|
  {
    if path == [] then p == q
    else p < |n| && path[0] in n[p] && Walk(n, path[0].to, path[1..], q)
  }

  function Label(tr: NfaTransition): Word {
    match tr.kind
    case None => []
    case Some(t) => [t]
  }

  /** The word a walk spells: its labels, ε-transitions skipped. */
  function Spelled(path: seq<NfaTransition>): Word {
    if path == [] then [] else Label(path[0]) + Spelled(path[1..])
  }

  ghost predicate Spells(n: Nfa, p: nat, w: Word, q: nat) {
    exists path :: Walk(n, p, path, q) && Spelled(path) == w
  }

  /** All words spelled by walks from `p` to `q`. */
  ghost function Between(n: Nfa, p: nat, q: nat): Lang {
    iset w: Word | Spells(n, p, w, q)
  }

  lemma {:induction false} WalkJoin(n: Nfa, p: nat, path1: seq<NfaTransition>, q: nat, path2: seq<NfaTransition>,
                                    r: nat)
    requires Walk(n, p, path1, q) && Walk(n, q, path2, r)
    ensures Walk(n, p, path1 + path2, r)
    ensures Spelled(path1 + path2) == Spelled(path1) + Spelled(path2)
    decreases |path1|
  {
    if path1 == [] {
      assert path1 + path2 == path2;
    } else {
      WalkJoin(n, path1[0].to, path1[1..], q, path2, r);
      assert (path1 + path2)[0] == path1[0] && (path1 + path2)[1..] == path1[1..] + path2;
      Regroup(Label(path1[0]), Spelled(path1[1..]), Spelled(path2), []);
    }
  }

  lemma SpellsNothing(n: Nfa, p: nat)
    ensures Spells(n, p, [], p)
  {
    assert Walk(n, p, [], p) && Spelled([]) == [];
  }

  lemma SpellsJoin(n: Nfa, p: nat, u: Word, q: nat, v: Word, r: nat)
    requires Spells(n, p, u, q) && Spells(n, q, v, r)
    ensures Spells(n, p, u + v, r)
  {
    var path1 :| Walk(n, p, path1, q) && Spelled(path1) == u;
    var path2 :| Walk(n, q, path2, r) && Spelled(path2) == v;
    WalkJoin(n, p, path1, q, path2, r);
  }

  lemma SpellsStep(n: Nfa, p: nat, tr: NfaTransition)
    requires p < |n| && tr in n[p]
    ensures Spells(n, p, Label(tr), tr.to)
  {
    var path := [tr];
    assert path[1..] == [] && Walk(n, tr.to, path[1..], tr.to);
    assert Walk(n, p, path, tr.to);
    assert Spelled(path) == Label(tr) + Spelled([]) == Label(tr);
  }

  lemma {:induction false} WalkMonotone(n: Nfa, n': Nfa, p: nat, path: seq<NfaTransition>, q: nat)
    requires |n| <= |n'| && forall i, tr :: 0 <= i < |n| && tr in n[i] ==> tr in n'[i]
    requires Walk(n, p, path, q)
    ensures Walk(n', p, path, q)
    decreases |path|
  {
    if path != [] {
      WalkMonotone(n, n', path[0].to, path[1..], q);
    }
  }

  // ----- walks cannot leave a part of the automaton that no transition leaves

  ghost predicate ClosedFrom(n: Nfa, lo: nat) {
    forall p, tr :: lo <= p < |n| && tr in n[p] ==> lo <= tr.to
  }

  lemma {:induction false} WalkStaysAbove(n: Nfa, lo: nat, p: nat, path: seq<NfaTransition>, q: nat)
    requires ClosedFrom(n, lo) && lo <= p
    requires Walk(n, p, path, q)
    ensures lo <= q
    decreases |path|
  {
    if path != [] {
      WalkStaysAbove(n, lo, path[0].to, path[1..], q);
    }
  }

  ghost predicate Extends(n: Nfa, n': Nfa) {
    |n| <= |n'| && n'[..|n|] == n
  }

  lemma {:induction false} WalkInPrefix(n: Nfa, n': Nfa, p: nat, path: seq<NfaTransition>, q: nat)
    requires WellFormed(n) && Extends(n, n') && p < |n|
    requires Walk(n', p, path, q)
    ensures Walk(n, p, path, q) && q < |n|
    decreases |path|
  {
    if path != [] {
      assert n'[p] == n'[..|n|][p] == n[p];
      WalkInPrefix(n, n', path[0].to, path[1..], q);
    }
  }

  /** New states do not change what is spelled between the old ones. */
  lemma BetweenInPrefix(n: Nfa, n': Nfa, p: nat, q: nat)
    requires WellFormed(n) && Extends(n, n') && p < |n|
    ensures Between(n', p, q) == Between(n, p, q)
    ensures q >= |n| ==> Between(n', p, q) == Empty()
  {
    forall i, tr | 0 <= i < |n| && tr in n[i]
      ensures tr in n'[i]
    {
      assert n'[i] == n'[..|n|][i];
    }
    forall w: Word
      ensures w in Between(n', p, q) <==> w in Between(n, p, q)
      ensures q >= |n| ==> w !in Between(n', p, q)
    {
      if Spells(n', p, w, q) {
        var path :| Walk(n', p, path, q) && Spelled(path) == w;
        WalkInPrefix(n, n', p, path, q);
      }
      if Spells(n, p, w, q) {
        var path :| Walk(n, p, path, q) && Spelled(path) == w;
        WalkMonotone(n, n', p, path, q);
      }
    }
  }

  lemma BetweenBelow(n: Nfa, lo: nat, p: nat, q: nat)
    requires ClosedFrom(n, lo) && q < lo <= p
    ensures Between(n, p, q) == Empty()
  {
    forall w: Word
      ensures w !in Between(n, p, q)
    {
      if Spells(n, p, w, q) {
        var path :| Walk(n, p, path, q) && Spelled(path) == w;
        WalkStaysAbove(n, lo, p, path, q);
      }
    }
  }

  /** A state without transitions reaches itself only, by the empty word. */
  lemma BetweenStuck(n: Nfa, p: nat, q: nat)
    requires p < |n| ==> n[p] == []
    ensures Between(n, p, q) == if p == q then Epsilon() else Empty()
  {
    SpellsNothing(n, p);
    forall w: Word | Spells(n, p, w, q)
      ensures p == q && w == []
    {
      var path :| Walk(n, p, path, q) && Spelled(path) == w;
    }
  }

  // ----- adding one transition

  /** What a new transition from `x` adds between `p` and `q`: reach `x`, take
      it and come back any number of times, then take it and end in `q`. */
  ghost function Detours(n: Nfa, p: nat, x: nat, tr: NfaTransition, q: nat): Lang {
    Cat(Cat(Between(n, p, x), Star(Cat(iset{Label(tr)}, Between(n, tr.to, x)))),
        Cat(iset{Label(tr)}, Between(n, tr.to, q)))
  }

  /** The effect of one more transition, exactly, on every pair of states. */
  lemma AddMove(n: Nfa, x: nat, tr: NfaTransition, p: nat, q: nat)
    requires x < |n|
    ensures Between(AddTransition(n, x, tr), p, q) == Between(n, p, q) + Detours(n, p, x, tr, q)
  {
    var n' := AddTransition(n, x, tr);
    forall w: Word
      ensures w in Between(n', p, q) <==> w in Between(n, p, q) + Detours(n, p, x, tr, q)
    {
      if Spells(n', p, w, q) {
        var path :| Walk(n', p, path, q) && Spelled(path) == w;
        SplitAtMove(n, x, tr, p, path, q);
      }
      if Spells(n, p, w, q) {
        var path :| Walk(n, p, path, q) && Spelled(path) == w;
        WalkMonotone(n, n', p, path, q);
      }
      if w in Detours(n, p, x, tr, q) {
        JoinAtMove(n, x, tr, p, w, q);
      }
    }
  }

  lemma {:induction false} SplitAtMove(n: Nfa, x: nat, tr: NfaTransition, p: nat, path: seq<NfaTransition>, q: nat)
    requires x < |n| && Walk(AddTransition(n, x, tr), p, path, q)
    ensures Spelled(path) in Between(n, p, q) + Detours(n, p, x, tr, q)
    decreases |path|
  {
    if path == [] {
      SpellsNothing(n, p);
    } else {
      var first, w := path[0], Spelled(path[1..]);
      SplitAtMove(n, x, tr, first.to, path[1..], q);
      if first in n[p] {
        SpellsStep(n, p, first);
        if w in Between(n, first.to, q) {
          SpellsJoin(n, p, Label(first), first.to, w, q);
        } else {
          PrependToDetour(n, x, tr, p, Label(first), first.to, w, q);
        }
      } else {
        assert p == x && first == tr;
        if w in Between(n, tr.to, q) {
          SpellsNothing(n, x);
          StarUnit(Cat(iset{Label(tr)}, Between(n, tr.to, x)));
          JoinDetour(n, x, x, tr, [], [], w, q);
          assert [] + [] + (Label(tr) + w) == Label(tr) + w;
        } else {
          RepeatDetour(n, x, tr, w, q);
        }
      }
    }
  }

  /** The three pieces of a detour. */
  lemma SplitDetour(n: Nfa, p: nat, x: nat, tr: NfaTransition, w: Word, q: nat) returns (u: Word, m: Word, v: Word)
    requires w in Detours(n, p, x, tr, q)
    ensures w == u + m + (Label(tr) + v)
    ensures u in Between(n, p, x) && m in Star(Cat(iset{Label(tr)}, Between(n, tr.to, x))) && v in Between(n, tr.to, q)
  {
    var loops := Star(Cat(iset{Label(tr)}, Between(n, tr.to, x)));
    var um, lv := SplitCat(Cat(Between(n, p, x), loops), Cat(iset{Label(tr)}, Between(n, tr.to, q)), w);
    u, m := SplitCat(Between(n, p, x), loops, um);
    var l: Word;
    l, v := SplitCat(iset{Label(tr)}, Between(n, tr.to, q), lv);
  }

  lemma JoinDetour(n: Nfa, p: nat, x: nat, tr: NfaTransition, u: Word, m: Word, v: Word, q: nat)
    requires u in Between(n, p, x) && m in Star(Cat(iset{Label(tr)}, Between(n, tr.to, x))) && v in Between(n, tr.to, q)
    ensures u + m + (Label(tr) + v) in Detours(n, p, x, tr, q)
  {
    var loops := Star(Cat(iset{Label(tr)}, Between(n, tr.to, x)));
    InCat(Between(n, p, x), loops, u, m);
    InCat(iset{Label(tr)}, Between(n, tr.to, q), Label(tr), v);
    InCat(Cat(Between(n, p, x), loops), Cat(iset{Label(tr)}, Between(n, tr.to, q)), u + m, Label(tr) + v);
  }

  lemma PrependToDetour(n: Nfa, x: nat, tr: NfaTransition, p: nat, l: Word, p': nat, w: Word, q: nat)
    requires l in Between(n, p, p') && w in Detours(n, p', x, tr, q)
    ensures l + w in Detours(n, p, x, tr, q)
  {
    var u, m, v := SplitDetour(n, p', x, tr, w, q);
    SpellsJoin(n, p, l, p', u, x);
    JoinDetour(n, p, x, tr, l + u, m, v, q);
    Regroup(l, u, m, Label(tr) + v);
  }

  lemma RepeatDetour(n: Nfa, x: nat, tr: NfaTransition, w: Word, q: nat)
    requires w in Detours(n, tr.to, x, tr, q)
    ensures Label(tr) + w in Detours(n, x, x, tr, q)
  {
    var u, m, v := SplitDetour(n, tr.to, x, tr, w, q);
    var loop := Cat(iset{Label(tr)}, Between(n, tr.to, x));
    InCat(iset{Label(tr)}, Between(n, tr.to, x), Label(tr), u);
    StarUnit(loop);
    StarAppend(loop, Label(tr) + u, m);
    SpellsNothing(n, x);
    JoinDetour(n, x, x, tr, [], Label(tr) + u + m, v, q);
    Regroup(Label(tr), u, m, Label(tr) + v);
    Regroup(Label(tr) + u + m, [], [], []);
  }

  lemma JoinAtMove(n: Nfa, x: nat, tr: NfaTransition, p: nat, w: Word, q: nat)
    requires x < |n| && w in Detours(n, p, x, tr, q)
    ensures Spells(AddTransition(n, x, tr), p, w, q)
  {
    var n' := AddTransition(n, x, tr);
    var u, m, v := SplitDetour(n, p, x, tr, w, q);
    var parts: seq<Word> :| Concatenates(parts, m) && AllIn(parts, Cat(iset{Label(tr)}, Between(n, tr.to, x)));
    var path1 :| Walk(n, p, path1, x) && Spelled(path1) == u;
    var path2 :| Walk(n, tr.to, path2, q) && Spelled(path2) == v;
    WalkMonotone(n, n', p, path1, x);
    WalkMonotone(n, n', tr.to, path2, q);
    SpellsStep(n', x, tr);
    LoopAtMove(n, x, tr, parts);
    SpellsJoin(n', p, u, x, m, x);
    SpellsJoin(n', x, Label(tr), tr.to, v, q);
    SpellsJoin(n', p, u + m, x, Label(tr) + v, q);
  }

  lemma {:induction false} LoopAtMove(n: Nfa, x: nat, tr: NfaTransition, parts: seq<Word>)
    requires x < |n| && AllIn(parts, Cat(iset{Label(tr)}, Between(n, tr.to, x)))
    ensures Spells(AddTransition(n, x, tr), x, Flatten(parts), x)
  {
    var n' := AddTransition(n, x, tr);
    if parts == [] {
      SpellsNothing(n', x);
    } else {
      assert parts[0] in Cat(iset{Label(tr)}, Between(n, tr.to, x));
      var l, w := SplitCat(iset{Label(tr)}, Between(n, tr.to, x), parts[0]);
      var path :| Walk(n, tr.to, path, x) && Spelled(path) == w;
      WalkMonotone(n, n', tr.to, path, x);
      SpellsStep(n', x, tr);
      SpellsJoin(n', x, l, tr.to, w, x);
      LoopAtMove(n, x, tr, parts[1..]);
      SpellsJoin(n', x, parts[0], x, Flatten(parts[1..]), x);
    }
  }

  /** A transition that nothing leads back from is taken at most once. */
  lemma AddForwardMove(n: Nfa, x: nat, tr: NfaTransition, p: nat, q: nat)
    requires x < |n| && Between(n, tr.to, x) == Empty()
    ensures Between(AddTransition(n, x, tr), p, q)
         == Between(n, p, q) + Cat(Between(n, p, x), Cat(iset{Label(tr)}, Between(n, tr.to, q)))
  {
    AddMove(n, x, tr, p, q);
    CatEmpty(iset{Label(tr)});
    StarEmpty();
    CatEpsilon(Between(n, p, x));
  }

  /** It adds nothing between states it cannot be reached from, or does not
      lead on to. */
  lemma ForwardMoveElsewhere(n: Nfa, x: nat, tr: NfaTransition, p: nat, q: nat)
    requires x < |n| && Between(n, tr.to, x) == Empty()
    requires Between(n, p, x) == Empty() || Between(n, tr.to, q) == Empty()
    ensures Between(AddTransition(n, x, tr), p, q) == Between(n, p, q)
  {
    AddForwardMove(n, x, tr, p, q);
    CatEmpty(iset{Label(tr)});
    CatEmpty(Between(n, p, x));
    CatEmpty(Cat(iset{Label(tr)}, Between(n, tr.to, q)));
  }

  lemma EmptyForwardMove(n: Nfa, x: nat, y: nat, p: nat, q: nat)
    requires x < |n| && Between(n, y, x) == Empty()
    ensures Between(AddTransition(n, x, EmptyMove(y)), p, q)
            == Between(n, p, q) + Cat(Between(n, p, x), Between(n, y, q))
  {
    AddForwardMove(n, x, EmptyMove(y), p, q);
    CatEpsilon(Between(n, y, q));
  }

  /** A transition out of a state that nothing leads back to. */
  lemma EnterBy(n: Nfa, x: nat, tr: NfaTransition, q: nat)
    requires x < |n| && Between(n, x, x) == Epsilon() && Between(n, tr.to, x) == Empty()
    ensures Between(AddTransition(n, x, tr), x, q) == Between(n, x, q) + Cat(iset{Label(tr)}, Between(n, tr.to, q))
    ensures tr.kind.None? ==> Between(AddTransition(n, x, tr), x, q) == Between(n, x, q) + Between(n, tr.to, q)
  {
    AddForwardMove(n, x, tr, x, q);
    CatEpsilon(Cat(iset{Label(tr)}, Between(n, tr.to, q)));
    CatEpsilon(Between(n, tr.to, q));
  }

  /** The first transition of a state decides all that leaves it. */
  lemma FirstMove(n: Nfa, x: nat, tr: NfaTransition, q: nat)
    requires x < |n| && n[x] == [] && x != q && Between(n, tr.to, x) == Empty()
    ensures Between(AddTransition(n, x, tr), x, q) == Cat(iset{Label(tr)}, Between(n, tr.to, q))
    ensures Between(AddTransition(n, x, tr), x, x) == Epsilon()
  {
    BetweenStuck(n, x, x);
    BetweenStuck(n, x, q);
    EnterBy(n, x, tr, q);
    ForwardMoveElsewhere(n, x, tr, x, x);
  }

  /** A transition into a state without transitions. */
  lemma LeaveBy(n: Nfa, x: nat, tr: NfaTransition, p: nat)
    requires x < |n| && tr.to < |n| && n[tr.to] == [] && x != tr.to
    ensures Between(AddTransition(n, x, tr), p, tr.to) == Between(n, p, tr.to) + Cat(Between(n, p, x), iset{Label(tr)})
    ensures tr.kind.None? ==> Between(AddTransition(n, x, tr), p, tr.to) == Between(n, p, tr.to) + Between(n, p, x)
  {
    BetweenStuck(n, tr.to, x);
    BetweenStuck(n, tr.to, tr.to);
    AddForwardMove(n, x, tr, p, tr.to);
    CatEpsilon(iset{Label(tr)});
    CatEpsilon(Between(n, p, x));
  }

  lemma LeaveElsewhere(n: Nfa, x: nat, tr: NfaTransition, p: nat, q: nat)
    requires x < |n| && tr.to < |n| && n[tr.to] == [] && x != tr.to && q != tr.to
    ensures Between(AddTransition(n, x, tr), p, q) == Between(n, p, q)
  {
    BetweenStuck(n, tr.to, x);
    BetweenStuck(n, tr.to, q);
    ForwardMoveElsewhere(n, x, tr, p, q);
  }

  /** An ε-transition that may be taken over and over. */
  lemma AddEmptyMove(n: Nfa, x: nat, y: nat, p: nat, q: nat)
    requires x < |n|
    ensures Between(AddTransition(n, x, EmptyMove(y)), p, q)
         == Between(n, p, q) + Cat(Cat(Between(n, p, x), Star(Between(n, y, x))), Between(n, y, q))
  {
    AddMove(n, x, EmptyMove(y), p, q);
    CatEpsilon(Between(n, y, x));
    CatEpsilon(Between(n, y, q));
  }
}
