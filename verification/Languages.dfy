/** Formal languages as possibly infinite sets of words, with the algebra the
    automaton proofs calculate in. */
module Languages {
  import opened Rules

  type Lang = iset<Word>

  ghost function Empty(): Lang {
    iset{}
  }

  ghost function Epsilon(): Lang {
    iset{[]}
  }

  ghost function Letter(t: TransitionType): Lang {
    iset{[t]}
  }

  ghost predicate Splits(a: Lang, b: Lang, w: Word) {
    exists i :: 0 <= i <= |w| && w[..i] in a && w[i..] in b
  }

  /** Words that split into a word of `a` followed by a word of `b`. */
  ghost function Cat(a: Lang, b: Lang): Lang {
    iset w: Word | Splits(a, b, w)
  }

  function Flatten(parts: seq<Word>): Word {
    if parts == [] then [] else parts[0] + Flatten(parts[1..])
  }

  ghost predicate Concatenates(parts: seq<Word>, w: Word) {
    Flatten(parts) == w
  }

  ghost predicate AllIn(parts: seq<Word>, a: Lang) {
    forall i :: 0 <= i < |parts| ==> parts[i] in a
  }

  ghost predicate Repeats(a: Lang, w: Word) {
    exists parts: seq<Word> :: Concatenates(parts, w) && AllIn(parts, a)
  }

  /** Words that are zero or more words of `a`, one after the other. */
  ghost function Star(a: Lang): Lang {
    iset w: Word | Repeats(a, w)
  }

  /** One or more words of `a`. */
  ghost function Plus(a: Lang): Lang {
    Cat(a, Star(a))
  }

  lemma InCat(a: Lang, b: Lang, u: Word, v: Word)
    requires u in a && v in b
    ensures u + v in Cat(a, b)
  {
    var w := u + v;
    assert w[..|u|] == u && w[|u|..] == v;
  }

  lemma SplitCat(a: Lang, b: Lang, w: Word) returns (u: Word, v: Word)
    requires w in Cat(a, b)
    ensures w == u + v && u in a && v in b
  {
    var i :| 0 <= i <= |w| && w[..i] in a && w[i..] in b;
    u, v := w[..i], w[i..];
  }

  lemma CatEpsilon(a: Lang)
    ensures Cat(Epsilon(), a) == a
    ensures Cat(a, Epsilon()) == a
  {
    forall w: Word
      ensures w in Cat(Epsilon(), a) <==> w in a
    {
      if w in a {
        InCat(Epsilon(), a, [], w);
        assert [] + w == w;
      }
      if w in Cat(Epsilon(), a) {
        var i :| 0 <= i <= |w| && w[..i] in Epsilon() && w[i..] in a;
        assert w == w[..i] + w[i..];
      }
    }
    forall w: Word
      ensures w in Cat(a, Epsilon()) <==> w in a
    {
      if w in a {
        InCat(a, Epsilon(), w, []);
        assert w + [] == w;
      }
      if w in Cat(a, Epsilon()) {
        var i :| 0 <= i <= |w| && w[..i] in a && w[i..] in Epsilon();
        assert w[i..] == [] && w[..i] == w;
      }
    }
  }

  lemma Regroup(l: Word, u: Word, m: Word, v: Word)
    ensures l + (u + m + v) == l + u + m + v
    ensures l + (u + m) == l + u + m
    ensures [] + l == l
  {
  }

  lemma CatEmpty(a: Lang)
    ensures Cat(Empty(), a) == Empty()
    ensures Cat(a, Empty()) == Empty()
  {
  }

  lemma CatMonotone(a: Lang, b: Lang, c: Lang, d: Lang)
    requires a <= c && b <= d
    ensures Cat(a, b) <= Cat(c, d)
  {
  }

  lemma FlattenAppend(p: seq<Word>, q: seq<Word>)
    ensures Flatten(p + q) == Flatten(p) + Flatten(q)
  {
    if p == [] {
      assert p + q == q;
    } else {
      assert (p + q)[1..] == p[1..] + q;
      FlattenAppend(p[1..], q);
    }
  }

  lemma InStar(a: Lang, parts: seq<Word>)
    requires AllIn(parts, a)
    ensures Flatten(parts) in Star(a)
  {
    assert Concatenates(parts, Flatten(parts));
  }

  lemma StarUnit(a: Lang)
    ensures [] in Star(a)
    ensures a <= Star(a)
  {
    InStar(a, []);
    assert Flatten([]) == [];
    forall w: Word | w in a
      ensures w in Star(a)
    {
      assert Flatten([w]) == w;
      InStar(a, [w]);
    }
  }

  lemma StarEmpty()
    ensures Star(Empty()) == Epsilon()
  {
    StarUnit(Empty());
    forall w: Word | w in Star(Empty())
      ensures w == []
    {
      var parts: seq<Word> :| Concatenates(parts, w) && AllIn(parts, Empty());
      assert parts == [];
    }
  }

  lemma StarAppend(a: Lang, u: Word, v: Word)
    requires u in Star(a) && v in Star(a)
    ensures u + v in Star(a)
  {
    var p: seq<Word> :| Concatenates(p, u) && AllIn(p, a);
    var q: seq<Word> :| Concatenates(q, v) && AllIn(q, a);
    FlattenAppend(p, q);
    InStar(a, p + q);
  }

  lemma CatStarStar(a: Lang)
    ensures Cat(Star(a), Star(a)) <= Star(a)
  {
    forall w: Word | w in Cat(Star(a), Star(a))
      ensures w in Star(a)
    {
      var i :| 0 <= i <= |w| && w[..i] in Star(a) && w[i..] in Star(a);
      StarAppend(a, w[..i], w[i..]);
      assert w[..i] + w[i..] == w;
    }
  }

  /** A language inside a star has its own star inside it too. */
  lemma {:induction false} StarWithin(c: Lang, a: Lang)
    requires c <= Star(a)
    ensures Star(c) <= Star(a)
  {
    forall w: Word | w in Star(c)
      ensures w in Star(a)
    {
      var parts: seq<Word> :| Concatenates(parts, w) && AllIn(parts, c);
      FlattenWithin(parts, a);
    }
  }

  lemma {:induction false} FlattenWithin(parts: seq<Word>, a: Lang)
    requires forall i :: 0 <= i < |parts| ==> parts[i] in Star(a)
    ensures Flatten(parts) in Star(a)
  {
    if parts == [] {
      StarUnit(a);
    } else {
      FlattenWithin(parts[1..], a);
      StarAppend(a, parts[0], Flatten(parts[1..]));
    }
  }

  /** Plus and the empty word make up the star. */
  lemma PlusAndEpsilonIsStar(a: Lang)
    ensures Plus(a) + Epsilon() == Star(a)
  {
    StarUnit(a);
    CatStarStar(a);
    CatMonotone(a, Star(a), Star(a), Star(a));
    forall w: Word | w in Star(a) && w != []
      ensures w in Plus(a)
    {
      var parts: seq<Word> :| Concatenates(parts, w) && AllIn(parts, a);
      InStar(a, parts[1..]);
      InCat(a, Star(a), parts[0], Flatten(parts[1..]));
    }
  }

  // ----- going round: reach a point, loop there, and leave it

  /** Words that reach a point by `a`, come back to it by `b` any number of
      times, and leave it by `c`. */
  ghost function Round(a: Lang, b: Lang, c: Lang): Lang {
    Cat(Cat(a, Star(b)), c)
  }

  lemma EmptyRound(a: Lang, b: Lang, c: Lang)
    requires [] in a && [] in c
    ensures [] in Round(a, b, c)
  {
    StarUnit(b);
    InCat(a, Star(b), [], []);
    InCat(Cat(a, Star(b)), c, [], []);
  }

  lemma RoundWithoutLoop(a: Lang, c: Lang)
    ensures Round(a, Empty(), c) == Cat(a, c)
  {
    StarEmpty();
    CatEpsilon(a);
  }

  lemma RoundWithin(a: Lang, b: Lang, c: Lang, x: Lang)
    requires a <= Star(x) && b <= Star(x) && c <= Star(x)
    ensures Round(a, b, c) <= Star(x)
  {
    StarWithin(b, x);
    CatStarStar(x);
    CatMonotone(a, Star(b), Star(x), Star(x));
    CatMonotone(Cat(a, Star(b)), c, Star(x), Star(x));
  }

  /** One way through, or several with the loop in between. */
  lemma RoundIsPlus(b: Lang)
    ensures b + Round(b, b, b) == Plus(b)
  {
    forall w: Word
      ensures w in b + Round(b, b, b) <==> w in Plus(b)
    {
      if w in b {
        StarUnit(b);
        InCat(b, Star(b), w, []);
        assert w + [] == w;
      } else if w in Round(b, b, b) {
        RoundIntoPlus(b, w);
      }
      if w in Plus(b) {
        var u, m := SplitCat(b, Star(b), w);
        LastOfStar(b, u, m);
      }
    }
  }

  lemma RoundIntoPlus(b: Lang, w: Word)
    requires w in Round(b, b, b)
    ensures w in Plus(b)
  {
    var um, v := SplitCat(Cat(b, Star(b)), b, w);
    var u, m := SplitCat(b, Star(b), um);
    StarUnit(b);
    StarAppend(b, m, v);
    InCat(b, Star(b), u, m + v);
    Regroup(u, m, v, []);
  }

  /** `u` followed by repetitions ends in one repetition, unless it is `u`. */
  lemma LastOfStar(b: Lang, u: Word, m: Word)
    requires u in b && m in Star(b)
    ensures u + m in b + Round(b, b, b)
  {
    var parts: seq<Word> :| Concatenates(parts, m) && AllIn(parts, b);
    if parts == [] {
      assert u + m == u;
    } else {
      var k := |parts| - 1;
      var front := parts[..k];
      assert parts == front + [parts[k]];
      FlattenAppend(front, [parts[k]]);
      assert Flatten([parts[k]]) == parts[k];
      InStar(b, front);
      InCat(b, Star(b), u, Flatten(front));
      InCat(Cat(b, Star(b)), b, u + Flatten(front), parts[k]);
      assert u + m == u + Flatten(front) + parts[k];
    }
  }

  /** A detour within the repetitions of `x` adds only the empty word to a
      language that has all nonempty ones. */
  lemma RoundAddsEmpty(l: Lang, a: Lang, b: Lang, c: Lang, x: Lang)
    requires [] in a && [] in c
    requires a <= Star(x) && b <= Star(x) && c <= Star(x) && Plus(x) <= l
    ensures l + Round(a, b, c) == l + Epsilon()
  {
    EmptyRound(a, b, c);
    RoundWithin(a, b, c, x);
    PlusAndEpsilonIsStar(x);
  }
}
