/** What a rule means, and what the automaton built from it spells. */
module RuleLanguage {
  import opened Rules
  import opened Languages

  /** The regular language of a rule. A lookahead is read as the word of
      transition types that its automaton goes through. */
  ghost function Meaning(names: Names, rule: Rule): Lang
    requires names.Accepts(rule)
  {
    match rule
    case Identifier(name) => Letter(names.Resolve(name))
    case Keyword(name) => Letter(KeywordToken(name))
    case Or(r1, r2) => Meaning(names, r1) + Meaning(names, r2)
    case Maybe(r) => Meaning(names, r) + Epsilon()
    case Multiple(r) => Plus(Meaning(names, r))
    case NegativeLookahead(r) => Guarded(NegativeLookaheadStart, Meaning(names, r))
    case PositiveLookahead(r) => Guarded(PositiveLookaheadStart, Meaning(names, r))
    case Next(r1, r2) => Cat(Meaning(names, r1), Meaning(names, r2))
    case NodeMayBeOmitted(r) => Meaning(names, r)
    case DoesErrorRecovery(r) => Meaning(names, r)
  }

  ghost function Guarded(start: TransitionType, a: Lang): Lang {
    Cat(Cat(Letter(start), a), Letter(LookaheadEnd))
  }

  /** The two states of a rule's automaton that the rest of it attaches to. */
  datatype Port = Start | End

  /** Languages between the ports when nothing leads back into the start or
      out of the end. */
  ghost function OneWay(a: Lang, from: Port, to: Port): Lang {
    if from == to then Epsilon() else if from == Start then a else Empty()
  }

  /** The words the automaton of a rule spells between its ports: what the
      construction computes for every rule, whether or not that is what the
      rule means. */
  ghost function Built(names: Names, rule: Rule, from: Port, to: Port): Lang
    requires names.Accepts(rule)
  {
    match rule
    case Identifier(name) => OneWay(Letter(names.Resolve(name)), from, to)
    case Keyword(name) => OneWay(Letter(KeywordToken(name)), from, to)
    case Or(r1, r2) => OneWay(Built(names, r1, Start, End) + Built(names, r2, Start, End), from, to)
    case Maybe(r) =>
      Built(names, r, from, to)
      + Round(Built(names, r, from, Start), Built(names, r, End, Start), Built(names, r, End, to))
    case Multiple(r) =>
      Built(names, r, from, to)
      + Round(Built(names, r, from, End), Built(names, r, Start, End), Built(names, r, Start, to))
    case NegativeLookahead(r) => OneWay(Guarded(NegativeLookaheadStart, Built(names, r, Start, End)), from, to)
    case PositiveLookahead(r) => OneWay(Guarded(PositiveLookaheadStart, Built(names, r, Start, End)), from, to)
    case Next(r1, r2) =>
      if from == End && to == Start then Empty()
      else if from == End then Built(names, r2, End, End)
      else if to == Start then Built(names, r1, Start, Start)
      else Cat(Built(names, r1, Start, End), Built(names, r2, Start, End))
    case NodeMayBeOmitted(r) => Built(names, r, from, to)
    case DoesErrorRecovery(r) => Built(names, r, from, to)
  }

  /** No transition leads into the start state of the rule's automaton. */
  predicate StartIsFresh(rule: Rule) {
    match rule
    case Next(r1, _) => StartIsFresh(r1)
    case Maybe(r) => StartIsFresh(r)
    case Multiple(_) => false
    case NodeMayBeOmitted(r) => StartIsFresh(r)
    case DoesErrorRecovery(r) => StartIsFresh(r)
    case _ => true
  }

  /** No transition leads out of the end state of the rule's automaton. */
  predicate EndIsFresh(rule: Rule) {
    match rule
    case Next(_, r2) => EndIsFresh(r2)
    case Maybe(r) => EndIsFresh(r)
    case Multiple(_) => false
    case NodeMayBeOmitted(r) => EndIsFresh(r)
    case DoesErrorRecovery(r) => EndIsFresh(r)
    case _ => true
  }

  /** Repetitions and options stacked on one operand with two fresh ends. */
  predicate Chain(rule: Rule) {
    (StartIsFresh(rule) && EndIsFresh(rule))
    || match rule
       case Maybe(r) => Chain(r)
       case Multiple(r) => Chain(r)
       case NodeMayBeOmitted(r) => Chain(r)
       case DoesErrorRecovery(r) => Chain(r)
       case _ => false
  }

  /** The operand of every option is a chain. */
  predicate OptionsAreChains(rule: Rule) {
    match rule
    case Identifier(_) => true
    case Keyword(_) => true
    case Or(r1, r2) => OptionsAreChains(r1) && OptionsAreChains(r2)
    case Cut(_, _) => false
    case Maybe(r) => Chain(r) && OptionsAreChains(r)
    case Multiple(r) => OptionsAreChains(r)
    case NegativeLookahead(r) => OptionsAreChains(r)
    case PositiveLookahead(r) => OptionsAreChains(r)
    case Next(r1, r2) => OptionsAreChains(r1) && OptionsAreChains(r2)
    case NodeMayBeOmitted(r) => OptionsAreChains(r)
    case DoesErrorRecovery(r) => OptionsAreChains(r)
  }

  lemma {:induction false} FreshStart(names: Names, rule: Rule)
    requires names.Accepts(rule) && StartIsFresh(rule)
    ensures Built(names, rule, Start, Start) == Epsilon()
    ensures Built(names, rule, End, Start) == Empty()
  {
    match rule
    case Next(r1, _) => FreshStart(names, r1);
    case Maybe(r) =>
      FreshStart(names, r);
      RoundWithoutLoop(Epsilon(), Built(names, r, End, Start));
      RoundWithoutLoop(Empty(), Built(names, r, End, Start));
      CatEmpty(Epsilon());
      CatEmpty(Empty());
    case NodeMayBeOmitted(r) => FreshStart(names, r);
    case DoesErrorRecovery(r) => FreshStart(names, r);
    case _ =>
  }

  lemma {:induction false} FreshEnd(names: Names, rule: Rule)
    requires names.Accepts(rule) && EndIsFresh(rule)
    ensures Built(names, rule, End, End) == Epsilon()
    ensures Built(names, rule, End, Start) == Empty()
  {
    match rule
    case Next(_, r2) => FreshEnd(names, r2);
    case Maybe(r) =>
      FreshEnd(names, r);
      RoundWithoutLoop(Empty(), Epsilon());
      RoundWithoutLoop(Empty(), Empty());
      CatEmpty(Epsilon());
      CatEmpty(Empty());
    case NodeMayBeOmitted(r) => FreshEnd(names, r);
    case DoesErrorRecovery(r) => FreshEnd(names, r);
    case _ =>
  }

  /** The innermost operand of a chain. */
  function Core(rule: Rule): Rule
    requires Chain(rule)
    ensures StartIsFresh(Core(rule)) && EndIsFresh(Core(rule))
  {
    if StartIsFresh(rule) && EndIsFresh(rule) then rule
    else match rule
      case Maybe(r) => Core(r)
      case Multiple(r) => Core(r)
      case NodeMayBeOmitted(r) => Core(r)
      case DoesErrorRecovery(r) => Core(r)
  }

  lemma {:induction false} CoreAccepted(names: Names, rule: Rule)
    requires names.Accepts(rule) && Chain(rule)
    ensures names.Accepts(Core(rule))
  {
    if !(StartIsFresh(rule) && EndIsFresh(rule)) {
      match rule
      case Maybe(r) => CoreAccepted(names, r);
      case Multiple(r) => CoreAccepted(names, r);
      case NodeMayBeOmitted(r) => CoreAccepted(names, r);
      case DoesErrorRecovery(r) => CoreAccepted(names, r);
    }
  }

  /** Between any two ports a chain spells repetitions of its core; and when an
      end is not fresh, the way through spells every nonempty repetition. */
  lemma {:induction false} ChainBounds(names: Names, rule: Rule)
    requires names.Accepts(rule) && Chain(rule)
    ensures names.Accepts(Core(rule))
    ensures forall f, t :: Built(names, rule, f, t) <= Star(Built(names, Core(rule), Start, End))
    ensures !(StartIsFresh(rule) && EndIsFresh(rule)) ==>
              Plus(Built(names, Core(rule), Start, End)) <= Built(names, rule, Start, End)
    ensures Built(names, Core(rule), Start, End) <= Built(names, rule, Start, End)
  {
    CoreAccepted(names, rule);
    var x := Built(names, Core(rule), Start, End);
    StarUnit(x);
    if StartIsFresh(rule) && EndIsFresh(rule) {
      FreshStart(names, rule);
      FreshEnd(names, rule);
      forall f, t: Port
        ensures Built(names, rule, f, t) <= Star(x)
      {
        if f == t {
          assert Built(names, rule, f, t) == Epsilon();
        }
      }
    } else {
      match rule
      case Maybe(r) =>
        ChainBounds(names, r);
        forall f, t: Port
          ensures Built(names, rule, f, t) <= Star(x)
        {
          RoundWithin(Built(names, r, f, Start), Built(names, r, End, Start), Built(names, r, End, t), x);
        }
      case Multiple(r) =>
        ChainBounds(names, r);
        forall f, t: Port
          ensures Built(names, rule, f, t) <= Star(x)
        {
          RoundWithin(Built(names, r, f, End), Built(names, r, Start, End), Built(names, r, Start, t), x);
        }
        RepeatCovers(names, r, x);
      case NodeMayBeOmitted(r) => ChainBounds(names, r);
      case DoesErrorRecovery(r) => ChainBounds(names, r);
    }
  }

  /** Repeating a way through that spells at least `x` spells all of its
      nonempty repetitions. */
  lemma RepeatCovers(names: Names, r: Rule, x: Lang)
    requires names.Accepts(r) && x <= Built(names, r, Start, End)
    ensures Plus(x) <= Built(names, Multiple(r), Start, End)
  {
    RepeatIsPlus(names, r);
    var b := Built(names, r, Start, End);
    StarUnit(b);
    StarWithin(x, b);
    CatMonotone(x, Star(x), b, Star(b));
  }

  /** A repetition needs no condition on its operand. */
  lemma RepeatIsPlus(names: Names, r: Rule)
    requires names.Accepts(r)
    ensures Built(names, Multiple(r), Start, End) == Plus(Built(names, r, Start, End))
  {
    var b := Built(names, r, Start, End);
    assert Built(names, Multiple(r), Start, End) == b + Round(b, b, b);
    RoundIsPlus(b);
  }

  /** An option whose operand has two fresh ends, or is a chain, adds exactly
      the empty word. */
  lemma OptionOfChain(names: Names, r: Rule)
    requires names.Accepts(r) && Chain(r)
    ensures Built(names, Maybe(r), Start, End) == Built(names, r, Start, End) + Epsilon()
  {
    var l, a := Built(names, r, Start, End), Built(names, r, Start, Start);
    var b, c := Built(names, r, End, Start), Built(names, r, End, End);
    assert Built(names, Maybe(r), Start, End) == l + Round(a, b, c);
    if StartIsFresh(r) && EndIsFresh(r) {
      FreshStart(names, r);
      FreshEnd(names, r);
      RoundWithoutLoop(a, c);
      CatEpsilon(c);
    } else {
      ChainBounds(names, r);
      EmptyAround(names, r);
      RoundAddsEmpty(l, a, b, c, Built(names, Core(r), Start, End));
    }
  }

  /** Staying at a port spells the empty word. */
  lemma {:induction false} EmptyAround(names: Names, rule: Rule)
    requires names.Accepts(rule)
    ensures forall f :: [] in Built(names, rule, f, f)
  {
    match rule
    case Maybe(r) => EmptyAround(names, r);
    case Multiple(r) => EmptyAround(names, r);
    case Next(r1, r2) =>
      EmptyAround(names, r1);
      EmptyAround(names, r2);
    case NodeMayBeOmitted(r) => EmptyAround(names, r);
    case DoesErrorRecovery(r) => EmptyAround(names, r);
    case _ =>
  }

  /** The construction computes what the rule means, when the operand of every
      option is a chain; sequences, alternatives and repetitions are
      unrestricted. */
  lemma {:induction false} BuiltIsMeaning(names: Names, rule: Rule)
    requires names.Accepts(rule) && OptionsAreChains(rule)
    ensures Built(names, rule, Start, End) == Meaning(names, rule)
  {
    match rule
    case Identifier(_) =>
    case Keyword(_) =>
    case Or(r1, r2) =>
      BuiltIsMeaning(names, r1);
      BuiltIsMeaning(names, r2);
    case Maybe(r) =>
      BuiltIsMeaning(names, r);
      OptionOfChain(names, r);
    case Multiple(r) =>
      BuiltIsMeaning(names, r);
      RepeatIsPlus(names, r);
    case NegativeLookahead(r) => BuiltIsMeaning(names, r);
    case PositiveLookahead(r) => BuiltIsMeaning(names, r);
    case Next(r1, r2) =>
      BuiltIsMeaning(names, r1);
      BuiltIsMeaning(names, r2);
    case NodeMayBeOmitted(r) => BuiltIsMeaning(names, r);
    case DoesErrorRecovery(r) => BuiltIsMeaning(names, r);
  }

  /** For one option, exactly: it adds the empty word and nothing else if and
      only if every way round its start, over and over from its end to its
      start, and round its end, spells the empty word or a word of the operand. */
  lemma OptionIsExact(names: Names, r: Rule)
    requires names.Accepts(r)
    ensures Built(names, Maybe(r), Start, End) == Built(names, r, Start, End) + Epsilon()
       <==> Round(Built(names, r, Start, Start), Built(names, r, End, Start), Built(names, r, End, End))
            <= Built(names, r, Start, End) + Epsilon()
  {
    EmptyAround(names, r);
    EmptyRound(Built(names, r, Start, Start), Built(names, r, End, Start), Built(names, r, End, End));
  }

  /** The condition is needed: `[a b+]` also accepts a lone `b`. */
  lemma OptionWithoutFreshEnd(names: Names, a: string, b: string)
    requires names.Knows(a) && names.Knows(b) && names.Resolve(a) != names.Resolve(b)
    ensures var rule := Maybe(Next(Identifier(a), Multiple(Identifier(b))));
            names.Accepts(rule)
            && [names.Resolve(b)] in Built(names, rule, Start, End)
            && [names.Resolve(b)] !in Meaning(names, rule)
  {
    var r := Next(Identifier(a), Multiple(Identifier(b)));
    var w := [names.Resolve(b)];
    assert names.Accepts(r.right) && names.Accepts(r);
    LoopAtEnd(names, b);
    assert Built(names, r, End, End) == Built(names, r.right, End, End);
    EmptyAround(names, r);
    LoopIntoRound(Built(names, r, Start, Start), Built(names, r, End, Start), Built(names, r, End, End), w);
    assert Meaning(names, r.left) == Letter(names.Resolve(a));
    assert Meaning(names, r) == Cat(Meaning(names, r.left), Meaning(names, r.right));
    if w in Meaning(names, r) {
      FirstLetter(names.Resolve(a), Meaning(names, r.right), w);
    }
    assert Meaning(names, Maybe(r)) == Meaning(names, r) + Epsilon();
  }

  lemma LoopIntoRound(a: Lang, b: Lang, c: Lang, w: Word)
    requires [] in a && w in c
    ensures w in Round(a, b, c)
  {
    StarUnit(b);
    InCat(a, Star(b), [], []);
    InCat(Cat(a, Star(b)), c, [], w);
    Regroup(w, [], [], []);
  }

  lemma FirstLetter(a: TransitionType, b: Lang, w: Word)
    requires w in Cat(Letter(a), b)
    ensures w != [] && w[0] == a
  {
    var u, v := SplitCat(Letter(a), b, w);
  }

  /** The automaton of `b+` spells `b` from its end back to its end. */
  lemma LoopAtEnd(names: Names, b: string)
    requires names.Knows(b)
    ensures [names.Resolve(b)] in Built(names, Multiple(Identifier(b)), End, End)
  {
    var l := Letter(names.Resolve(b));
    StarUnit(l);
    LoopIntoRound(Epsilon(), l, l, [names.Resolve(b)]);
  }
}
