/** Grammar rules as they are written in a grammar, and the transition types
    that label the automata built from them. */
module Rules {

  datatype Option<+T> = None | Some(value: T)

  /** What becomes of an operation that may panic. */
  datatype Outcome<+T> = Ok(value: T) | Panics

  datatype Rule =
    | Identifier(name: string)
    | Keyword(name: string)
    | Or(left: Rule, right: Rule)
    | Cut(left: Rule, right: Rule)
    | Maybe(rule: Rule)
    | Multiple(rule: Rule)
    | NegativeLookahead(rule: Rule)
    | PositiveLookahead(rule: Rule)
    | Next(left: Rule, right: Rule)
    | NodeMayBeOmitted(rule: Rule)
    | DoesErrorRecovery(rule: Rule)

  datatype TransitionType =
    | Terminal(terminal: nat)
    | Nonterminal(nonterminal: nat)
    | KeywordToken(keyword: string)
    | PositiveLookaheadStart
    | NegativeLookaheadStart
    | LookaheadEnd

  type Word = seq<TransitionType>

  /** The names a grammar may use: terminals take precedence over nonterminals. */
  datatype Names = Names(terminals: map<string, nat>, nonterminals: map<string, nat>) {

    predicate Knows(name: string) {
      name in terminals || name in nonterminals
    }

    function Resolve(name: string): TransitionType
      requires Knows(name)
    {
      if name in terminals then Terminal(terminals[name]) else Nonterminal(nonterminals[name])
    }

    /** What building demands of a rule: every identifier is known, and the
        cut operator, which is not implemented, does not occur. */
    predicate Accepts(rule: Rule) {
      match rule
      case Identifier(name) => Knows(name)
      case Keyword(_) => true
      case Or(r1, r2) => Accepts(r1) && Accepts(r2)
      case Cut(_, _) => false
      case Maybe(r) => Accepts(r)
      case Multiple(r) => Accepts(r)
      case NegativeLookahead(r) => Accepts(r)
      case PositiveLookahead(r) => Accepts(r)
      case Next(r1, r2) => Accepts(r1) && Accepts(r2)
      case NodeMayBeOmitted(r) => Accepts(r)
      case DoesErrorRecovery(r) => Accepts(r)
    }
  }
}
