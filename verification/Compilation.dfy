/** From the rules of a grammar to the parser, and what its trees then are:
    derivations by the rules themselves. */
module Compilation {
  import opened Rules
  import opened RuleLanguage
  import opened Powerset
  import opened Automaton
  import opened Trees
  import opened ReplayBuffer
  import opened Parsing
  import opened Derivations
  import opened Plans
  import opened PlanGeneration
  import opened GrammarGeneration
  import opened Soundness
  import opened ErrorFreeRuns

  /** What a grammar is written as. Keywords and soft keywords have got their
      types. */
  datatype Source = Source(
    names: Names,
    rules: map<nat, Rule>,
    keywords: map<string, nat>,
    softKeywords: map<nat, set<string>>)

  /** A grammar without lookaheads whose names are all known. */
  ghost predicate WellFormed(source: Source) {
    && source.names.nonterminals.Values <= source.rules.Keys
    && forall rule :: rule in source.rules ==>
      source.names.Accepts(source.rules[rule]) && NoLookahead(source.rules[rule])
  }

  function Omitted(rules: map<nat, Rule>): set<nat> {
    set rule | rule in rules && MayBeOmitted(rules[rule])
  }

  function Recovering(rules: map<nat, Rule>): set<nat> {
    set rule | rule in rules && RecoversErrors(rules[rule])
  }

  /** The table accepts what the construction computes for the rule. */
  ghost predicate TableFits(source: Source, rule: nat, dfas: seq<DfaState>)
    requires WellFormed(source) && rule in source.rules
  {
    && |dfas| > 0 && (forall d :: 0 <= d < |dfas| ==> GoodRow(source.names, dfas, d))
    && (forall w :: Accepts(dfas, w) <==> w in Built(source.names, source.rules[rule], Start, End))
    && (OptionsAreChains(source.rules[rule]) ==>
          forall w :: Accepts(dfas, w) <==> w in Meaning(source.names, source.rules[rule]))
  }

  ghost predicate TablesFit(source: Source, dfas: map<nat, seq<DfaState>>)
    requires WellFormed(source)
  {
    forall rule :: rule in dfas ==> rule in source.rules && TableFits(source, rule, dfas[rule])
  }

  function TablesOf(source: Source, dfas: map<nat, seq<DfaState>>): Tables {
    Tables(dfas, Omitted(source.rules), source.keywords, source.softKeywords)
  }

  lemma FittingTablesOk(source: Source, dfas: map<nat, seq<DfaState>>)
    requires WellFormed(source) && TablesFit(source, dfas) && dfas.Keys == source.rules.Keys
    ensures TablesOk(TablesOf(source, dfas)) && Live(TablesOf(source, dfas))
  {
    var t := TablesOf(source, dfas);
    forall rule, d | rule in t.dfas && 0 <= d < |t.dfas[rule]|
      ensures RowOk(t, rule, t.dfas[rule][d].transitions)
      ensures t.dfas[rule][d].isFinal || t.dfas[rule][d].transitions != []
    {
      assert TableFits(source, rule, dfas[rule]) && GoodRow(source.names, dfas[rule], d);
    }
    forall rule | rule in t.dfas
      ensures |t.dfas[rule]| > 0
    {
      assert TableFits(source, rule, dfas[rule]);
    }
  }

  method MakeTable(source: Source, rule: nat) returns (dfas: seq<DfaState>)
    requires WellFormed(source) && rule in source.rules
    ensures TableFits(source, rule, dfas)
  {
    var automaton := new RuleAutomaton();
    automaton.Generate(source.names, source.rules[rule]);
    dfas := automaton.dfaStates;
  }

  /** All rules are compiled, then all plans are made. The tables come out as well,
      and the plans of each state's chains; the grammar is made if and only if
      nothing in the tables is against it. */
  method Compile(source: Source, order: seq<nat>)
    returns (r: Result<Grammar>, t: Tables, ghost own: map<StateId, map<nat, Plan>>)
    requires WellFormed(source) && forall rule :: rule in order <==> rule in source.rules
    ensures TablesFit(source, t.dfas) && t.dfas.Keys == source.rules.Keys && t == TablesOf(source, t.dfas)
    ensures r.Made? ==> GrammarSound(r.value, t) && AllExtended(t, r.value.states, own) && NoReason(t)
    ensures r.Made? ==> r.value.recovering == Recovering(source.rules)
                        && ErrorNodesOk(t, Recovering(source.rules), r.value.states)
    ensures r.Refused? ==> Reason(t, r.why)
  {
    var dfas: map<nat, seq<DfaState>> := map[];
    for n := 0 to |order|
      invariant TablesFit(source, dfas) && forall rule :: rule in dfas <==> rule in order[..n]
    {
      var table := MakeTable(source, order[n]);
      assert order[..n + 1] == order[..n] + [order[n]];
      dfas := dfas[order[n] := table];
    }
    assert order[..|order|] == order;
    FittingTablesOk(source, dfas);
    t := TablesOf(source, dfas);
    r, own := Generate(t, order, Recovering(source.rules));
  }

  /** The children spell a word that the rule builds; if the optional parts of the
      rule are chains, that is a word of the regular language that it means. */
  ghost predicate SpelledBy(source: Source, rule: nat, word: Word)
    requires WellFormed(source) && rule in source.rules
  {
    && word in Built(source.names, source.rules[rule], Start, End)
    && (OptionsAreChains(source.rules[rule]) ==> word in Meaning(source.names, source.rules[rule]))
  }

  /** A derivation by the rules themselves. */
  ghost predicate ByRules(source: Source, d: Deriv)
    requires WellFormed(source)
    decreases d
  {
    d.DNode? ==>
      && d.rule in source.rules && SpelledBy(source, d.rule, Labels(d.kids))
      && forall i :: 0 <= i < |d.kids| ==> ByRules(source, d.kids[i])
  }

  lemma {:induction false} DerivedByRules(source: Source, t: Tables, d: Deriv)
    requires WellFormed(source) && TablesFit(source, t.dfas) && Derives(t, d)
    ensures ByRules(source, d)
    decreases d
  {
    if d.DNode? {
      assert TableFits(source, d.rule, t.dfas[d.rule]);
      forall i | 0 <= i < |d.kids|
        ensures ByRules(source, d.kids[i])
      {
        DerivedByRules(source, t, d.kids[i]);
      }
    }
  }

  ghost predicate IsTreeByRules(source: Source, t: Tables, root: nat, tokens: seq<Token>, nodes: seq<InternalNode>,
                                d: Deriv)
    requires WellFormed(source)
  {
    IsParse(t, root, tokens, nodes, d) && ByRules(source, d)
  }

  /** What is parsed without an error by a compiled grammar is the tree of a
      derivation by the rules of the grammar. */
  lemma CompiledParserIsSound(source: Source, g: Grammar, t: Tables, all: seq<Token>, root: nat, n: nat)
    requires WellFormed(source) && TablesFit(source, t.dfas) && GrammarSound(g, t)
    requires Short(all) && StateId(root, 0) in g.states
    requires NoErrors(g, Parsing.Start(g, root, all), n)
    ensures var end := Parsing.Run(g, Parsing.Start(g, root, all), n);
            end.Done? ==> exists d :: IsTreeByRules(source, t, root, all, end.nodes, d)
  {
    ParserIsSound(g, t, all, root, n);
    var end := Parsing.Run(g, Parsing.Start(g, root, all), n);
    if end.Done? {
      var d :| IsParse(t, root, all, end.nodes, d);
      DerivedByRules(source, t, d);
      assert IsTreeByRules(source, t, root, all, end.nodes, d);
    }
  }

  /** Without an error the parser of a compiled grammar ends, within a number of
      steps that is linear in the tokens, and it has built the tree of a derivation
      by the rules: of all tokens, or, if it panics, of those before the token that
      it panics at. */
  lemma CompiledParserEnds(source: Source, g: Grammar, t: Tables, all: seq<Token>, root: nat)
    returns (prefix: nat, nodes: seq<InternalNode>, d: Deriv)
    requires WellFormed(source) && TablesFit(source, t.dfas) && GrammarSound(g, t)
    requires Short(all) && StateId(root, 0) in g.states
    requires NoErrors(g, Parsing.Start(g, root, all), Steps(g, all))
    ensures prefix <= |all| && IsTreeByRules(source, t, root, all[..prefix], nodes, d)
    ensures Parsing.Run(g, Parsing.Start(g, root, all), Steps(g, all)) == if prefix == |all| then Done(nodes)
            else Panicked
  {
    prefix, nodes := ErrorFreeRunEnds(g, t, all, root);
    d :| IsParse(t, root, all[..prefix], nodes, d);
    DerivedByRules(source, t, d);
  }
}
