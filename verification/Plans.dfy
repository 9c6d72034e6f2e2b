/** The plans of the parser: what to do on a token is found beforehand, for each
    state of each rule's table, by following first children down to the token. */
module Plans {
  import opened Rules
  import opened Powerset
  import opened Parsing
  import opened Derivations

  // ----- what a plan stands for

  function FirstLabel(pushes: seq<Push>, kind: TransitionType): TransitionType {
    if pushes == [] then kind else Nonterminal(pushes[0].nodeType)
  }

  /** From state `from` of a rule, the first push goes to `next`; each push begins
      its rule, and goes on to its own state with the next push; the last one
      takes the token. */
  ghost predicate Chain(t: Tables, rule: nat, from: nat, pushes: seq<Push>, next: StateId, kind: TransitionType)
    decreases |pushes|
  {
    && rule in t.dfas && from < |t.dfas[rule]| && next.rule == rule && next.index < |t.dfas[rule]|
    && Powerset.Next(t.dfas[rule], from, FirstLabel(pushes, kind)) == Some(next.index)
    && (pushes != [] ==> pushes[0].mode.LLPush? && Chain(t, pushes[0].nodeType, 0, pushes[1..], pushes[0].next, kind))
  }

  /** Where a plan of a state starts from: with left recursion, the state where
      the rule goes on that began with itself. */
  function From(t: Tables, id: StateId, mode: PlanMode): Option<nat>
    requires id.rule in t.dfas && 0 < |t.dfas[id.rule]|
  {
    if mode == LeftRecursive then Powerset.Next(t.dfas[id.rule], 0, Nonterminal(id.rule)) else Some(id.index)
  }

  /** A rule entered at its start does not begin with itself. */
  predicate Direct(rule: nat, atStart: bool, pushes: seq<Push>)
    decreases |pushes|
  {
    pushes == [] || ((atStart ==> pushes[0].nodeType != rule) && Direct(pushes[0].nodeType, true, pushes[1..]))
  }

  lemma DirectLater(rule: nat, atStart: bool, pushes: seq<Push>)
    requires Direct(rule, atStart, pushes)
    ensures Direct(rule, false, pushes)
  {
  }

  /** The plan takes a token with this key as one of this kind. Its leaf has the
      type of the kind; a plan of left recursion makes it of the token's own. */
  ghost predicate PlanReads(t: Tables, id: StateId, key: nat, plan: Plan, kind: TransitionType)
    requires id.rule in t.dfas && id.index < |t.dfas[id.rule]|
  {
    && t.Matches(kind, key) && plan.mode != PositivePeek
    && (if plan.mode == LeftRecursive then plan.type_ == key && t.dfas[id.rule][id.index].isFinal
        else t.HasType(kind, plan.type_))
    && From(t, id, plan.mode).Some?
    && Chain(t, id.rule, From(t, id, plan.mode).value, plan.pushes, plan.next, kind)
    && Direct(id.rule, id.index == 0, plan.pushes)
  }

  /** A state as the generator leaves it: what its table says, and plans that are
      chains of pushes down to the token. */
  ghost predicate InfoSound(t: Tables, id: StateId, info: StateInfo) {
    && id.rule in t.dfas && id.index < |t.dfas[id.rule]|
    && info.isFinal == t.dfas[id.rule][id.index].isFinal && (id.index == 0 ==> !info.isFinal)
    && info.mayBeOmitted == (id.rule in t.omitted) && !info.isNegativeLookahead
    && forall key :: key in info.plans ==> exists kind :: PlanReads(t, id, key, info.plans[key], kind)
  }

  ghost predicate StateSound(g: Grammar, t: Tables, id: StateId)
    requires id in g.states
  {
    InfoSound(t, id, g.states[id])
  }

  /** All states of a grammar without lookaheads and conflicts. */
  ghost predicate GrammarSound(g: Grammar, t: Tables) {
    && (forall id :: id in g.states ==> StateSound(g, t, id))
    && forall rule, i: nat :: rule in t.dfas && i < |t.dfas[rule]| ==> StateId(rule, i) in g.states
  }

  // ----- the tables that plans are made for

  ghost predicate RowOk(t: Tables, rule: nat, row: seq<DfaTransition>)
    requires rule in t.dfas
  {
    && (forall i, j :: 0 <= i < j < |row| ==> row[i].kind != row[j].kind)
    && forall i :: 0 <= i < |row| ==>
         && row[i].to < |t.dfas[rule]| && !IsLookahead(row[i].kind)
         && (row[i].kind.Nonterminal? ==> row[i].kind.nonterminal in t.dfas)
  }

  /** Tables without lookaheads, whose rules are all known. */
  ghost predicate TablesOk(t: Tables) {
    forall rule :: rule in t.dfas ==>
      |t.dfas[rule]| > 0 && forall d :: 0 <= d < |t.dfas[rule]| ==> RowOk(t, rule, t.dfas[rule][d].transitions)
  }

  lemma {:induction false} NextOfRow(row: seq<DfaTransition>, i: nat)
    requires i < |row| && forall i, j :: 0 <= i < j < |row| ==> row[i].kind != row[j].kind
    ensures NextIn(row, row[i].kind) == Some(row[i].to)
  {
    if i > 0 {
      assert row[1..][i - 1] == row[i];
      NextOfRow(row[1..], i - 1);
    }
  }

  predicate IsSoft(t: Tables, kind: TransitionType, keyword: string) {
    kind.Terminal? && kind.terminal in t.softKeywords && keyword in t.softKeywords[kind.terminal]
  }

  /** A token that is the keyword can be taken by this label. */
  predicate CanRead(t: Tables, kind: TransitionType, keyword: string) {
    kind == KeywordToken(keyword) || IsSoft(t, kind, keyword)
  }

  /** All labels of a row that a keyword can be taken by go to one state. */
  ghost predicate KeywordsAgree(t: Tables, row: seq<DfaTransition>) {
    forall i, j, k ::
      0 <= i < |row| && 0 <= j < |row| && k in t.keywords && CanRead(t, row[i].kind, k) && CanRead(t, row[j].kind, k)
      ==> row[i].to == row[j].to
  }

  ghost predicate AllAgree(t: Tables) {
    forall rule, d :: rule in t.dfas && 0 <= d < |t.dfas[rule]| ==> KeywordsAgree(t, t.dfas[rule][d].transitions)
  }

  /** Of the first `n` labels, the last one that a keyword can be taken by. */
  function LastReader(t: Tables, row: seq<DfaTransition>, n: nat, keyword: string): (last: Option<nat>)
    requires n <= |row|
    ensures last.Some? ==> last.value < n && CanRead(t, row[last.value].kind, keyword)
    ensures forall i :: 0 <= i < n && CanRead(t, row[i].kind, keyword) ==> last.Some? && i <= last.value
  {
    if n == 0 then None
    else if CanRead(t, row[n - 1].kind, keyword) then Some(n - 1)
    else LastReader(t, row, n - 1, keyword)
  }

  /** From every state the rule can go on or end. */
  ghost predicate Live(t: Tables) {
    forall rule, d :: rule in t.dfas && 0 <= d < |t.dfas[rule]| ==>
      t.dfas[rule][d].isFinal || t.dfas[rule][d].transitions != []
  }

  // ----- which chains a state has

  /** A chain of the state by which it can take a token with this key. */
  ghost predicate IsChainFor(t: Tables, rule: nat, d: nat, key: nat, pushes: seq<Push>, next: StateId,
                             kind: TransitionType)
  {
    Chain(t, rule, d, pushes, next, kind) && Direct(rule, d == 0, pushes) && t.Matches(kind, key)
  }

  /** The plan takes the token by a chain of this state. */
  ghost predicate TakesToken(t: Tables, rule: nat, d: nat, key: nat, plan: Plan)
    requires rule in t.dfas && d < |t.dfas[rule]|
  {
    plan.mode == LL && exists kind :: PlanReads(t, StateId(rule, d), key, plan, kind)
  }

  predicate PlanIs(plans: map<nat, Plan>, key: nat, pushes: seq<Push>, next: StateId) {
    key in plans && plans[key].pushes == pushes && plans[key].next == next
  }

  /** Every chain of the state that begins with `label_` is in the plans, for
      every token that it can take. */
  ghost predicate HasChains(t: Tables, rule: nat, d: nat, label_: TransitionType, plans: map<nat, Plan>) {
    forall key, pushes, next, kind ::
      IsChainFor(t, rule, d, key, pushes, next, kind) && FirstLabel(pushes, kind) == label_
      ==> PlanIs(plans, key, pushes, next)
  }

  ghost predicate HasAllChains(t: Tables, rule: nat, d: nat, plans: map<nat, Plan>) {
    forall label_ :: HasChains(t, rule, d, label_, plans)
  }

  /** Every token that a chain of the state can take has some plan. */
  ghost predicate HasKeys(t: Tables, rule: nat, d: nat, keys: set<nat>) {
    forall key, pushes, next, kind :: IsChainFor(t, rule, d, key, pushes, next, kind) ==> key in keys
  }

  /** A keyword that labels of the row can take goes where the last of them does. */
  ghost predicate LastReads(t: Tables, rule: nat, d: nat, plans: map<nat, Plan>, keyword: string)
    requires rule in t.dfas && d < |t.dfas[rule]|
  {
    var row := t.dfas[rule][d].transitions;
    var last := LastReader(t, row, |row|, keyword);
    keyword in t.keywords && last.Some? ==> PlanIs(plans, t.keywords[keyword], [], StateId(rule, row[last.value].to))
  }

  /** The plans of a state: all take their token, every token of a chain has one,
      a keyword goes where the last label that can take it does, and, if the labels
      agree on keywords, each chain is there. */
  ghost predicate ExactPlans(t: Tables, rule: nat, d: nat, plans: map<nat, Plan>)
    requires rule in t.dfas && d < |t.dfas[rule]|
  {
    && (forall key :: key in plans ==> TakesToken(t, rule, d, key, plans[key]))
    && HasKeys(t, rule, d, plans.Keys)
    && (forall k :: LastReads(t, rule, d, plans, k))
    && (AllAgree(t) ==> HasAllChains(t, rule, d, plans))
  }

  // ----- candidates for plans

  datatype Candidate = Candidate(kind: TransitionType, plan: Plan)

  /** Adds a plan unless the token is taken by another transition. */
  function Add(candidates: map<nat, Candidate>, kind: TransitionType, key: nat, plan: Plan): Option<map<nat, Candidate>>
  {
    if key in candidates && candidates[key].kind != kind then None
    else Some(candidates[key := Candidate(kind, plan)])
  }

  function PlansOf(candidates: map<nat, Candidate>): (plans: map<nat, Plan>)
    ensures plans.Keys == candidates.Keys
  {
    map key | key in candidates :: candidates[key].plan
  }
}
