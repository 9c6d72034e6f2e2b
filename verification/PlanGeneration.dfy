/** Making the plans of all states. Rules are followed into their first children
    on demand; a rule that is met again while its own plans are being made is
    left-recursive. */
module PlanGeneration {
  import opened Rules
  import opened Powerset
  import opened Parsing
  import opened Derivations
  import opened Plans

  datatype FirstPlan = Calculating | Calculated(plans: map<nat, Plan>, leftRecursive: bool)

  /** Why the generator panics, or, for a conflict, goes on to make alternatives,
      which are not part of this model. */
  datatype Refusal = IndirectLeftRecursion | NoAlternative | EmptyProduction | UnknownKeyword | Conflict

  datatype Result<+T> = Made(value: T) | Refused(why: Refusal)

  // ----- what the labels of a row offer

  /** Some chain of the state that begins with the rule `node` takes the token. */
  ghost predicate TakenThrough(t: Tables, rule: nat, d: nat, node: nat, key: nat) {
    exists pushes, next, kind ::
      IsChainFor(t, rule, d, key, pushes, next, kind) && FirstLabel(pushes, kind) == Nonterminal(node)
  }

  /** The i-th label takes the token as a transition of this type: its own, or,
      for a soft keyword, that of the keyword. */
  ghost predicate OffersAt(t: Tables, rule: nat, d: nat, i: nat, kind: TransitionType, key: nat)
    requires rule in t.dfas && d < |t.dfas[rule]| && i < |t.dfas[rule][d].transitions|
  {
    var own := t.dfas[rule][d].transitions[i].kind;
    match kind
    case Terminal(terminal) => own == kind && key == terminal
    case KeywordToken(k) => CanRead(t, own, k) && k in t.keywords && key == t.keywords[k]
    case Nonterminal(node) => own == kind && TakenThrough(t, rule, d, node, key)
    case _ => false
  }

  /** One of the first `n` labels does. */
  ghost predicate Offers(t: Tables, rule: nat, d: nat, n: nat, kind: TransitionType, key: nat)
    requires rule in t.dfas && d < |t.dfas[rule]| && n <= |t.dfas[rule][d].transitions|
  {
    exists i :: 0 <= i < n && OffersAt(t, rule, d, i, kind, key)
  }

  /** Transitions of two types take one token. */
  ghost predicate ClashOn(t: Tables, rule: nat, d: nat, key: nat, a: TransitionType, b: TransitionType)
    requires rule in t.dfas && d < |t.dfas[rule]|
  {
    var n := |t.dfas[rule][d].transitions|;
    a != b && Offers(t, rule, d, n, a, key) && Offers(t, rule, d, n, b, key)
  }

  ghost predicate Clash(t: Tables, rule: nat, d: nat) {
    rule in t.dfas && d < |t.dfas[rule]| && exists key, a, b :: ClashOn(t, rule, d, key, a, b)
  }

  /** A label can take a keyword that has no type. */
  ghost predicate ReadsUnknown(t: Tables, rule: nat, d: nat) {
    && rule in t.dfas && d < |t.dfas[rule]|
    && var row := t.dfas[rule][d].transitions;
       exists i, k :: 0 <= i < |row| && k !in t.keywords && CanRead(t, row[i].kind, k)
  }

  // ----- candidates gathered so far

  predicate GoesTo(plan: Plan, rule: nat, to: nat) {
    plan.pushes == [] && plan.next == StateId(rule, to)
  }

  /** A candidate of a terminal goes where its label does, one of a keyword where
      the last label does that can take it. */
  ghost predicate GoesRight(t: Tables, rule: nat, d: nat, n: nat, c: Candidate)
    requires rule in t.dfas && d < |t.dfas[rule]| && n <= |t.dfas[rule][d].transitions|
  {
    var row := t.dfas[rule][d].transitions;
    match c.kind
    case Terminal(_) => exists i :: 0 <= i < n && row[i].kind == c.kind && GoesTo(c.plan, rule, row[i].to)
    case KeywordToken(k) =>
      var last := LastReader(t, row, n, k);
      last.Some? && GoesTo(c.plan, rule, row[last.value].to)
    case _ => true
  }

  ghost predicate AllTake(t: Tables, rule: nat, d: nat, c: map<nat, Candidate>)
    requires rule in t.dfas && d < |t.dfas[rule]|
  {
    forall key :: key in c ==> TakesToken(t, rule, d, key, c[key].plan)
  }

  /** A token has a candidate of a type if and only if the first `n` labels offer that. */
  ghost predicate FitOffers(t: Tables, rule: nat, d: nat, n: nat, c: map<nat, Candidate>)
    requires rule in t.dfas && d < |t.dfas[rule]| && n <= |t.dfas[rule][d].transitions|
  {
    && (forall key :: key in c ==> Offers(t, rule, d, n, c[key].kind, key))
    && (forall kind, key :: Offers(t, rule, d, n, kind, key) ==> key in c && c[key].kind == kind)
  }

  ghost predicate AllGoRight(t: Tables, rule: nat, d: nat, n: nat, c: map<nat, Candidate>)
    requires rule in t.dfas && d < |t.dfas[rule]| && n <= |t.dfas[rule][d].transitions|
  {
    forall key :: key in c ==> GoesRight(t, rule, d, n, c[key])
  }

  ghost predicate HaveChains(t: Tables, rule: nat, d: nat, n: nat, c: map<nat, Candidate>)
    requires rule in t.dfas && d < |t.dfas[rule]| && n <= |t.dfas[rule][d].transitions|
  {
    forall i :: 0 <= i < n && t.dfas[rule][d].transitions[i].kind.Nonterminal? ==>
      HasChains(t, rule, d, t.dfas[rule][d].transitions[i].kind, PlansOf(c))
  }

  /** The candidates of the first `n` labels. */
  ghost predicate Gathered(t: Tables, rule: nat, d: nat, n: nat, c: map<nat, Candidate>)
    requires rule in t.dfas && d < |t.dfas[rule]| && n <= |t.dfas[rule][d].transitions|
  {
    && AllTake(t, rule, d, c) && FitOffers(t, rule, d, n, c) && AllGoRight(t, rule, d, n, c)
    && (AllAgree(t) ==> HaveChains(t, rule, d, n, c))
  }

  /** A candidate made for the i-th label. */
  ghost predicate IsNew(t: Tables, rule: nat, d: nat, i: nat, key: nat, c: Candidate)
    requires rule in t.dfas && d < |t.dfas[rule]| && i < |t.dfas[rule][d].transitions|
  {
    && OffersAt(t, rule, d, i, c.kind, key) && TakesToken(t, rule, d, key, c.plan)
    && (c.kind.Nonterminal? || GoesTo(c.plan, rule, t.dfas[rule][d].transitions[i].to))
  }

  /** Candidates of the i-th label have been added: they replace only such of the
      same type. */
  ghost predicate Joining(t: Tables, rule: nat, d: nat, i: nat, c: map<nat, Candidate>, c': map<nat, Candidate>)
    requires rule in t.dfas && d < |t.dfas[rule]| && i < |t.dfas[rule][d].transitions|
  {
    && (forall key :: key in c' ==> (key in c && c'[key] == c[key]) || IsNew(t, rule, d, i, key, c'[key]))
    && (forall key :: key in c ==> key in c' && c'[key].kind == c[key].kind)
  }

  /** All that the i-th label offers has been added. */
  ghost predicate Joined(t: Tables, rule: nat, d: nat, i: nat, c: map<nat, Candidate>, c': map<nat, Candidate>)
    requires rule in t.dfas && d < |t.dfas[rule]| && i < |t.dfas[rule][d].transitions|
  {
    && Joining(t, rule, d, i, c, c')
    && (forall kind, key :: OffersAt(t, rule, d, i, kind, key) ==>
          key in c' && c'[key].kind == kind && IsNew(t, rule, d, i, key, c'[key]))
    && (AllAgree(t) && t.dfas[rule][d].transitions[i].kind.Nonterminal? ==>
          HasChains(t, rule, d, t.dfas[rule][d].transitions[i].kind, PlansOf(c')))
  }

  lemma OffersMore(t: Tables, rule: nat, d: nat, n: nat, m: nat, kind: TransitionType, key: nat)
    requires rule in t.dfas && d < |t.dfas[rule]| && n <= m <= |t.dfas[rule][d].transitions|
    requires Offers(t, rule, d, n, kind, key)
    ensures Offers(t, rule, d, m, kind, key)
  {
    var i :| 0 <= i < n && OffersAt(t, rule, d, i, kind, key);
    assert 0 <= i < m;
  }

  lemma OffersLast(t: Tables, rule: nat, d: nat, i: nat, kind: TransitionType, key: nat)
    requires rule in t.dfas && d < |t.dfas[rule]| && i < |t.dfas[rule][d].transitions|
    ensures Offers(t, rule, d, i + 1, kind, key)
            <==> Offers(t, rule, d, i, kind, key) || OffersAt(t, rule, d, i, kind, key)
  {
  }

  lemma OffersJoined(t: Tables, rule: nat, d: nat, i: nat, n: nat, c: map<nat, Candidate>, c': map<nat, Candidate>)
    requires rule in t.dfas && d < |t.dfas[rule]| && i < n == i + 1 <= |t.dfas[rule][d].transitions|
    requires FitOffers(t, rule, d, i, c) && Joined(t, rule, d, i, c, c')
    ensures FitOffers(t, rule, d, n, c')
  {
    forall kind, key
      ensures Offers(t, rule, d, n, kind, key)
         <==> Offers(t, rule, d, i, kind, key) || OffersAt(t, rule, d, i, kind, key)
    {
      OffersLast(t, rule, d, i, kind, key);
    }
  }

  lemma TakesJoined(t: Tables, rule: nat, d: nat, i: nat, c: map<nat, Candidate>, c': map<nat, Candidate>)
    requires rule in t.dfas && d < |t.dfas[rule]| && i < |t.dfas[rule][d].transitions|
    requires AllTake(t, rule, d, c) && Joining(t, rule, d, i, c, c')
    ensures AllTake(t, rule, d, c')
  {
  }

  /** A candidate of another label stays right. */
  lemma GoesRightStill(t: Tables, rule: nat, d: nat, i: nat, c: Candidate, key: nat)
    requires rule in t.dfas && d < |t.dfas[rule]| && i < |t.dfas[rule][d].transitions|
    requires GoesRight(t, rule, d, i, c) && !OffersAt(t, rule, d, i, c.kind, key)
    requires c.kind.KeywordToken? ==> c.kind.keyword in t.keywords && t.keywords[c.kind.keyword] == key
    ensures GoesRight(t, rule, d, i + 1, c)
  {
  }

  lemma NewGoesRight(t: Tables, rule: nat, d: nat, i: nat, c: Candidate, key: nat)
    requires rule in t.dfas && d < |t.dfas[rule]| && i < |t.dfas[rule][d].transitions|
    requires IsNew(t, rule, d, i, key, c)
    ensures GoesRight(t, rule, d, i + 1, c)
  {
  }

  lemma OfferedKeyword(t: Tables, rule: nat, d: nat, n: nat, kind: TransitionType, key: nat)
    requires rule in t.dfas && d < |t.dfas[rule]| && n <= |t.dfas[rule][d].transitions|
    requires Offers(t, rule, d, n, kind, key) && kind.KeywordToken?
    ensures kind.keyword in t.keywords && t.keywords[kind.keyword] == key
  {
  }

  lemma GoesRightJoined(t: Tables, rule: nat, d: nat, i: nat, c: map<nat, Candidate>, c': map<nat, Candidate>, key: nat)
    requires rule in t.dfas && d < |t.dfas[rule]| && i < |t.dfas[rule][d].transitions|
    requires FitOffers(t, rule, d, i, c) && AllGoRight(t, rule, d, i, c) && Joined(t, rule, d, i, c, c') && key in c'
    ensures GoesRight(t, rule, d, i + 1, c'[key])
  {
    if OffersAt(t, rule, d, i, c'[key].kind, key) {
      NewGoesRight(t, rule, d, i, c'[key], key);
    } else {
      assert key in c && c'[key] == c[key];
      if c[key].kind.KeywordToken? {
        OfferedKeyword(t, rule, d, i, c[key].kind, key);
      }
      GoesRightStill(t, rule, d, i, c[key], key);
    }
  }

  /** No two labels of a row are the same. */
  lemma LabelsDiffer(t: Tables, rule: nat, d: nat, i: nat, j: nat)
    requires TablesOk(t) && rule in t.dfas && d < |t.dfas[rule]| && i < j < |t.dfas[rule][d].transitions|
    ensures t.dfas[rule][d].transitions[i].kind != t.dfas[rule][d].transitions[j].kind
  {
    assert RowOk(t, rule, t.dfas[rule][d].transitions);
  }

  lemma ChainsStill(t: Tables, rule: nat, d: nat, i: nat, j: nat, c: map<nat, Candidate>, c': map<nat, Candidate>)
    requires TablesOk(t) && rule in t.dfas && d < |t.dfas[rule]| && j < i < |t.dfas[rule][d].transitions|
    requires FitOffers(t, rule, d, i, c) && Joined(t, rule, d, i, c, c')
             && t.dfas[rule][d].transitions[j].kind.Nonterminal?
    requires HasChains(t, rule, d, t.dfas[rule][d].transitions[j].kind, PlansOf(c))
    ensures HasChains(t, rule, d, t.dfas[rule][d].transitions[j].kind, PlansOf(c'))
  {
    var label_ := t.dfas[rule][d].transitions[j].kind;
    LabelsDiffer(t, rule, d, j, i);
    forall key, pushes, next, kind | IsChainFor(t, rule, d, key, pushes, next, kind)
           && FirstLabel(pushes, kind) == label_
      ensures PlanIs(PlansOf(c'), key, pushes, next)
    {
      assert TakenThrough(t, rule, d, label_.nonterminal, key);
      assert OffersAt(t, rule, d, j, label_, key);
      assert Offers(t, rule, d, i, label_, key);
      assert c[key].kind == label_;
      assert PlanIs(PlansOf(c), key, pushes, next);
    }
  }

  lemma ChainsJoined(t: Tables, rule: nat, d: nat, i: nat, c: map<nat, Candidate>, c': map<nat, Candidate>)
    requires TablesOk(t) && AllAgree(t) && rule in t.dfas && d < |t.dfas[rule]| && i < |t.dfas[rule][d].transitions|
    requires FitOffers(t, rule, d, i, c) && HaveChains(t, rule, d, i, c) && Joined(t, rule, d, i, c, c')
    ensures HaveChains(t, rule, d, i + 1, c')
  {
    forall j | 0 <= j < i + 1 && t.dfas[rule][d].transitions[j].kind.Nonterminal?
      ensures HasChains(t, rule, d, t.dfas[rule][d].transitions[j].kind, PlansOf(c'))
    {
      if j < i {
        ChainsStill(t, rule, d, i, j, c, c');
      }
    }
  }

  lemma GatheredMore(t: Tables, rule: nat, d: nat, i: nat, c: map<nat, Candidate>, c': map<nat, Candidate>)
    requires TablesOk(t) && rule in t.dfas && d < |t.dfas[rule]| && i < |t.dfas[rule][d].transitions|
    requires Gathered(t, rule, d, i, c) && Joined(t, rule, d, i, c, c')
    ensures Gathered(t, rule, d, i + 1, c')
  {
    TakesJoined(t, rule, d, i, c, c');
    OffersJoined(t, rule, d, i, i + 1, c, c');
    forall key | key in c'
      ensures GoesRight(t, rule, d, i + 1, c'[key])
    {
      GoesRightJoined(t, rule, d, i, c, c', key);
    }
    if AllAgree(t) {
      ChainsJoined(t, rule, d, i, c, c');
    }
  }

  /** A candidate that cannot be added is one of a clash. */
  lemma ClashFound(t: Tables, rule: nat, d: nat, i: nat, c: map<nat, Candidate>, c': map<nat, Candidate>,
                   kind: TransitionType, key: nat)
    requires rule in t.dfas && d < |t.dfas[rule]| && i < |t.dfas[rule][d].transitions|
    requires Gathered(t, rule, d, i, c) && Joining(t, rule, d, i, c, c')
    requires OffersAt(t, rule, d, i, kind, key) && key in c' && c'[key].kind != kind
    ensures Clash(t, rule, d)
  {
    var n := |t.dfas[rule][d].transitions|;
    OffersLast(t, rule, d, i, kind, key);
    OffersLast(t, rule, d, i, c'[key].kind, key);
    OffersMore(t, rule, d, i + 1, n, kind, key);
    OffersMore(t, rule, d, i + 1, n, c'[key].kind, key);
    assert ClashOn(t, rule, d, key, kind, c'[key].kind);
  }

  // ----- a transition on a token

  function LeafPlan(to: StateId, type_: nat): Plan {
    Plan([], to, type_, LL)
  }

  lemma LeafTakes(t: Tables, rule: nat, d: nat, i: nat, key: nat, type_: nat)
    requires TablesOk(t) && rule in t.dfas && d < |t.dfas[rule]| && i < |t.dfas[rule][d].transitions|
    requires var kind := t.dfas[rule][d].transitions[i].kind; t.Matches(kind, key) && t.HasType(kind, type_)
    ensures TakesToken(t, rule, d, key, LeafPlan(StateId(rule, t.dfas[rule][d].transitions[i].to), type_))
  {
    var tr := t.dfas[rule][d].transitions[i];
    assert RowOk(t, rule, t.dfas[rule][d].transitions);
    NextOfRow(t.dfas[rule][d].transitions, i);
    var plan := LeafPlan(StateId(rule, tr.to), type_);
    assert PlanReads(t, StateId(rule, d), key, plan, tr.kind);
  }

  /** A candidate for a label's own token or a soft keyword of it. */
  lemma LeafIsNew(t: Tables, rule: nat, d: nat, i: nat, kind: TransitionType, key: nat, type_: nat)
    requires TablesOk(t) && rule in t.dfas && d < |t.dfas[rule]| && i < |t.dfas[rule][d].transitions|
    requires OffersAt(t, rule, d, i, kind, key) && !kind.Nonterminal?
    requires t.HasType(t.dfas[rule][d].transitions[i].kind, type_)
    ensures IsNew(t, rule, d, i, key,
                  Candidate(kind, LeafPlan(StateId(rule, t.dfas[rule][d].transitions[i].to), type_)))
  {
    LeafTakes(t, rule, d, i, key, type_);
  }

  /** Adding a candidate of the label, if that goes. */
  lemma AddedJoins(t: Tables, rule: nat, d: nat, i: nat, c: map<nat, Candidate>, c': map<nat, Candidate>,
                   kind: TransitionType, key: nat, plan: Plan)
    requires rule in t.dfas && d < |t.dfas[rule]| && i < |t.dfas[rule][d].transitions|
    requires Joining(t, rule, d, i, c, c') && IsNew(t, rule, d, i, key, Candidate(kind, plan))
    ensures var added := Add(c', kind, key, plan); added.Some? ==> Joining(t, rule, d, i, c, added.value)
  {
  }

  /** The soft keywords in `done` have their candidates. */
  ghost predicate SoftsDone(t: Tables, rule: nat, d: nat, i: nat, c: map<nat, Candidate>, done: set<string>)
    requires rule in t.dfas && d < |t.dfas[rule]| && i < |t.dfas[rule][d].transitions|
  {
    var own := t.dfas[rule][d].transitions[i].kind;
    && own.Terminal? && own.terminal in c && c[own.terminal].kind == own
       && IsNew(t, rule, d, i, own.terminal, c[own.terminal])
    && forall k :: k in done ==> k in t.keywords && SoftDone(t, rule, d, i, c, k, t.keywords[k])
  }

  ghost predicate SoftDone(t: Tables, rule: nat, d: nat, i: nat, c: map<nat, Candidate>, k: string, key: nat)
    requires rule in t.dfas && d < |t.dfas[rule]| && i < |t.dfas[rule][d].transitions|
  {
    key in c && c[key].kind == KeywordToken(k) && IsNew(t, rule, d, i, key, c[key])
  }

  lemma SoftsMore(t: Tables, rule: nat, d: nat, i: nat, c: map<nat, Candidate>, done: set<string>, k: string,
                  plan: Plan)
    requires rule in t.dfas && d < |t.dfas[rule]| && i < |t.dfas[rule][d].transitions|
    requires SoftsDone(t, rule, d, i, c, done) && k in t.keywords
    requires IsNew(t, rule, d, i, t.keywords[k], Candidate(KeywordToken(k), plan))
    ensures var added := Add(c, KeywordToken(k), t.keywords[k], plan);
            added.Some? ==> SoftsDone(t, rule, d, i, added.value, done + {k})
  {
    var added := Add(c, KeywordToken(k), t.keywords[k], plan);
    if added.Some? {
      forall x | x in done + {k}
        ensures x in t.keywords && SoftDone(t, rule, d, i, added.value, x, t.keywords[x])
      {
        if x != k {
          assert SoftDone(t, rule, d, i, c, x, t.keywords[x]);
        }
      }
    }
  }

  lemma TerminalJoined(t: Tables, rule: nat, d: nat, i: nat, c: map<nat, Candidate>, c': map<nat, Candidate>,
                       done: set<string>)
    requires rule in t.dfas && d < |t.dfas[rule]| && i < |t.dfas[rule][d].transitions|
    requires Joining(t, rule, d, i, c, c') && SoftsDone(t, rule, d, i, c', done)
    requires forall k :: IsSoft(t, t.dfas[rule][d].transitions[i].kind, k) ==> k in done
    ensures Joined(t, rule, d, i, c, c')
  {
    forall kind, key | OffersAt(t, rule, d, i, kind, key)
      ensures key in c' && c'[key].kind == kind && IsNew(t, rule, d, i, key, c'[key])
    {
      if kind.KeywordToken? {
        assert SoftDone(t, rule, d, i, c', kind.keyword, key);
      }
    }
  }

  // ----- a transition on a nonterminal

  /** Puts a push in front of a plan. */
  function Nest(plan: Plan, node: nat, to: StateId): Plan {
    Plan([Push(node, plan.next, LLPush)] + plan.pushes, to, plan.type_, LL)
  }

  lemma NestedTakes(t: Tables, rule: nat, d: nat, i: nat, key: nat, plan: Plan)
    requires TablesOk(t) && rule in t.dfas && d < |t.dfas[rule]| && i < |t.dfas[rule][d].transitions|
    requires t.dfas[rule][d].transitions[i].kind.Nonterminal?
    requires var node := t.dfas[rule][d].transitions[i].kind.nonterminal;
             node in t.dfas && 0 < |t.dfas[node]| && (d == 0 ==> node != rule) && TakesToken(t, node, 0, key, plan)
    ensures var tr := t.dfas[rule][d].transitions[i];
            IsNew(t, rule, d, i, key, Candidate(tr.kind, Nest(plan, tr.kind.nonterminal, StateId(rule, tr.to))))
  {
    var tr := t.dfas[rule][d].transitions[i];
    var node := tr.kind.nonterminal;
    assert RowOk(t, rule, t.dfas[rule][d].transitions);
    NextOfRow(t.dfas[rule][d].transitions, i);
    var kind :| PlanReads(t, StateId(node, 0), key, plan, kind);
    var nested := Nest(plan, node, StateId(rule, tr.to));
    assert nested.pushes[1..] == plan.pushes;
    assert PlanReads(t, StateId(rule, d), key, nested, kind);
    assert IsChainFor(t, rule, d, key, nested.pushes, nested.next, kind);
  }

  /** A chain that begins with a rule goes on with a chain from the rule's start. */
  lemma ChainWithin(t: Tables, rule: nat, d: nat, key: nat, pushes: seq<Push>, next: StateId, kind: TransitionType,
                    node: nat)
    requires IsChainFor(t, rule, d, key, pushes, next, kind) && FirstLabel(pushes, kind) == Nonterminal(node)
    ensures pushes != [] && pushes[0].nodeType == node && IsChainFor(t, node, 0, key, pushes[1..], pushes[0].next, kind)
  {
    assert kind.Terminal? || kind.KeywordToken?;
  }

  lemma NestedChains(t: Tables, rule: nat, d: nat, i: nat, nested: map<nat, Plan>, plans: map<nat, Plan>)
    requires TablesOk(t) && AllAgree(t) && rule in t.dfas && d < |t.dfas[rule]| && i < |t.dfas[rule][d].transitions|
    requires t.dfas[rule][d].transitions[i].kind.Nonterminal?
    requires var tr := t.dfas[rule][d].transitions[i];
             var node := tr.kind.nonterminal;
             && node in t.dfas && 0 < |t.dfas[node]| && ExactPlans(t, node, 0, nested)
             && forall key :: key in nested ==>
               PlanIs(plans, key, [Push(node, nested[key].next, LLPush)] + nested[key].pushes,
                                                       StateId(rule, tr.to))
    ensures HasChains(t, rule, d, t.dfas[rule][d].transitions[i].kind, plans)
  {
    var tr := t.dfas[rule][d].transitions[i];
    var node := tr.kind.nonterminal;
    assert RowOk(t, rule, t.dfas[rule][d].transitions);
    NextOfRow(t.dfas[rule][d].transitions, i);
    forall key, pushes: seq<Push>, next, kind | IsChainFor(t, rule, d, key, pushes, next, kind)
           && FirstLabel(pushes, kind) == tr.kind
      ensures PlanIs(plans, key, pushes, next)
    {
      ChainWithin(t, rule, d, key, pushes, next, kind, node);
      assert HasChains(t, node, 0, FirstLabel(pushes[1..], kind), nested);
      assert PlanIs(nested, key, pushes[1..], pushes[0].next);
      assert pushes == [Push(node, nested[key].next, LLPush)] + nested[key].pushes;
    }
  }

  /** The plans in `done` have been nested. */
  ghost predicate NestsDone(t: Tables, rule: nat, d: nat, i: nat, nested: map<nat, Plan>, c: map<nat, Candidate>,
                            done: set<nat>)
    requires rule in t.dfas && d < |t.dfas[rule]| && i < |t.dfas[rule][d].transitions|
  {
    var tr := t.dfas[rule][d].transitions[i];
    && tr.kind.Nonterminal? && done <= nested.Keys
    && forall key: nat :: key in done ==>
         key in c && c[key] == Candidate(tr.kind, Nest(nested[key], tr.kind.nonterminal, StateId(rule, tr.to)))
         && IsNew(t, rule, d, i, key, c[key])
  }

  lemma NestsMore(t: Tables, rule: nat, d: nat, i: nat, nested: map<nat, Plan>, c: map<nat, Candidate>, done: set<nat>,
                  key: nat)
    requires rule in t.dfas && d < |t.dfas[rule]| && i < |t.dfas[rule][d].transitions|
    requires NestsDone(t, rule, d, i, nested, c, done) && key in nested
    requires var tr := t.dfas[rule][d].transitions[i];
             IsNew(t, rule, d, i, key, Candidate(tr.kind, Nest(nested[key], tr.kind.nonterminal, StateId(rule, tr.to))))
    ensures var tr := t.dfas[rule][d].transitions[i];
            var added := Add(c, tr.kind, key, Nest(nested[key], tr.kind.nonterminal, StateId(rule, tr.to)));
            added.Some? ==> NestsDone(t, rule, d, i, nested, added.value, done + {key})
  {
  }

  lemma NestJoined(t: Tables, rule: nat, d: nat, i: nat, nested: map<nat, Plan>, c: map<nat, Candidate>,
                   c': map<nat, Candidate>)
    requires TablesOk(t) && rule in t.dfas && d < |t.dfas[rule]| && i < |t.dfas[rule][d].transitions|
    requires Joining(t, rule, d, i, c, c') && NestsDone(t, rule, d, i, nested, c', nested.Keys)
    requires var node := t.dfas[rule][d].transitions[i].kind.nonterminal;
             node in t.dfas && 0 < |t.dfas[node]| && ExactPlans(t, node, 0, nested)
    ensures Joined(t, rule, d, i, c, c')
  {
    var tr := t.dfas[rule][d].transitions[i];
    var node := tr.kind.nonterminal;
    forall kind, key | OffersAt(t, rule, d, i, kind, key)
      ensures key in c' && c'[key].kind == kind && IsNew(t, rule, d, i, key, c'[key])
    {
      var pushes, next, tokenKind :| IsChainFor(t, rule, d, key, pushes, next, tokenKind)
                                     && FirstLabel(pushes, tokenKind) == Nonterminal(node);
      ChainWithin(t, rule, d, key, pushes, next, tokenKind, node);
      assert key in nested.Keys;
    }
    if AllAgree(t) {
      NestedChains(t, rule, d, i, nested, PlansOf(c'));
    }
  }

  /** A rule that begins with itself has no direct chains that do. */
  lemma SelfJoined(t: Tables, rule: nat, i: nat, c: map<nat, Candidate>)
    requires rule in t.dfas && 0 < |t.dfas[rule]| && i < |t.dfas[rule][0].transitions|
    requires t.dfas[rule][0].transitions[i].kind == Nonterminal(rule)
    ensures Joined(t, rule, 0, i, c, c)
  {
    forall key, pushes, next, kind | IsChainFor(t, rule, 0, key, pushes, next, kind)
      ensures FirstLabel(pushes, kind) != Nonterminal(rule)
    {
    }
  }

  // ----- all labels

  lemma NothingGathered(t: Tables, rule: nat, d: nat)
    requires rule in t.dfas && d < |t.dfas[rule]|
    ensures Gathered(t, rule, d, 0, map[])
  {
  }

  /** A chain is offered by its first label. */
  lemma ChainIsOffered(t: Tables, rule: nat, d: nat, key: nat, pushes: seq<Push>, next: StateId, kind: TransitionType)
    returns (i: nat, offered: TransitionType)
    requires TablesOk(t) && rule in t.dfas && d < |t.dfas[rule]| && IsChainFor(t, rule, d, key, pushes, next, kind)
    ensures i < |t.dfas[rule][d].transitions| && t.dfas[rule][d].transitions[i].kind == FirstLabel(pushes, kind)
    ensures OffersAt(t, rule, d, i, offered, key) && t.dfas[rule][d].transitions[i].to == next.index
    ensures pushes == [] ==> !offered.Nonterminal?
    ensures pushes != [] ==> offered == FirstLabel(pushes, kind)
  {
    var row := t.dfas[rule][d].transitions;
    NextInFinds(row, FirstLabel(pushes, kind));
    i :| 0 <= i < |row| && row[i].kind == FirstLabel(pushes, kind) && row[i].to == next.index;
    if pushes != [] {
      offered := FirstLabel(pushes, kind);
      assert TakenThrough(t, rule, d, pushes[0].nodeType, key);
    } else if t.HasType(kind, key) {
      offered := kind;
    } else {
      var k :| k in t.softKeywords[kind.terminal] && k in t.keywords && t.keywords[k] == key;
      offered := KeywordToken(k);
    }
  }

  lemma GatheredKeys(t: Tables, rule: nat, d: nat, c: map<nat, Candidate>)
    requires TablesOk(t) && rule in t.dfas && d < |t.dfas[rule]|
             && Gathered(t, rule, d, |t.dfas[rule][d].transitions|, c)
    ensures HasKeys(t, rule, d, PlansOf(c).Keys)
  {
    forall key, pushes, next, kind | IsChainFor(t, rule, d, key, pushes, next, kind)
      ensures key in c
    {
      var i, offered := ChainIsOffered(t, rule, d, key, pushes, next, kind);
      assert Offers(t, rule, d, |t.dfas[rule][d].transitions|, offered, key);
    }
  }

  lemma GatheredReads(t: Tables, rule: nat, d: nat, c: map<nat, Candidate>, k: string)
    requires rule in t.dfas && d < |t.dfas[rule]| && Gathered(t, rule, d, |t.dfas[rule][d].transitions|, c)
    ensures LastReads(t, rule, d, PlansOf(c), k)
  {
    var row := t.dfas[rule][d].transitions;
    var last := LastReader(t, row, |row|, k);
    if k in t.keywords && last.Some? {
      assert OffersAt(t, rule, d, last.value, KeywordToken(k), t.keywords[k]);
      assert Offers(t, rule, d, |row|, KeywordToken(k), t.keywords[k]);
      assert GoesRight(t, rule, d, |row|, c[t.keywords[k]]);
    }
  }

  /** If the labels agree on keywords, a candidate goes where any label does that
      offers it. */
  lemma AllOfferAlike(t: Tables, rule: nat, d: nat, i: nat, key: nat, c: Candidate)
    requires TablesOk(t) && AllAgree(t) && rule in t.dfas && d < |t.dfas[rule]| && i < |t.dfas[rule][d].transitions|
    requires OffersAt(t, rule, d, i, c.kind, key) && !c.kind.Nonterminal?
    requires GoesRight(t, rule, d, |t.dfas[rule][d].transitions|, c)
    ensures GoesTo(c.plan, rule, t.dfas[rule][d].transitions[i].to)
  {
    var row := t.dfas[rule][d].transitions;
    assert RowOk(t, rule, row) && KeywordsAgree(t, row);
  }

  /** A chain that is a token goes where its candidate does. */
  lemma LeafChainIs(t: Tables, rule: nat, d: nat, c: map<nat, Candidate>, key: nat, next: StateId, kind: TransitionType)
    requires TablesOk(t) && AllAgree(t) && rule in t.dfas && d < |t.dfas[rule]|
    requires Gathered(t, rule, d, |t.dfas[rule][d].transitions|, c) && IsChainFor(t, rule, d, key, [], next, kind)
    ensures PlanIs(PlansOf(c), key, [], next)
  {
    var i, offered := ChainIsOffered(t, rule, d, key, [], next, kind);
    assert Offers(t, rule, d, |t.dfas[rule][d].transitions|, offered, key);
    AllOfferAlike(t, rule, d, i, key, c[key]);
  }

  lemma AllGathered(t: Tables, rule: nat, d: nat, c: map<nat, Candidate>)
    requires TablesOk(t) && rule in t.dfas && d < |t.dfas[rule]|
             && Gathered(t, rule, d, |t.dfas[rule][d].transitions|, c)
    ensures ExactPlans(t, rule, d, PlansOf(c)) && !Clash(t, rule, d)
  {
    GatheredKeys(t, rule, d, c);
    forall k
      ensures LastReads(t, rule, d, PlansOf(c), k)
    {
      GatheredReads(t, rule, d, c, k);
    }
    if AllAgree(t) {
      forall label_
        ensures HasChains(t, rule, d, label_, PlansOf(c))
      {
        GatheredChains(t, rule, d, c, label_);
      }
    }
  }

  lemma GatheredChains(t: Tables, rule: nat, d: nat, c: map<nat, Candidate>, label_: TransitionType)
    requires TablesOk(t) && AllAgree(t) && rule in t.dfas && d < |t.dfas[rule]|
    requires Gathered(t, rule, d, |t.dfas[rule][d].transitions|, c)
    ensures HasChains(t, rule, d, label_, PlansOf(c))
  {
    forall key, pushes, next, kind | IsChainFor(t, rule, d, key, pushes, next, kind)
           && FirstLabel(pushes, kind) == label_
      ensures PlanIs(PlansOf(c), key, pushes, next)
    {
      if pushes == [] {
        LeafChainIs(t, rule, d, c, key, next, kind);
      } else {
        var i, offered := ChainIsOffered(t, rule, d, key, pushes, next, kind);
        assert HasChains(t, rule, d, t.dfas[rule][d].transitions[i].kind, PlansOf(c));
      }
    }
  }

  // ----- left recursion

  /** In a state where the rule may end: the plans of the state where it goes on
      after having been its own first child, for the token as it is. */
  function Continued(plans: map<nat, Plan>): (r: map<nat, Plan>)
    ensures r.Keys == plans.Keys
  {
    map key | key in plans :: Plan(plans[key].pushes, plans[key].next, key, LeftRecursive)
  }

  // ----- why plans cannot be made

  /** The rule `b` is a first child of the rule `a`. */
  ghost predicate FirstChild(t: Tables, a: nat, b: nat) {
    a in t.dfas && |t.dfas[a]| > 0 && Powerset.Next(t.dfas[a], 0, Nonterminal(b)).Some?
  }

  /** Rules each of which is another first child of the one before. */
  ghost predicate FirstPath(t: Tables, path: seq<nat>) {
    forall i, j :: 0 <= i && j == i + 1 && j < |path| ==> path[i] != path[j] && FirstChild(t, path[i], path[j])
  }

  ghost predicate FirstCycle(t: Tables, cycle: seq<nat>) {
    && |cycle| > 1 && FirstPath(t, cycle)
    && cycle[|cycle| - 1] != cycle[0] && FirstChild(t, cycle[|cycle| - 1], cycle[0])
  }

  /** The rule begins with itself only. */
  ghost predicate OnlyItself(t: Tables, rule: nat) {
    FirstChild(t, rule, rule) && HasKeys(t, rule, 0, {})
  }

  ghost predicate CanBeEmpty(t: Tables, rule: nat) {
    rule in t.dfas && |t.dfas[rule]| > 0 && t.dfas[rule][0].isFinal
  }

  ghost predicate Reason(t: Tables, why: Refusal) {
    match why
    case IndirectLeftRecursion => exists cycle :: FirstCycle(t, cycle)
    case NoAlternative => exists rule :: OnlyItself(t, rule)
    case EmptyProduction => exists rule :: CanBeEmpty(t, rule)
    case UnknownKeyword => exists rule, d :: ReadsUnknown(t, rule, d)
    case Conflict => exists rule, d :: Clash(t, rule, d)
  }

  /** All keywords that the i-th label can take have a type. */
  ghost predicate LabelKnown(t: Tables, rule: nat, d: nat, i: nat)
    requires rule in t.dfas && d < |t.dfas[rule]| && i < |t.dfas[rule][d].transitions|
  {
    forall k :: CanRead(t, t.dfas[rule][d].transitions[i].kind, k) ==> k in t.keywords
  }

  /** Why the plans of a state's row cannot be made. */
  ghost predicate RowRefused(t: Tables, rule: nat, d: nat, why: Refusal) {
    (why == Conflict && Clash(t, rule, d)) || (why == UnknownKeyword && ReadsUnknown(t, rule, d))
  }

  lemma RowRefusedFor(t: Tables, rule: nat, d: nat, why: Refusal)
    requires RowRefused(t, rule, d, why)
    ensures Reason(t, why)
  {
  }

  /** Nothing stands against the plans of the state. */
  ghost predicate RowMakes(t: Tables, rule: nat, d: nat) {
    !Clash(t, rule, d) && !ReadsUnknown(t, rule, d)
  }

  /** All keywords that the first `n` labels can take have a type. */
  ghost predicate LabelsKnown(t: Tables, rule: nat, d: nat, n: nat)
    requires rule in t.dfas && d < |t.dfas[rule]| && n <= |t.dfas[rule][d].transitions|
  {
    forall i :: 0 <= i < n ==> LabelKnown(t, rule, d, i)
  }

  lemma OneKnownMore(t: Tables, rule: nat, d: nat, n: nat)
    requires rule in t.dfas && d < |t.dfas[rule]| && n < |t.dfas[rule][d].transitions|
    requires LabelsKnown(t, rule, d, n)
    requires t.dfas[rule][d].transitions[n].kind.Nonterminal? || LabelKnown(t, rule, d, n)
    ensures LabelsKnown(t, rule, d, n + 1)
  {
  }

  lemma AllKnown(t: Tables, rule: nat, d: nat)
    requires rule in t.dfas && d < |t.dfas[rule]| && LabelsKnown(t, rule, d, |t.dfas[rule][d].transitions|)
    ensures !ReadsUnknown(t, rule, d)
  {
    forall i, k | 0 <= i < |t.dfas[rule][d].transitions| && CanRead(t, t.dfas[rule][d].transitions[i].kind, k)
      ensures k in t.keywords
    {
      assert LabelKnown(t, rule, d, i);
    }
  }

  // ----- first children

  lemma PathMore(t: Tables, path: seq<nat>, b: nat)
    requires FirstPath(t, path) && path != [] && path[|path| - 1] != b && FirstChild(t, path[|path| - 1], b)
    ensures FirstPath(t, path + [b])
  {
  }

  /** A rule of the path that is a first child of the last one closes a cycle. */
  lemma CycleFound(t: Tables, path: seq<nat>, b: nat)
    requires FirstPath(t, path) && b in path && path[|path| - 1] != b && FirstChild(t, path[|path| - 1], b)
    ensures Reason(t, IndirectLeftRecursion)
  {
    var k :| 0 <= k < |path| && path[k] == b;
    var cycle := path[k..];
    assert FirstCycle(t, cycle);
  }

  /** All first children of the rule, but for itself, are among these. */
  ghost predicate FirstsIn(t: Tables, rule: nat, earlier: seq<nat>) {
    forall b :: FirstChild(t, rule, b) && b != rule ==> b in earlier
  }

  /** Rules in an order in which first children come first. */
  ghost predicate Ordered(t: Tables, finished: seq<nat>) {
    forall i :: 0 <= i < |finished| ==> FirstsIn(t, finished[i], finished[..i])
  }

  lemma OrderedMore(t: Tables, finished: seq<nat>, rule: nat)
    requires Ordered(t, finished) && FirstsIn(t, rule, finished)
    ensures Ordered(t, finished + [rule])
  {
    var more := finished + [rule];
    forall i | 0 <= i < |more|
      ensures FirstsIn(t, more[i], more[..i])
    {
      assert more[..i] == finished[..i];
      if i < |finished| {
        assert FirstsIn(t, finished[i], finished[..i]);
      } else {
        assert finished[..i] == finished;
      }
    }
  }

  /** Ordered rules are on no cycle. */
  lemma {:induction false} OrderedHasNoCycle(t: Tables, finished: seq<nat>, cycle: seq<nat>, i: nat, p: nat)
    requires Ordered(t, finished) && FirstCycle(t, cycle)
    requires i < |cycle| && p < |finished| && finished[p] == cycle[i]
    ensures false
    decreases p
  {
    var j := if i + 1 < |cycle| then i + 1 else 0;
    assert FirstChild(t, cycle[i], cycle[j]) && cycle[j] != cycle[i];
    assert FirstsIn(t, finished[p], finished[..p]);
    var q :| 0 <= q < p && finished[..p][q] == cycle[j];
    OrderedHasNoCycle(t, finished, cycle, j, q);
  }

  ghost predicate HasLabel(row: seq<DfaTransition>, n: nat, kind: TransitionType)
    requires n <= |row|
  {
    exists i :: 0 <= i < n && row[i].kind == kind
  }

  /** The rules on the first `n` labels, but for the rule itself, are among these. */
  ghost predicate LabelsIn(row: seq<DfaTransition>, n: nat, rule: nat, earlier: seq<nat>)
    requires n <= |row|
  {
    forall i :: 0 <= i < n && row[i].kind.Nonterminal? && row[i].kind.nonterminal != rule ==>
      row[i].kind.nonterminal in earlier
  }

  /** What is known of the first children after `n` labels. */
  ghost predicate FirstsDone(row: seq<DfaTransition>, n: nat, rule: nat, leftRecursive: bool, finished: seq<nat>)
    requires n <= |row|
  {
    (leftRecursive <==> HasLabel(row, n, Nonterminal(rule))) && LabelsIn(row, n, rule, finished)
  }

  lemma OneFirstDone(row: seq<DfaTransition>, n: nat, rule: nat, leftRecursive: bool, finished: seq<nat>,
                     finished': seq<nat>)
    requires n < |row| && FirstsDone(row, n, rule, leftRecursive, finished)
    requires forall b :: b in finished ==> b in finished'
    requires row[n].kind.Nonterminal? && row[n].kind.nonterminal != rule ==> row[n].kind.nonterminal in finished'
    ensures FirstsDone(row, n + 1, rule, leftRecursive || row[n].kind == Nonterminal(rule), finished')
  {
    if HasLabel(row, n, Nonterminal(rule)) {
      var i :| 0 <= i < n && row[i].kind == Nonterminal(rule);
      assert 0 <= i < n + 1;
    }
  }

  lemma FirstChildIsLabel(t: Tables, rule: nat, b: nat)
    requires rule in t.dfas && |t.dfas[rule]| > 0
    ensures var row := t.dfas[rule][0].transitions; FirstChild(t, rule, b) <==> HasLabel(row, |row|, Nonterminal(b))
  {
    NextInFinds(t.dfas[rule][0].transitions, Nonterminal(b));
  }

  lemma LabelIsFirstChild(t: Tables, rule: nat, i: nat)
    requires rule in t.dfas && |t.dfas[rule]| > 0 && i < |t.dfas[rule][0].transitions|
    requires t.dfas[rule][0].transitions[i].kind.Nonterminal?
    ensures FirstChild(t, rule, t.dfas[rule][0].transitions[i].kind.nonterminal)
  {
    FirstChildIsLabel(t, rule, t.dfas[rule][0].transitions[i].kind.nonterminal);
  }

  lemma LabelsAreFirsts(t: Tables, rule: nat, earlier: seq<nat>)
    requires rule in t.dfas && |t.dfas[rule]| > 0
    requires LabelsIn(t.dfas[rule][0].transitions, |t.dfas[rule][0].transitions|, rule, earlier)
    ensures FirstsIn(t, rule, earlier)
  {
    forall b | FirstChild(t, rule, b) && b != rule
      ensures b in earlier
    {
      FirstChildIsLabel(t, rule, b);
    }
  }

  /** What is known after `n` labels of a state. */
  ghost predicate Progress(t: Tables, rule: nat, d: nat, n: nat, c: map<nat, Candidate>, leftRecursive: bool,
                           finished: seq<nat>)
    requires rule in t.dfas && d < |t.dfas[rule]| && n <= |t.dfas[rule][d].transitions|
  {
    && Gathered(t, rule, d, n, c) && LabelsKnown(t, rule, d, n)
    && (d == 0 ==> FirstsDone(t.dfas[rule][0].transitions, n, rule, leftRecursive, finished))
  }

  lemma NoProgress(t: Tables, rule: nat, d: nat, finished: seq<nat>)
    requires rule in t.dfas && d < |t.dfas[rule]|
    ensures Progress(t, rule, d, 0, map[], false, finished)
  {
    NothingGathered(t, rule, d);
  }

  /** The rule begins with itself by this label. */
  lemma SelfProgress(t: Tables, rule: nat, i: nat, c: map<nat, Candidate>, leftRecursive: bool, finished: seq<nat>)
    requires TablesOk(t) && rule in t.dfas && 0 < |t.dfas[rule]| && i < |t.dfas[rule][0].transitions|
    requires t.dfas[rule][0].transitions[i].kind == Nonterminal(rule)
    requires Progress(t, rule, 0, i, c, leftRecursive, finished)
    ensures Progress(t, rule, 0, i + 1, c, true, finished)
  {
    SelfJoined(t, rule, i, c);
    GatheredMore(t, rule, 0, i, c, c);
    OneKnownMore(t, rule, 0, i);
    OneFirstDone(t.dfas[rule][0].transitions, i, rule, leftRecursive, finished, finished);
  }

  lemma LabelProgress(t: Tables, rule: nat, d: nat, i: nat, c: map<nat, Candidate>, c': map<nat, Candidate>,
                      leftRecursive: bool,
                      finished: seq<nat>, finished': seq<nat>)
    requires rule in t.dfas && d < |t.dfas[rule]| && i < |t.dfas[rule][d].transitions|
    requires Progress(t, rule, d, i, c, leftRecursive, finished) && Gathered(t, rule, d, i + 1, c')
             && LabelKnown(t, rule, d, i)
    requires forall b :: b in finished ==> b in finished'
    requires var kind := t.dfas[rule][d].transitions[i].kind;
             d == 0 && kind.Nonterminal? ==> kind.nonterminal in finished' && kind.nonterminal != rule
    ensures Progress(t, rule, d, i + 1, c', leftRecursive, finished')
  {
    OneKnownMore(t, rule, d, i);
    if d == 0 {
      OneFirstDone(t.dfas[rule][0].transitions, i, rule, leftRecursive, finished, finished');
    }
  }

  lemma ProgressDone(t: Tables, rule: nat, d: nat, c: map<nat, Candidate>, leftRecursive: bool, finished: seq<nat>)
    requires TablesOk(t) && rule in t.dfas && d < |t.dfas[rule]|
    requires Progress(t, rule, d, |t.dfas[rule][d].transitions|, c, leftRecursive, finished)
    ensures ExactPlans(t, rule, d, PlansOf(c)) && RowMakes(t, rule, d)
    ensures d == 0 ==> (leftRecursive <==> FirstChild(t, rule, rule)) && FirstsIn(t, rule, finished)
  {
    AllGathered(t, rule, d, c);
    AllKnown(t, rule, d);
    if d == 0 {
      FirstChildIsLabel(t, rule, rule);
      LabelsAreFirsts(t, rule, finished);
    }
  }

  // ----- the generator

  /** What is known of the first plans of a rule. */
  ghost predicate FirstOk(t: Tables, rule: nat, first: FirstPlan) {
    && rule in t.dfas && |t.dfas[rule]| > 0
    && (first.Calculated? ==>
          && ExactPlans(t, rule, 0, first.plans) && RowMakes(t, rule, 0)
          && (first.leftRecursive <==> FirstChild(t, rule, rule)) && !OnlyItself(t, rule))
  }

  ghost predicate FirstsOk(t: Tables, firsts: map<nat, FirstPlan>) {
    forall rule :: rule in firsts ==> FirstOk(t, rule, firsts[rule])
  }

  /** A rule has plans besides those of itself, or no chain at all. */
  lemma PlansBesides(t: Tables, rule: nat, plans: map<nat, Plan>)
    requires rule in t.dfas && |t.dfas[rule]| > 0 && ExactPlans(t, rule, 0, plans)
    ensures plans == map[] <==> HasKeys(t, rule, 0, {})
  {
    if plans != map[] {
      var key :| key in plans;
      assert TakesToken(t, rule, 0, key, plans[key]);
      var kind :| PlanReads(t, StateId(rule, 0), key, plans[key], kind);
      assert IsChainFor(t, rule, 0, key, plans[key].pushes, plans[key].next, kind);
    } else {
      assert plans.Keys == {};
    }
  }

  /** The rules that are finished. */
  ghost predicate AreCalculated(firsts: map<nat, FirstPlan>, finished: seq<nat>) {
    forall rule :: rule in finished <==> rule in firsts && firsts[rule].Calculated?
  }

  /** The rules whose plans are being made, each a first child of the one before. */
  ghost predicate AreCalculating(t: Tables, firsts: map<nat, FirstPlan>, stack: seq<nat>) {
    FirstPath(t, stack) && forall rule :: rule in stack <==> rule in firsts && firsts[rule].Calculating?
  }

  /** Only plans of further rules were made, and they are finished. */
  ghost predicate Grown(firsts: map<nat, FirstPlan>, firsts': map<nat, FirstPlan>) {
    && (forall rule :: rule in firsts ==> rule in firsts' && firsts'[rule] == firsts[rule])
    && (forall rule :: rule in firsts' && rule !in firsts ==> firsts'[rule].Calculated?)
  }

  lemma StillCalculating(t: Tables, firsts: map<nat, FirstPlan>, firsts': map<nat, FirstPlan>, stack: seq<nat>)
    requires AreCalculating(t, firsts, stack) && Grown(firsts, firsts')
    ensures AreCalculating(t, firsts', stack)
  {
  }

  lemma StillFinished(firsts: map<nat, FirstPlan>, firsts': map<nat, FirstPlan>, finished: seq<nat>,
                      finished': seq<nat>)
    requires AreCalculated(firsts, finished) && AreCalculated(firsts', finished') && Grown(firsts, firsts')
    ensures forall b :: b in finished ==> b in finished'
  {
  }

  lemma GrownTwice(firsts: map<nat, FirstPlan>, firsts': map<nat, FirstPlan>, firsts'': map<nat, FirstPlan>)
    requires Grown(firsts, firsts') && Grown(firsts', firsts'')
    ensures Grown(firsts, firsts'')
  {
  }

  /** The rule whose plans were being made is finished. */
  lemma RuleFinished(t: Tables, before: map<nat, FirstPlan>, firsts: map<nat, FirstPlan>, finished: seq<nat>, rule: nat,
                     plans: map<nat, Plan>, leftRecursive: bool)
    requires FirstsOk(t, firsts) && AreCalculated(firsts, finished) && Ordered(t, finished)
    requires rule !in before && Grown(before[rule := Calculating], firsts)
    requires FirstOk(t, rule, Calculated(plans, leftRecursive)) && FirstsIn(t, rule, finished)
    ensures var firsts' := firsts[rule := Calculated(plans, leftRecursive)];
            && FirstsOk(t, firsts') && AreCalculated(firsts', finished + [rule]) && Ordered(t, finished + [rule])
            && Grown(before, firsts')
  {
    OrderedMore(t, finished, rule);
    assert before[rule := Calculating][rule] == Calculating;
  }

  ghost function Remaining(t: Tables, firsts: map<nat, FirstPlan>): set<nat> {
    t.dfas.Keys - firsts.Keys
  }

  class PlanGenerator {
    const tables: Tables
    var firstPlans: map<nat, FirstPlan>
    /** The rules in the order in which their plans were finished. */
    ghost var finished: seq<nat>

    constructor (tables: Tables)
      ensures this.tables == tables && firstPlans == map[] && finished == []
    {
      this.tables := tables;
      firstPlans := map[];
      finished := [];
    }

    ghost predicate Valid()
      reads this
    {
      TablesOk(tables) && FirstsOk(tables, firstPlans) && AreCalculated(firstPlans, finished)
      && Ordered(tables, finished)
    }

    method AddTerminal(rule: nat, d: nat, i: nat, candidates: map<nat, Candidate>)
      returns (r: Result<map<nat, Candidate>>)
      requires TablesOk(tables) && rule in tables.dfas && d < |tables.dfas[rule]|
               && i < |tables.dfas[rule][d].transitions|
      requires tables.dfas[rule][d].transitions[i].kind.Terminal?
      requires Gathered(tables, rule, d, i, candidates)
      ensures r.Made? ==> Gathered(tables, rule, d, i + 1, r.value) && LabelKnown(tables, rule, d, i)
      ensures r.Refused? ==> RowRefused(tables, rule, d, r.why)
    {
      var tr := tables.dfas[rule][d].transitions[i];
      var t, plan := tr.kind.terminal, LeafPlan(StateId(rule, tr.to), tr.kind.terminal);
      LeafIsNew(tables, rule, d, i, tr.kind, t, t);
      AddedJoins(tables, rule, d, i, candidates, candidates, tr.kind, t, plan);
      var added := Add(candidates, tr.kind, t, plan);
      if added.None? {
        ClashFound(tables, rule, d, i, candidates, candidates, tr.kind, t);
        return Refused(Conflict);
      }
      ghost var done := {};
      var keywords := if t in tables.softKeywords then tables.softKeywords[t] else {};
      while keywords != {}
        invariant added.Some? && Joining(tables, rule, d, i, candidates, added.value)
        invariant SoftsDone(tables, rule, d, i, added.value, done)
        invariant forall k :: IsSoft(tables, tr.kind, k) <==> k in done || k in keywords
        decreases keywords
      {
        var k :| k in keywords;
        if k !in tables.keywords {
          return Refused(UnknownKeyword);
        }
        LeafIsNew(tables, rule, d, i, KeywordToken(k), tables.keywords[k], t);
        AddedJoins(tables, rule, d, i, candidates, added.value, KeywordToken(k), tables.keywords[k], plan);
        SoftsMore(tables, rule, d, i, added.value, done, k, plan);
        ghost var before := added.value;
        keywords, done := keywords - {k}, done + {k};
        added := Add(added.value, KeywordToken(k), tables.keywords[k], plan);
        if added.None? {
          ClashFound(tables, rule, d, i, candidates, before, KeywordToken(k), tables.keywords[k]);
          return Refused(Conflict);
        }
      }
      TerminalJoined(tables, rule, d, i, candidates, added.value, done);
      GatheredMore(tables, rule, d, i, candidates, added.value);
      r := Made(added.value);
    }

    method AddKeyword(rule: nat, d: nat, i: nat, candidates: map<nat, Candidate>)
      returns (r: Result<map<nat, Candidate>>)
      requires TablesOk(tables) && rule in tables.dfas && d < |tables.dfas[rule]|
               && i < |tables.dfas[rule][d].transitions|
      requires tables.dfas[rule][d].transitions[i].kind.KeywordToken?
      requires Gathered(tables, rule, d, i, candidates)
      ensures r.Made? ==> Gathered(tables, rule, d, i + 1, r.value) && LabelKnown(tables, rule, d, i)
      ensures r.Refused? ==> RowRefused(tables, rule, d, r.why)
    {
      var tr := tables.dfas[rule][d].transitions[i];
      if tr.kind.keyword !in tables.keywords {
        assert CanRead(tables, tr.kind, tr.kind.keyword);
        return Refused(UnknownKeyword);
      }
      var key := tables.keywords[tr.kind.keyword];
      LeafIsNew(tables, rule, d, i, tr.kind, key, key);
      AddedJoins(tables, rule, d, i, candidates, candidates, tr.kind, key, LeafPlan(StateId(rule, tr.to), key));
      var added := Add(candidates, tr.kind, key, LeafPlan(StateId(rule, tr.to), key));
      if added.None? {
        ClashFound(tables, rule, d, i, candidates, candidates, tr.kind, key);
        return Refused(Conflict);
      }
      GatheredMore(tables, rule, d, i, candidates, added.value);
      r := Made(added.value);
    }

    /** The plans of the node's rule, each with one more push. */
    method AddNonterminal(rule: nat, d: nat, i: nat, nested: map<nat, Plan>, candidates: map<nat, Candidate>)
      returns (r: Result<map<nat, Candidate>>)
      requires TablesOk(tables) && rule in tables.dfas && d < |tables.dfas[rule]|
               && i < |tables.dfas[rule][d].transitions|
      requires tables.dfas[rule][d].transitions[i].kind.Nonterminal?
      requires var node := tables.dfas[rule][d].transitions[i].kind.nonterminal;
               node in tables.dfas && 0 < |tables.dfas[node]| && ExactPlans(tables, node, 0, nested)
               && (d == 0 ==> node != rule)
      requires Gathered(tables, rule, d, i, candidates)
      ensures r.Made? ==> Gathered(tables, rule, d, i + 1, r.value) && LabelKnown(tables, rule, d, i)
      ensures r.Refused? ==> RowRefused(tables, rule, d, r.why)
    {
      var tr := tables.dfas[rule][d].transitions[i];
      var added := Some(candidates);
      var keys := nested.Keys;
      ghost var done: set<nat> := {};
      while keys != {}
        invariant added.Some? && done + keys == nested.Keys && Joining(tables, rule, d, i, candidates, added.value)
        invariant NestsDone(tables, rule, d, i, nested, added.value, done)
        decreases keys
      {
        var key :| key in keys;
        var plan := Nest(nested[key], tr.kind.nonterminal, StateId(rule, tr.to));
        NestedTakes(tables, rule, d, i, key, nested[key]);
        AddedJoins(tables, rule, d, i, candidates, added.value, tr.kind, key, plan);
        NestsMore(tables, rule, d, i, nested, added.value, done, key);
        ghost var before := added.value;
        keys, done := keys - {key}, done + {key};
        added := Add(added.value, tr.kind, key, plan);
        if added.None? {
          ClashFound(tables, rule, d, i, candidates, before, tr.kind, key);
          return Refused(Conflict);
        }
      }
      assert done == nested.Keys;
      NestJoined(tables, rule, d, i, nested, candidates, added.value);
      GatheredMore(tables, rule, d, i, candidates, added.value);
      r := Made(added.value);
    }

    /** The first plans of a rule that is a first child of the rules under way. */
    method CreateFirstPlans(rule: nat, ghost stack: seq<nat>) returns (refusal: Option<Refusal>)
      requires Valid() && rule in tables.dfas && AreCalculating(tables, firstPlans, stack)
      requires rule !in firstPlans ==> FirstPath(tables, stack + [rule])
      modifies this
      ensures Valid() && (refusal.Some? ==> Reason(tables, refusal.value))
      ensures refusal.None? ==> Grown(old(firstPlans), firstPlans) && rule in firstPlans
      decreases Remaining(tables, firstPlans), 0, 0
    {
      if rule in firstPlans {
        return None;
      }
      ghost var before := firstPlans;
      firstPlans := firstPlans[rule := Calculating];
      assert Remaining(tables, firstPlans) == Remaining(tables, before) - {rule};
      assert |tables.dfas[rule]| > 0;
      var r := PlansForDfa(rule, 0, true, stack + [rule]);
      if r.Refused? {
        return Some(r.why);
      }
      var (plans, leftRecursive) := r.value;
      PlansBesides(tables, rule, plans);
      if leftRecursive && plans == map[] {
        assert OnlyItself(tables, rule);
        return Some(NoAlternative);
      }
      RuleFinished(tables, before, firstPlans, finished, rule, plans, leftRecursive);
      firstPlans := firstPlans[rule := Calculated(plans, leftRecursive)];
      finished := finished + [rule];
      return None;
    }

    /** What the i-th label adds; that the rule begins with itself, adds nothing. */
    method AddLabel(rule: nat, d: nat, isFirst: bool, i: nat, candidates: map<nat, Candidate>, leftRecursive: bool,
                    ghost stack: seq<nat>)
      returns (refusal: Option<Refusal>, candidates': map<nat, Candidate>, leftRecursive': bool)
      requires Valid() && rule in tables.dfas && d < |tables.dfas[rule]| && i < |tables.dfas[rule][d].transitions|
      requires (isFirst <==> d == 0) && IsReady(rule, isFirst, stack)
      requires Progress(tables, rule, d, i, candidates, leftRecursive, finished)
      modifies this
      ensures Valid() && (!isFirst ==> firstPlans == old(firstPlans))
      ensures refusal.Some? ==> Reason(tables, refusal.value)
      ensures refusal.None? ==> Grown(old(firstPlans), firstPlans)
      ensures refusal.None? ==> Progress(tables, rule, d, i + 1, candidates', leftRecursive', finished)
      decreases Remaining(tables, firstPlans), 1, 0
    {
      var tr := tables.dfas[rule][d].transitions[i];
      refusal, candidates', leftRecursive' := None, candidates, leftRecursive;
      if isFirst && tr.kind.Nonterminal? && tr.kind.nonterminal in firstPlans
         && firstPlans[tr.kind.nonterminal].Calculating? {
        if tr.kind.nonterminal != rule {
          LabelIsFirstChild(tables, rule, i);
          CycleFound(tables, stack, tr.kind.nonterminal);
          refusal := Some(IndirectLeftRecursion);
          return;
        }
        SelfProgress(tables, rule, i, candidates, leftRecursive, finished);
        leftRecursive' := true;
        return;
      }
      var added := AddOther(rule, d, isFirst, i, candidates, stack);
      if added.Refused? {
        refusal := Some(added.why);
        return;
      }
      StillFinished(old(firstPlans), firstPlans, old(finished), finished);
      LabelProgress(tables, rule, d, i, candidates, added.value, leftRecursive, old(finished), finished);
      candidates' := added.value;
    }

    method AddOther(rule: nat, d: nat, isFirst: bool, i: nat, candidates: map<nat, Candidate>, ghost stack: seq<nat>)
      returns (r: Result<map<nat, Candidate>>)
      requires Valid() && rule in tables.dfas && d < |tables.dfas[rule]| && i < |tables.dfas[rule][d].transitions|
      requires (isFirst <==> d == 0) && IsReady(rule, isFirst, stack) && Gathered(tables, rule, d, i, candidates)
      requires var kind := tables.dfas[rule][d].transitions[i].kind;
               isFirst && kind.Nonterminal? ==>
                 !(kind.nonterminal in firstPlans && firstPlans[kind.nonterminal].Calculating?)
      modifies this
      ensures Valid() && (r.Made? ==> Grown(old(firstPlans), firstPlans))
              && (!isFirst ==> firstPlans == old(firstPlans))
      ensures r.Refused? ==> Reason(tables, r.why)
      ensures r.Made? ==> Gathered(tables, rule, d, i + 1, r.value) && LabelKnown(tables, rule, d, i)
      ensures var kind := tables.dfas[rule][d].transitions[i].kind;
              r.Made? && isFirst && kind.Nonterminal? ==> kind.nonterminal in finished
      decreases Remaining(tables, firstPlans), 0, 1
    {
      var tr := tables.dfas[rule][d].transitions[i];
      assert RowOk(tables, rule, tables.dfas[rule][d].transitions);
      if tr.kind.Nonterminal? {
        var node := tr.kind.nonterminal;
        if isFirst {
          if node !in firstPlans {
            LabelIsFirstChild(tables, rule, i);
            PathMore(tables, stack, node);
          }
          var refusal := CreateFirstPlans(node, stack);
          if refusal.Some? {
            return Refused(refusal.value);
          }
        }
        assert FirstOk(tables, node, firstPlans[node]);
        r := AddNonterminal(rule, d, i, firstPlans[node].plans, candidates);
      } else if tr.kind.Terminal? {
        r := AddTerminal(rule, d, i, candidates);
      } else {
        r := AddKeyword(rule, d, i, candidates);
      }
      if r.Refused? {
        RowRefusedFor(tables, rule, d, r.why);
      }
    }

    /** First plans are made for the rule that was begun last, other plans when
        all first plans are there. */
    ghost predicate IsReady(rule: nat, isFirst: bool, stack: seq<nat>)
      reads this
    {
      && AreCalculating(tables, firstPlans, stack)
      && if isFirst then stack != [] && stack[|stack| - 1] == rule
         else forall node :: node in tables.dfas ==> node in firstPlans && firstPlans[node].Calculated?
    }

    /** The candidates of all labels of a state, and whether the rule begins with
        itself there. */
    method GatherRow(rule: nat, d: nat, isFirst: bool, ghost stack: seq<nat>)
      returns (r: Result<(map<nat, Candidate>, bool)>)
      requires Valid() && rule in tables.dfas && d < |tables.dfas[rule]|
      requires (isFirst <==> d == 0) && IsReady(rule, isFirst, stack)
      modifies this
      ensures Valid() && (r.Made? ==> Grown(old(firstPlans), firstPlans))
              && (!isFirst ==> firstPlans == old(firstPlans))
      ensures r.Refused? ==> Reason(tables, r.why)
      ensures r.Made? ==> Progress(tables, rule, d, |tables.dfas[rule][d].transitions|, r.value.0, r.value.1, finished)
      decreases Remaining(tables, firstPlans), 2, 0
    {
      var c, leftRecursive := map[], false;
      NoProgress(tables, rule, d, finished);
      for i := 0 to |tables.dfas[rule][d].transitions|
        invariant Valid() && Grown(old(firstPlans), firstPlans) && (!isFirst ==> firstPlans == old(firstPlans))
        invariant Progress(tables, rule, d, i, c, leftRecursive, finished)
      {
        ghost var firsts := firstPlans;
        assert IsReady(rule, isFirst, stack) by {
          StillCalculating(tables, old(firstPlans), firsts, stack);
        }
        var refusal: Option<Refusal>;
        refusal, c, leftRecursive := AddLabel(rule, d, isFirst, i, c, leftRecursive, stack);
        if refusal.Some? {
          return Refused(refusal.value);
        }
        assert Grown(old(firstPlans), firstPlans) by {
          GrownTwice(old(firstPlans), firsts, firstPlans);
        }
      }
      r := Made((c, leftRecursive));
    }

    /** The plans of one state, and whether the rule begins with itself there. */
    method PlansForDfa(rule: nat, d: nat, isFirst: bool, ghost stack: seq<nat>)
      returns (r: Result<(map<nat, Plan>, bool)>)
      requires Valid() && rule in tables.dfas && d < |tables.dfas[rule]|
      requires (isFirst <==> d == 0) && IsReady(rule, isFirst, stack)
      modifies this
      ensures Valid() && (r.Made? ==> Grown(old(firstPlans), firstPlans))
              && (!isFirst ==> firstPlans == old(firstPlans))
      ensures r.Refused? ==> Reason(tables, r.why)
      ensures r.Made? ==> ExactPlans(tables, rule, d, r.value.0) && RowMakes(tables, rule, d)
      ensures r.Made? && isFirst ==> (r.value.1 <==> FirstChild(tables, rule, rule)) && FirstsIn(tables, rule, finished)
      decreases Remaining(tables, firstPlans), 3, 0
    {
      var row := GatherRow(rule, d, isFirst, stack);
      if row.Refused? {
        return Refused(row.why);
      }
      ProgressDone(tables, rule, d, row.value.0, row.value.1, finished);
      r := Made((PlansOf(row.value.0), row.value.1));
    }
  }
}
