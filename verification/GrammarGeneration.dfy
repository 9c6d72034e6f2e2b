/** From the tables of all rules to what the parser runs on. */
module GrammarGeneration {
  import opened Rules
  import opened Powerset
  import opened Parsing
  import opened Derivations
  import opened Plans
  import opened PlanGeneration

  predicate Recovers(kind: TransitionType, recovering: set<nat>) {
    kind.Nonterminal? && kind.nonterminal in recovering
  }

  ghost predicate IsFirstRecovering(row: seq<DfaTransition>, recovering: set<nat>, rule: nat, i: nat) {
    && i < |row| && row[i].kind == Nonterminal(rule) && rule in recovering
    && forall j :: 0 <= j < i ==> !Recovers(row[j].kind, recovering)
  }

  /** The first rule on a row's labels that takes failed nodes. */
  function FirstRecovering(row: seq<DfaTransition>, recovering: set<nat>): (r: Option<nat>)
    ensures r.None? <==> forall i :: 0 <= i < |row| ==> !Recovers(row[i].kind, recovering)
    ensures r.Some? ==> exists i :: IsFirstRecovering(row, recovering, r.value, i)
  {
    if row == [] then None
    else if Recovers(row[0].kind, recovering) then
      assert IsFirstRecovering(row, recovering, row[0].kind.nonterminal, 0);
      Some(row[0].kind.nonterminal)
    else
      var r := FirstRecovering(row[1..], recovering);
      assert forall i :: 0 < i < |row| ==> row[i] == row[1..][i - 1];
      assert r.Some? ==> forall i: nat ::
        IsFirstRecovering(row[1..], recovering, r.value, i) ==> IsFirstRecovering(row, recovering, r.value, i + 1);
      r
  }

  function InfoOf(t: Tables, recovering: set<nat>, rule: nat, d: nat, plans: map<nat, Plan>): StateInfo
    requires rule in t.dfas && d < |t.dfas[rule]|
  {
    var state := t.dfas[rule][d];
    StateInfo(state.isFinal, rule in t.omitted, state.transitions == [] && !state.isFinal,
              FirstRecovering(state.transitions, recovering), plans)
  }

  ghost predicate HasFirsts(firsts: set<nat>, ids: set<StateId>, rules: seq<nat>, n: nat)
    requires n <= |rules|
  {
    forall k :: 0 <= k < n ==> rules[k] in firsts && StateId(rules[k], 0) in ids
  }

  lemma OneFirstMore(firsts: set<nat>, ids: set<StateId>, rules: seq<nat>, n: nat, firsts': set<nat>,
                     ids': set<StateId>)
    requires n < |rules| && HasFirsts(firsts, ids, rules, n)
    requires firsts + {rules[n]} <= firsts' && ids + {StateId(rules[n], 0)} <= ids'
    ensures HasFirsts(firsts', ids', rules, n + 1)
  {
  }

  // ----- the states with their plans

  /** The state where a rule goes on that began with itself. */
  ghost function Behind(t: Tables, rule: nat): StateId
    requires FirstChild(t, rule, rule)
  {
    StateId(rule, Powerset.Next(t.dfas[rule], 0, Nonterminal(rule)).value)
  }

  /** The rule may end here, and go on as its own first child. */
  ghost predicate IsExtended(t: Tables, id: StateId) {
    FirstChild(t, id.rule, id.rule) && id.index < |t.dfas[id.rule]| && t.dfas[id.rule][id.index].isFinal
  }

  ghost predicate HasOwn(t: Tables, own: map<StateId, map<nat, Plan>>, id: StateId) {
    && id in own && id.rule in t.dfas && id.index < |t.dfas[id.rule]|
    && (FirstChild(t, id.rule, id.rule) ==> Behind(t, id.rule) in own)
  }

  /** The plans of a state with those by which the rule goes on after itself: these
      replace the state's own. */
  ghost function Extended(t: Tables, own: map<StateId, map<nat, Plan>>, id: StateId): map<nat, Plan>
    requires HasOwn(t, own, id)
  {
    if IsExtended(t, id) then own[id] + Continued(own[Behind(t, id.rule)]) else own[id]
  }

  /** A state of the table with its own plans. */
  ghost predicate OwnOk(t: Tables, id: StateId, info: StateInfo, plans: map<nat, Plan>) {
    && id.rule in t.dfas && id.index < |t.dfas[id.rule]|
    && info.isFinal == t.dfas[id.rule][id.index].isFinal && (id.index == 0 ==> !info.isFinal)
    && info.mayBeOmitted == (id.rule in t.omitted) && !info.isNegativeLookahead
    && ExactPlans(t, id.rule, id.index, plans) && RowMakes(t, id.rule, id.index)
  }

  ghost predicate AllOwnOk(t: Tables, infos: map<StateId, StateInfo>, own: map<StateId, map<nat, Plan>>) {
    own.Keys == infos.Keys && forall id :: id in infos ==> OwnOk(t, id, infos[id], own[id])
  }

  /** What the generator ends with: each state has the plans of its chains, and with
      left recursion, those of the state behind the first child. */
  ghost predicate AllExtended(t: Tables, infos: map<StateId, StateInfo>, own: map<StateId, map<nat, Plan>>) {
    AllOwnOk(t, infos, own) && forall id :: id in infos ==>
      HasOwn(t, own, id) && infos[id].plans == Extended(t, own, id)
  }

  lemma OwnReads(t: Tables, id: StateId, info: StateInfo, plans: map<nat, Plan>, key: nat)
    returns (kind: TransitionType)
    requires OwnOk(t, id, info, plans) && key in plans
    ensures plans[key].mode == LL && PlanReads(t, id, key, plans[key], kind)
  {
    assert TakesToken(t, id.rule, id.index, key, plans[key]);
    kind :| PlanReads(t, id, key, plans[key], kind);
  }

  /** A state goes on where the rule does that began with itself, for the token as
      it is. */
  lemma ContinuedReads(t: Tables, id: StateId, key: nat, plan: Plan, kind: TransitionType)
    requires IsExtended(t, id) && id.index > 0 && Behind(t, id.rule).index < |t.dfas[id.rule]|
    requires PlanReads(t, Behind(t, id.rule), key, plan, kind) && plan.mode == LL
    ensures PlanReads(t, id, key, Plan(plan.pushes, plan.next, key, LeftRecursive), kind)
  {
    DirectLater(id.rule, Behind(t, id.rule).index == 0, plan.pushes);
  }

  lemma ExtendedReads(t: Tables, infos: map<StateId, StateInfo>, own: map<StateId, map<nat, Plan>>, id: StateId,
                      key: nat)
    returns (kind: TransitionType)
    requires AllExtended(t, infos, own) && id in infos && key in infos[id].plans
    ensures PlanReads(t, id, key, infos[id].plans[key], kind)
  {
    if IsExtended(t, id) && key in own[Behind(t, id.rule)] {
      var s := Behind(t, id.rule);
      kind := OwnReads(t, s, infos[s], own[s], key);
      ContinuedReads(t, id, key, own[s][key], kind);
    } else {
      kind := OwnReads(t, id, infos[id], own[id], key);
    }
  }

  /** The states are sound for the tables. */
  lemma ExtendedIsSound(t: Tables, infos: map<StateId, StateInfo>, own: map<StateId, map<nat, Plan>>, id: StateId)
    requires AllExtended(t, infos, own) && id in infos
    ensures InfoSound(t, id, infos[id])
  {
    assert OwnOk(t, id, infos[id], own[id]);
    forall key | key in infos[id].plans
      ensures exists kind :: PlanReads(t, id, key, infos[id].plans[key], kind)
    {
      var kind := ExtendedReads(t, infos, own, id, key);
    }
  }

  /** A plan of a state's own is kept if and only if the rule does not go on after
      itself here by the same token. */
  lemma OwnPlanKept(t: Tables, infos: map<StateId, StateInfo>, own: map<StateId, map<nat, Plan>>, id: StateId, key: nat)
    requires AllExtended(t, infos, own) && id in infos && key in own[id]
    ensures key in infos[id].plans
    ensures infos[id].plans[key] == own[id][key] <==> !(IsExtended(t, id) && key in own[Behind(t, id.rule)])
    ensures IsExtended(t, id) && key in own[Behind(t, id.rule)] ==>
              infos[id].plans[key] == Continued(own[Behind(t, id.rule)])[key]
  {
    var kind := OwnReads(t, id, infos[id], own[id], key);
  }

  /** Going on after itself a second time adds nothing. */
  lemma ContinuedTwice(own: map<nat, Plan>)
    ensures Continued(own + Continued(own)) == Continued(own)
  {
    var twice := Continued(own + Continued(own));
    assert (own + Continued(own)).Keys == own.Keys;
    assert forall key :: key in own ==> twice[key] == Continued(own)[key];
  }

  // ----- states of one rule

  /** The first `n` states of a rule are there. */
  ghost predicate HasStates(ids: set<StateId>, rule: nat, n: nat) {
    forall i: nat :: i < n ==> StateId(rule, i) in ids
  }

  /** The states of a rule from `from` to `to` have their own plans. */
  ghost predicate ArePlain(infos: map<StateId, StateInfo>, own: map<StateId, map<nat, Plan>>, rule: nat, from: nat,
                           to: nat)
  {
    forall i: nat :: from <= i < to ==>
      StateId(rule, i) in infos && StateId(rule, i) in own && infos[StateId(rule, i)].plans == own[StateId(rule, i)]
  }

  /** The first `n` states of a rule have got the plans of left recursion. */
  ghost predicate AreExtended(t: Tables, infos: map<StateId, StateInfo>, own: map<StateId, map<nat, Plan>>, rule: nat,
                              n: nat)
  {
    forall i: nat :: i < n ==>
      StateId(rule, i) in infos && HasOwn(t, own, StateId(rule, i))
      && infos[StateId(rule, i)].plans == Extended(t, own, StateId(rule, i))
  }

  /** All states of the first `n` rules have. */
  ghost predicate RulesExtended(t: Tables, infos: map<StateId, StateInfo>, own: map<StateId, map<nat, Plan>>,
                                rules: seq<nat>,
                                n: nat)
    requires n <= |rules|
  {
    forall k :: 0 <= k < n ==> rules[k] in t.dfas && AreExtended(t, infos, own, rules[k], |t.dfas[rules[k]]|)
  }

  /** The states at which rules begin have their own plans. */
  ghost predicate StartsPlain(infos: map<StateId, StateInfo>, own: map<StateId, map<nat, Plan>>) {
    forall rule :: StateId(rule, 0) in infos ==> ArePlain(infos, own, rule, 0, 1)
  }

  /** All that is kept while states are put down. */
  ghost predicate StatesOk(t: Tables, infos: map<StateId, StateInfo>, own: map<StateId, map<nat, Plan>>) {
    AllOwnOk(t, infos, own) && StartsPlain(infos, own)
  }

  /** Only states of the rule are different. */
  ghost predicate OthersSame(infos: map<StateId, StateInfo>, own: map<StateId, map<nat, Plan>>,
                             infos': map<StateId, StateInfo>, own': map<StateId, map<nat, Plan>>, rule: nat) {
    && infos.Keys <= infos'.Keys && own.Keys <= own'.Keys
    && (forall id :: id in infos && id.rule != rule ==> infos'[id] == infos[id])
    && (forall id :: id in own && id.rule != rule ==> own'[id] == own[id])
  }

  lemma StartExtended(t: Tables, infos: map<StateId, StateInfo>, own: map<StateId, map<nat, Plan>>, rule: nat, n: nat)
    requires TablesOk(t) && AllOwnOk(t, infos, own) && rule in t.dfas && 0 < n == |t.dfas[rule]|
    requires ArePlain(infos, own, rule, 0, n)
    ensures AreExtended(t, infos, own, rule, 1)
  {
    assert OwnOk(t, StateId(rule, 0), infos[StateId(rule, 0)], own[StateId(rule, 0)]);
    BehindIsThere(t, own, rule, n);
  }

  /** A rule that begins with itself has a state to go on from. */
  lemma BehindIsThere(t: Tables, own: map<StateId, map<nat, Plan>>, rule: nat, n: nat)
    requires TablesOk(t) && rule in t.dfas && n == |t.dfas[rule]| && HasStates(own.Keys, rule, n)
    ensures FirstChild(t, rule, rule) ==> Behind(t, rule) in own && Behind(t, rule).index < n
  {
    NextInFinds(t.dfas[rule][0].transitions, Nonterminal(rule));
    assert RowOk(t, rule, t.dfas[rule][0].transitions);
  }

  /** What left recursion adds is that of the state's own plans, whether that state
      has been dealt with or not. */
  lemma ContinuedFromOwn(t: Tables, infos: map<StateId, StateInfo>, own: map<StateId, map<nat, Plan>>, s: StateId)
    requires FirstChild(t, s.rule, s.rule) && s == Behind(t, s.rule) && s in infos && HasOwn(t, own, s)
    requires infos[s].plans == own[s] || infos[s].plans == Extended(t, own, s)
    ensures Continued(infos[s].plans) == Continued(own[s])
  {
    ContinuedTwice(own[s]);
  }

  lemma StartsStillPlain(infos: map<StateId, StateInfo>, own: map<StateId, map<nat, Plan>>, id: StateId,
                         info: StateInfo,
                         plans: map<nat, Plan>)
    requires StartsPlain(infos, own) && (id.index > 0 || info.plans == plans)
    ensures StartsPlain(infos[id := info], own[id := plans])
  {
    forall rule | StateId(rule, 0) in infos[id := info]
      ensures ArePlain(infos[id := info], own[id := plans], rule, 0, 1)
    {
      assert StateId(rule, 0) in infos ==> ArePlain(infos, own, rule, 0, 1);
    }
  }

  lemma OnePlainMore(infos: map<StateId, StateInfo>, own: map<StateId, map<nat, Plan>>, rule: nat, i: nat,
                     info: StateInfo)
    ensures ArePlain(infos, own, rule, 0, i) ==>
              ArePlain(infos[StateId(rule, i) := info], own[StateId(rule, i) := info.plans], rule, 0, i + 1)
  {
  }

  /** Another plan does not change what else is known of a state. */
  lemma PlansChanged(t: Tables, infos: map<StateId, StateInfo>, own: map<StateId, map<nat, Plan>>, id: StateId,
                     plans: map<nat, Plan>)
    requires StatesOk(t, infos, own) && id in infos && id.index > 0
    ensures var infos' := infos[id := infos[id].(plans := plans)];
            StatesOk(t, infos', own) && OthersSame(infos, own, infos', own, id.rule)
  {
    assert OwnOk(t, id, infos[id], own[id]);
    StartsStillPlain(infos, own, id, infos[id].(plans := plans), own[id]);
    assert own[id := own[id]] == own;
  }

  /** A state with its own plans is put down. */
  lemma StateMade(t: Tables, infos: map<StateId, StateInfo>, own: map<StateId, map<nat, Plan>>, recovering: set<nat>,
                  rule: nat, d: nat, plans: map<nat, Plan>)
    requires Live(t) && StatesOk(t, infos, own) && rule in t.dfas && d < |t.dfas[rule]|
    requires ExactPlans(t, rule, d, plans) && RowMakes(t, rule, d) && (d == 0 ==> !t.dfas[rule][0].isFinal)
    ensures var infos' := infos[StateId(rule, d) := InfoOf(t, recovering, rule, d, plans)];
            var own' := own[StateId(rule, d) := plans];
            StatesOk(t, infos', own') && OthersSame(infos, own, infos', own', rule)
  {
    assert OwnOk(t, StateId(rule, d), InfoOf(t, recovering, rule, d, plans), plans);
    StartsStillPlain(infos, own, StateId(rule, d), InfoOf(t, recovering, rule, d, plans), plans);
  }

  lemma OneExtendedMore(t: Tables, infos: map<StateId, StateInfo>, own: map<StateId, map<nat, Plan>>, rule: nat, i: nat,
                        n: nat,
                        info: StateInfo)
    requires AreExtended(t, infos, own, rule, i) && ArePlain(infos, own, rule, i, n) && i < n
    requires HasOwn(t, own, StateId(rule, i)) && info.plans == Extended(t, own, StateId(rule, i))
    ensures AreExtended(t, infos[StateId(rule, i) := info], own, rule, i + 1)
    ensures ArePlain(infos[StateId(rule, i) := info], own, rule, i + 1, n)
  {
  }

  /** A state has got the plans of left recursion. */
  lemma StateContinued(t: Tables, infos: map<StateId, StateInfo>, own: map<StateId, map<nat, Plan>>, rule: nat, i: nat,
                       n: nat,
                       plans: map<nat, Plan>)
    requires StatesOk(t, infos, own) && AreExtended(t, infos, own, rule, i) && ArePlain(infos, own, rule, i, n)
             && 0 < i < n
    requires HasOwn(t, own, StateId(rule, i))
    requires plans == Extended(t, own, StateId(rule, i))
    ensures var infos' := infos[StateId(rule, i) := infos[StateId(rule, i)].(plans := plans)];
            && StatesOk(t, infos', own) && OthersSame(infos, own, infos', own, rule)
            && AreExtended(t, infos', own, rule, i + 1) && ArePlain(infos', own, rule, i + 1, n)
  {
    PlansChanged(t, infos, own, StateId(rule, i), plans);
    OneExtendedMore(t, infos, own, rule, i, n, infos[StateId(rule, i)].(plans := plans));
  }

  lemma OthersSameTwice(infos: map<StateId, StateInfo>, own: map<StateId, map<nat, Plan>>,
                        infos': map<StateId, StateInfo>, own': map<StateId, map<nat, Plan>>,
                        infos'': map<StateId, StateInfo>, rule: nat)
    requires OthersSame(infos, own, infos', own', rule) && OthersSame(infos', own', infos'', own', rule)
    ensures OthersSame(infos, own, infos'', own', rule)
  {
  }

  lemma StillExtended(t: Tables, infos: map<StateId, StateInfo>, own: map<StateId, map<nat, Plan>>,
                      infos': map<StateId, StateInfo>, own': map<StateId, map<nat, Plan>>, rule: nat, other: nat,
                      n: nat)
    requires OthersSame(infos, own, infos', own', rule) && other != rule
    requires AreExtended(t, infos, own, other, n)
    ensures AreExtended(t, infos', own', other, n)
  {
    forall i: nat | i < n
      ensures StateId(other, i) in infos' && HasOwn(t, own', StateId(other, i))
              && infos'[StateId(other, i)].plans == Extended(t, own', StateId(other, i))
    {
      assert infos[StateId(other, i)].plans == Extended(t, own, StateId(other, i));
    }
  }

  lemma OneRuleMore(t: Tables, infos: map<StateId, StateInfo>, own: map<StateId, map<nat, Plan>>,
                    infos': map<StateId, StateInfo>, own': map<StateId, map<nat, Plan>>, rules: seq<nat>, n: nat)
    requires n < |rules| && RulesExtended(t, infos, own, rules, n) && rules[n] in t.dfas
    requires OthersSame(infos, own, infos', own', rules[n])
    requires AreExtended(t, infos', own', rules[n], |t.dfas[rules[n]]|)
    ensures RulesExtended(t, infos', own', rules, n + 1)
  {
    forall k | 0 <= k < n + 1
      ensures rules[k] in t.dfas && AreExtended(t, infos', own', rules[k], |t.dfas[rules[k]]|)
    {
      if rules[k] != rules[n] {
        StillExtended(t, infos, own, infos', own', rules[n], rules[k], |t.dfas[rules[k]]|);
      }
    }
  }

  /** Where a failed token goes: into a node of the first rule on the row's labels
      that takes failed nodes. */
  ghost predicate ErrorNodeOk(t: Tables, recovering: set<nat>, id: StateId, info: StateInfo) {
    && id.rule in t.dfas && id.index < |t.dfas[id.rule]|
    && info.errorNode == FirstRecovering(t.dfas[id.rule][id.index].transitions, recovering)
  }

  ghost predicate ErrorNodesOk(t: Tables, recovering: set<nat>, infos: map<StateId, StateInfo>) {
    forall id :: id in infos ==> ErrorNodeOk(t, recovering, id, infos[id])
  }

  lemma ErrorNodePut(t: Tables, recovering: set<nat>, infos: map<StateId, StateInfo>, id: StateId, info: StateInfo)
    requires ErrorNodesOk(t, recovering, infos) && ErrorNodeOk(t, recovering, id, info)
    ensures ErrorNodesOk(t, recovering, infos[id := info])
  {
  }

  lemma ErrorNodeStays(t: Tables, recovering: set<nat>, infos: map<StateId, StateInfo>, id: StateId,
                       plans: map<nat, Plan>)
    requires ErrorNodesOk(t, recovering, infos) && id in infos
    ensures ErrorNodesOk(t, recovering, infos[id := infos[id].(plans := plans)])
  {
    assert ErrorNodeOk(t, recovering, id, infos[id]);
  }

  class GrammarGenerator {
    const tables: Tables
    const recovering: set<nat>
    const planGenerator: PlanGenerator
    var infos: map<StateId, StateInfo>
    /** The plans of each state before those of left recursion. */
    ghost var own: map<StateId, map<nat, Plan>>

    constructor (tables: Tables, recovering: set<nat>)
      ensures this.tables == tables && this.recovering == recovering && infos == map[] && own == map[]
      ensures fresh(planGenerator) && planGenerator.tables == tables && planGenerator.firstPlans == map[]
      ensures planGenerator.finished == []
    {
      this.tables := tables;
      this.recovering := recovering;
      planGenerator := new PlanGenerator(tables);
      infos := map[];
      own := map[];
    }

    ghost predicate Valid()
      reads this, planGenerator
    {
      && planGenerator.tables == tables && planGenerator.Valid() && Live(tables)
      && AreCalculating(tables, planGenerator.firstPlans, [])
      && StatesOk(tables, infos, own) && ErrorNodesOk(tables, recovering, infos)
    }

    /** A state gets its own plans. */
    method PutState(rule: nat, d: nat, plans: map<nat, Plan>)
      requires Live(tables) && StatesOk(tables, infos, own) && rule in tables.dfas && d < |tables.dfas[rule]|
      requires ErrorNodesOk(tables, recovering, infos)
      requires ExactPlans(tables, rule, d, plans) && RowMakes(tables, rule, d)
               && (d == 0 ==> !tables.dfas[rule][0].isFinal)
      modifies this`infos, this`own
      ensures StatesOk(tables, infos, own) && OthersSame(old(infos), old(own), infos, own, rule)
      ensures infos.Keys == old(infos).Keys + {StateId(rule, d)} && ErrorNodesOk(tables, recovering, infos)
      ensures ArePlain(old(infos), old(own), rule, 0, d) ==> ArePlain(infos, own, rule, 0, d + 1)
    {
      var info := InfoOf(tables, recovering, rule, d, plans);
      StateMade(tables, infos, own, recovering, rule, d, plans);
      OnePlainMore(infos, own, rule, d, info);
      ErrorNodePut(tables, recovering, infos, StateId(rule, d), info);
      infos, own := infos[StateId(rule, d) := info], own[StateId(rule, d) := plans];
    }

    /** The first state of every rule. */
    method FirstStates(rules: seq<nat>) returns (refusal: Option<Refusal>)
      requires Valid() && forall rule :: rule in rules ==> rule in tables.dfas
      modifies this, planGenerator
      ensures refusal.None? ==> Valid() && HasFirsts(planGenerator.firstPlans.Keys, infos.Keys, rules, |rules|)
      ensures refusal.Some? ==> Reason(tables, refusal.value)
    {
      for n := 0 to |rules|
        invariant Valid() && HasFirsts(planGenerator.firstPlans.Keys, infos.Keys, rules, n)
      {
        ghost var firsts, ids := planGenerator.firstPlans.Keys, infos.Keys;
        refusal := FirstState(rules[n]);
        if refusal.Some? {
          return;
        }
        OneFirstMore(firsts, ids, rules, n, planGenerator.firstPlans.Keys, infos.Keys);
      }
      return None;
    }

    method FirstState(rule: nat) returns (refusal: Option<Refusal>)
      requires Valid() && rule in tables.dfas
      modifies this, planGenerator
      ensures refusal.None? ==> Valid() && old(infos).Keys + {StateId(rule, 0)} <= infos.Keys
      ensures refusal.None? ==> old(planGenerator.firstPlans).Keys + {rule} <= planGenerator.firstPlans.Keys
      ensures refusal.Some? ==> Reason(tables, refusal.value)
    {
      refusal := planGenerator.CreateFirstPlans(rule, []);
      if refusal.Some? {
        return;
      }
      StillCalculating(tables, old(planGenerator.firstPlans), planGenerator.firstPlans, []);
      assert FirstOk(tables, rule, planGenerator.firstPlans[rule]);
      if tables.dfas[rule][0].isFinal {
        assert CanBeEmpty(tables, rule);
        return Some(EmptyProduction);
      }
      PutState(rule, 0, planGenerator.firstPlans[rule].plans);
    }

    /** All first plans are there, and they stay. */
    ghost predicate Ready()
      reads this, planGenerator
    {
      Valid() && tables.dfas.Keys <= planGenerator.firstPlans.Keys
    }

    /** The other states of a rule. */
    method OtherStates(rule: nat) returns (refusal: Option<Refusal>)
      requires Ready() && rule in tables.dfas && StateId(rule, 0) in infos
      modifies this`infos, this`own, planGenerator
      ensures refusal.None? ==> Ready() && OthersSame(old(infos), old(own), infos, own, rule)
      ensures refusal.None? ==> ArePlain(infos, own, rule, 0, |tables.dfas[rule]|)
      ensures refusal.Some? ==> Reason(tables, refusal.value)
    {
      assert TablesOk(tables) && |tables.dfas[rule]| > 0 && ArePlain(infos, own, rule, 0, 1);
      for i := 1 to |tables.dfas[rule]|
        invariant Ready() && OthersSame(old(infos), old(own), infos, own, rule)
        invariant ArePlain(infos, own, rule, 0, i)
      {
        refusal := OtherState(rule, i);
        if refusal.Some? {
          return;
        }
      }
      return None;
    }

    /** Left recursion in the states where the rule may end. */
    method ContinueStates(rule: nat, first: FirstPlan)
      requires TablesOk(tables) && StatesOk(tables, infos, own) && FirstOk(tables, rule, first) && first.Calculated?
      requires ErrorNodesOk(tables, recovering, infos)
      requires ArePlain(infos, own, rule, 0, |tables.dfas[rule]|)
      modifies this`infos
      ensures StatesOk(tables, infos, own) && OthersSame(old(infos), own, infos, own, rule)
      ensures AreExtended(tables, infos, own, rule, |tables.dfas[rule]|) && ErrorNodesOk(tables, recovering, infos)
    {
      StartExtended(tables, infos, own, rule, |tables.dfas[rule]|);
      for i := 1 to |tables.dfas[rule]|
        invariant StatesOk(tables, infos, own) && OthersSame(old(infos), own, infos, own, rule)
        invariant ErrorNodesOk(tables, recovering, infos)
        invariant AreExtended(tables, infos, own, rule, i) && ArePlain(infos, own, rule, i, |tables.dfas[rule]|)
      {
        ContinueLeftRecursion(rule, i, first);
      }
    }

    /** All that is done for a rule after the first states. */
    method RestOf(rule: nat) returns (refusal: Option<Refusal>)
      requires Ready() && rule in tables.dfas && StateId(rule, 0) in infos
      modifies this`infos, this`own, planGenerator
      ensures refusal.None? ==> Ready() && OthersSame(old(infos), old(own), infos, own, rule)
      ensures refusal.None? ==> AreExtended(tables, infos, own, rule, |tables.dfas[rule]|)
      ensures refusal.Some? ==> Reason(tables, refusal.value)
    {
      refusal := OtherStates(rule);
      if refusal.None? {
        ghost var between := infos;
        assert FirstOk(tables, rule, planGenerator.firstPlans[rule]);
        ContinueStates(rule, planGenerator.firstPlans[rule]);
        OthersSameTwice(old(infos), old(own), between, own, infos, rule);
      }
    }

    method OtherState(rule: nat, i: nat) returns (refusal: Option<Refusal>)
      requires Ready() && rule in tables.dfas && 0 < i < |tables.dfas[rule]| && ArePlain(infos, own, rule, 0, i)
      modifies this`infos, this`own, planGenerator
      ensures refusal.None? ==> Ready() && OthersSame(old(infos), old(own), infos, own, rule)
      ensures refusal.None? ==> ArePlain(infos, own, rule, 0, i + 1)
      ensures refusal.Some? ==> Reason(tables, refusal.value)
    {
      var r := planGenerator.PlansForDfa(rule, i, false, []);
      if r.Refused? {
        return Some(r.why);
      }
      PutState(rule, i, r.value.0);
      return None;
    }

    method ContinueLeftRecursion(rule: nat, i: nat, first: FirstPlan)
      requires TablesOk(tables) && StatesOk(tables, infos, own) && ErrorNodesOk(tables, recovering, infos)
      requires FirstOk(tables, rule, first) && first.Calculated? && 0 < i < |tables.dfas[rule]|
      requires AreExtended(tables, infos, own, rule, i) && ArePlain(infos, own, rule, i, |tables.dfas[rule]|)
      modifies this`infos
      ensures StatesOk(tables, infos, own) && ErrorNodesOk(tables, recovering, infos)
      ensures AreExtended(tables, infos, own, rule, i + 1) && ArePlain(infos, own, rule, i + 1, |tables.dfas[rule]|)
      ensures OthersSame(old(infos), own, infos, own, rule)
    {
      var id := StateId(rule, i);
      assert OwnOk(tables, id, infos[id], own[id]);
      BehindIsThere(tables, own, rule, |tables.dfas[rule]|);
      var more: map<nat, Plan> := map[];
      if infos[id].isFinal && first.leftRecursive {
        var s := Powerset.Next(tables.dfas[rule], 0, Nonterminal(rule)).value;
        ContinuedFromOwn(tables, infos, own, StateId(rule, s));
        more := Continued(infos[StateId(rule, s)].plans);
      }
      var plans := infos[id].plans + more;
      assert plans == Extended(tables, own, id);
      StateContinued(tables, infos, own, rule, i, |tables.dfas[rule]|, plans);
      ErrorNodeStays(tables, recovering, infos, id, plans);
      infos := infos[id := infos[id].(plans := plans)];
    }
  }

  /** The states that the parser runs on: `own` are the plans of each state's
      chains. They are made if and only if there is no reason against it. */
  method Generate(t: Tables, rules: seq<nat>, recovering: set<nat>)
    returns (r: Result<Grammar>, ghost own: map<StateId, map<nat, Plan>>)
    requires TablesOk(t) && Live(t) && forall rule :: rule in rules <==> rule in t.dfas
    ensures r.Made? ==> GrammarSound(r.value, t) && AllExtended(t, r.value.states, own)
    ensures r.Made? ==> r.value.recovering == recovering && ErrorNodesOk(t, recovering, r.value.states) && NoReason(t)
    ensures r.Refused? ==> Reason(t, r.why)
  {
    own := map[];
    var generator := new GrammarGenerator(t, recovering);
    var refusal := generator.FirstStates(rules);
    if refusal.Some? {
      r := Refused(refusal.value);
      return;
    }
    for n := 0 to |rules|
      invariant fresh(generator) && fresh(generator.planGenerator) && generator.Ready()
      invariant HasFirsts(generator.planGenerator.firstPlans.Keys, generator.infos.Keys, rules, |rules|)
      invariant RulesExtended(t, generator.infos, generator.own, rules, n)
    {
      ghost var infos, was := generator.infos, generator.own;
      refusal := generator.RestOf(rules[n]);
      if refusal.Some? {
        r := Refused(refusal.value);
        return;
      }
      OneRuleMore(t, infos, was, generator.infos, generator.own, rules, n);
    }
    own := generator.own;
    r := Made(Grammar(generator.infos, recovering));
    AllDone(t, generator.infos, own, rules, recovering);
    NothingAgainst(t, generator.infos, own, generator.planGenerator.firstPlans, generator.planGenerator.finished);
  }

  ghost predicate HasEveryState(t: Tables, infos: map<StateId, StateInfo>) {
    forall rule, i: nat :: rule in t.dfas && i < |t.dfas[rule]| ==> StateId(rule, i) in infos
  }

  lemma AllDone(t: Tables, infos: map<StateId, StateInfo>, own: map<StateId, map<nat, Plan>>, rules: seq<nat>,
                recovering: set<nat>)
    requires RulesExtended(t, infos, own, rules, |rules|) && forall rule :: rule in t.dfas ==> rule in rules
    requires AllOwnOk(t, infos, own)
    ensures HasEveryState(t, infos) && AllExtended(t, infos, own) && GrammarSound(Grammar(infos, recovering), t)
  {
    forall rule, i: nat | rule in t.dfas && i < |t.dfas[rule]|
      ensures StateId(rule, i) in infos && HasOwn(t, own, StateId(rule, i))
      ensures infos[StateId(rule, i)].plans == Extended(t, own, StateId(rule, i))
    {
      var k :| 0 <= k < |rules| && rules[k] == rule;
      assert AreExtended(t, infos, own, rules[k], |t.dfas[rules[k]]|);
    }
    assert AllExtended(t, infos, own) by {
      forall id | id in infos
        ensures HasOwn(t, own, id) && infos[id].plans == Extended(t, own, id)
      {
        assert OwnOk(t, id, infos[id], own[id]) && id == StateId(id.rule, id.index);
      }
    }
    forall id | id in infos
      ensures InfoSound(t, id, infos[id])
    {
      ExtendedIsSound(t, infos, own, id);
    }
  }

  ghost predicate NoReason(t: Tables) {
    forall why :: !Reason(t, why)
  }

  /** If all plans were made, nothing was against it. */
  lemma NothingAgainst(t: Tables, infos: map<StateId, StateInfo>, own: map<StateId, map<nat, Plan>>,
                       firsts: map<nat, FirstPlan>, finished: seq<nat>)
    requires AllOwnOk(t, infos, own) && HasEveryState(t, infos)
    requires FirstsOk(t, firsts) && AreCalculated(firsts, finished) && Ordered(t, finished)
    requires t.dfas.Keys <= firsts.Keys && AreCalculating(t, firsts, [])
    ensures NoReason(t)
  {
    forall cycle
      ensures !FirstCycle(t, cycle)
    {
      if FirstCycle(t, cycle) {
        CycleIsOrdered(t, firsts, finished, cycle);
      }
    }
    forall rule
      ensures !OnlyItself(t, rule)
      ensures !CanBeEmpty(t, rule)
    {
      if rule in t.dfas {
        assert FirstOk(t, rule, firsts[rule]) && firsts[rule].Calculated?;
        assert StateId(rule, 0) in infos && OwnOk(t, StateId(rule, 0), infos[StateId(rule, 0)], own[StateId(rule, 0)]);
      }
    }
    forall rule, d: nat
      ensures !Clash(t, rule, d) && !ReadsUnknown(t, rule, d)
    {
      if rule in t.dfas && d < |t.dfas[rule]| {
        assert StateId(rule, d) in infos && OwnOk(t, StateId(rule, d), infos[StateId(rule, d)], own[StateId(rule, d)]);
      }
    }
  }

  lemma CycleIsOrdered(t: Tables, firsts: map<nat, FirstPlan>, finished: seq<nat>, cycle: seq<nat>)
    requires AreCalculated(firsts, finished) && Ordered(t, finished)
    requires t.dfas.Keys <= firsts.Keys && AreCalculating(t, firsts, []) && FirstCycle(t, cycle)
    ensures false
  {
    assert FirstChild(t, cycle[0], cycle[1]);
    var p :| 0 <= p < |finished| && finished[p] == cycle[0];
    OrderedHasNoCycle(t, finished, cycle, 0, p);
  }

  /** No two chains of a state take the same token. */
  lemma ChainsAreUnique(t: Tables, rule: nat, d: nat, plans: map<nat, Plan>, key: nat,
                        p1: seq<Push>, n1: StateId, k1: TransitionType, p2: seq<Push>, n2: StateId, k2: TransitionType)
    requires AllAgree(t) && rule in t.dfas && d < |t.dfas[rule]| && ExactPlans(t, rule, d, plans)
    requires IsChainFor(t, rule, d, key, p1, n1, k1) && IsChainFor(t, rule, d, key, p2, n2, k2)
    ensures p1 == p2 && n1 == n2
  {
    assert HasChains(t, rule, d, FirstLabel(p1, k1), plans) && PlanIs(plans, key, p1, n1);
    assert HasChains(t, rule, d, FirstLabel(p2, k2), plans) && PlanIs(plans, key, p2, n2);
  }
}
