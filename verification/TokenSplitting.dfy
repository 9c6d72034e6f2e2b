/** Splitting the states behind a conflict into groups: the states that can take
    a conflicting transition, in order of priority, as long as the transition
    type stays the same. */
module TokenSplitting {
  import opened Rules
  import opened Nfa
  import opened Fragments

  /** The type of a state's typed transition; states have at most one. */
  function KindOf(n: Nfa, id: nat): Option<TransitionType> {
    if id < |n| then FirstKind(n[id]) else None
  }

  function FirstKind(transitions: seq<NfaTransition>): Option<TransitionType> {
    if transitions == [] then None
    else if transitions[0].kind.Some? then transitions[0].kind
    else FirstKind(transitions[1..])
  }

  /** The states with a transition of a conflicting type. */
  function Conflicting(n: Nfa, ids: seq<nat>, conflicts: set<TransitionType>): seq<nat> {
    if ids == [] then []
    else (if KindOf(n, ids[0]).Some? && KindOf(n, ids[0]).value in conflicts then [ids[0]] else [])
         + Conflicting(n, ids[1..], conflicts)
  }

  /** The states with a transition of one type. */
  function OfKind(n: Nfa, ids: seq<nat>, t: TransitionType): seq<nat> {
    if ids == [] then [] else (if KindOf(n, ids[0]) == Some(t) then [ids[0]] else []) + OfKind(n, ids[1..], t)
  }

  ghost predicate Ascending(ids: seq<nat>) {
    forall i, j :: 0 <= i < j < |ids| ==> ids[i] < ids[j]
  }

  /** How many states from the first on have the type of the first. */
  function RunLength(n: Nfa, ids: seq<nat>): (k: nat)
    requires ids != []
    ensures 0 < k <= |ids|
    ensures forall i :: 0 <= i < k ==> KindOf(n, ids[i]) == KindOf(n, ids[0])
    ensures k < |ids| ==> KindOf(n, ids[k]) != KindOf(n, ids[0])
  {
    if |ids| > 1 && KindOf(n, ids[1]) == KindOf(n, ids[0]) then
      var k := RunLength(n, ids[1..]);
      assert forall i :: 0 < i <= k ==> ids[i] == ids[1..][i - 1];
      assert k < |ids| - 1 ==> ids[k + 1] == ids[1..][k];
      1 + k
    else 1
  }

  /** The reference: the states cut where the type changes. */
  function Runs(n: Nfa, ids: seq<nat>): seq<seq<nat>>
    decreases |ids|
  {
    if ids == [] then [] else var k := RunLength(n, ids); [ids[..k]] + Runs(n, ids[k..])
  }

  function Concat(groups: seq<seq<nat>>): seq<nat> {
    if groups == [] then [] else groups[0] + Concat(groups[1..])
  }

  /** The states of a group have one type. */
  ghost predicate OneKind(n: Nfa, group: seq<nat>) {
    group != [] && forall i :: 0 <= i < |group| ==> KindOf(n, group[i]) == KindOf(n, group[0])
  }

  lemma NextRunDiffers(n: Nfa, ids: seq<nat>)
    requires ids != [] && RunLength(n, ids) < |ids|
    ensures var groups := Runs(n, ids);
            |groups| > 1 && groups[0] != [] && groups[1] != [] && KindOf(n, groups[1][0]) != KindOf(n, groups[0][0])
  {
    var k := RunLength(n, ids);
    assert Runs(n, ids)[1] == Runs(n, ids[k..])[0] == ids[k..][..RunLength(n, ids[k..])];
  }

  /** Together the groups are all states in order, each once; in each there is one
      type, and the next one has another. */
  lemma {:induction false} RunsMergeByPriority(n: Nfa, ids: seq<nat>)
    ensures var groups := Runs(n, ids);
            && Concat(groups) == ids && (forall i :: 0 <= i < |groups| ==> OneKind(n, groups[i]))
            && forall i :: 0 < i < |groups| ==> KindOf(n, groups[i][0]) != KindOf(n, groups[i - 1][0])
    decreases |ids|
  {
    if ids != [] {
      var k := RunLength(n, ids);
      var groups, rest := Runs(n, ids), Runs(n, ids[k..]);
      RunsMergeByPriority(n, ids[k..]);
      assert groups == [ids[..k]] + rest && groups[1..] == rest && ids == ids[..k] + ids[k..];
      assert OneKind(n, ids[..k]);
      forall i | 0 <= i < |groups|
        ensures OneKind(n, groups[i])
      {
        if i > 0 {
          assert groups[i] == rest[i - 1];
        }
      }
      forall i | 0 < i < |groups|
        ensures KindOf(n, groups[i][0]) != KindOf(n, groups[i - 1][0])
      {
        assert OneKind(n, groups[i]) && OneKind(n, groups[i - 1]);
        if i == 1 {
          NextRunDiffers(n, ids);
        } else {
          assert groups[i] == rest[i - 1] && groups[i - 1] == rest[i - 2];
        }
      }
    }
  }

  // ----- states of one type

  lemma {:induction false} OfKindExactly(n: Nfa, ids: seq<nat>, t: TransitionType)
    ensures forall x :: x in OfKind(n, ids, t) <==> x in ids && KindOf(n, x) == Some(t)
  {
    if ids != [] {
      OfKindExactly(n, ids[1..], t);
    }
  }

  lemma OfKindFirst(n: Nfa, ids: seq<nat>, t: TransitionType)
    requires ids != []
    ensures OfKind(n, ids, t) == (if KindOf(n, ids[0]) == Some(t) then [ids[0]] else []) + OfKind(n, ids[1..], t)
  {
  }

  lemma {:induction false} OfKindJoin(n: Nfa, a: seq<nat>, b: seq<nat>, t: TransitionType)
    ensures OfKind(n, a + b, t) == OfKind(n, a, t) + OfKind(n, b, t)
  {
    if a == [] {
      assert a + b == b;
    } else {
      assert (a + b)[1..] == a[1..] + b;
      OfKindJoin(n, a[1..], b, t);
      var first := if KindOf(n, a[0]) == Some(t) then [a[0]] else [];
      assert first + (OfKind(n, a[1..], t) + OfKind(n, b, t)) == first + OfKind(n, a[1..], t) + OfKind(n, b, t);
    }
  }

  lemma {:induction false} OfKindOfRun(n: Nfa, ids: seq<nat>, t: TransitionType, k: Option<TransitionType>)
    requires forall i :: 0 <= i < |ids| ==> KindOf(n, ids[i]) == k
    ensures OfKind(n, ids, t) == if k == Some(t) then ids else []
  {
    if ids != [] {
      OfKindOfRun(n, ids[1..], t, k);
      assert ids == [ids[0]] + ids[1..];
    }
  }

  lemma AscendingSplit(ids: seq<nat>, k: nat)
    requires Ascending(ids) && k <= |ids|
    ensures Ascending(ids[..k]) && Ascending(ids[k..])
    ensures forall x, y :: x in ids[..k] && y in ids[k..] ==> x < y
  {
  }

  // ----- lists of states by type, of which the least heads are taken

  /** Each list holds the states left of one type; together they hold all. */
  ghost predicate Queues(n: Nfa, ids: seq<nat>, lists: seq<seq<nat>>, kinds: seq<TransitionType>) {
    && Ascending(ids) && |lists| == |kinds|
    && (forall i, j :: 0 <= i < j < |kinds| ==> kinds[i] != kinds[j])
    && (forall j :: 0 <= j < |lists| ==> lists[j] != [] && lists[j] == OfKind(n, ids, kinds[j]))
    && forall x :: x in ids ==> KindOf(n, x).Some? && KindOf(n, x).value in kinds
  }

  /** The first state is the head of the list of its type. */
  lemma HeadOf(n: Nfa, ids: seq<nat>, lists: seq<seq<nat>>, kinds: seq<TransitionType>, j: nat)
    requires Queues(n, ids, lists, kinds) && j < |lists|
    ensures lists[j][0] in ids && KindOf(n, lists[j][0]) == Some(kinds[j])
    ensures ids != [] && lists[j][0] >= ids[0]
    ensures KindOf(n, ids[0]) == Some(kinds[j]) ==> lists[j][0] == ids[0]
  {
    OfKindExactly(n, ids, kinds[j]);
    assert lists[j][0] in lists[j];
  }

  /** Where the run of the first state's type ends. */
  lemma RunInQueues(n: Nfa, ids: seq<nat>, lists: seq<seq<nat>>, kinds: seq<TransitionType>, j: nat)
    requires Queues(n, ids, lists, kinds) && j < |lists|
    ensures ids != []
    ensures var k := RunLength(n, ids);
            && lists[j]
               == (if KindOf(n, ids[0]) == Some(kinds[j]) then ids[..k] else []) + OfKind(n, ids[k..], kinds[j])
            && Ascending(ids[k..])
  {
    HeadOf(n, ids, lists, kinds, j);
    OfKindAfterRun(n, ids, kinds[j]);
    AscendingSplit(ids, RunLength(n, ids));
  }

  lemma OfKindAfterRun(n: Nfa, ids: seq<nat>, t: TransitionType)
    requires ids != []
    ensures var k := RunLength(n, ids);
            OfKind(n, ids, t) == (if KindOf(n, ids[0]) == Some(t) then ids[..k] else []) + OfKind(n, ids[k..], t)
  {
    var k := RunLength(n, ids);
    assert ids == ids[..k] + ids[k..];
    OfKindJoin(n, ids[..k], ids[k..], t);
    OfKindOfRun(n, ids[..k], t, KindOf(n, ids[0]));
  }

  /** The least head of the other lists is where the run ends. */
  lemma RunEndsAtNext(n: Nfa, ids: seq<nat>, lists: seq<seq<nat>>, kinds: seq<TransitionType>, first: nat, second: nat)
    requires Queues(n, ids, lists, kinds) && first < |lists| && second < |lists| && first != second
    requires forall j :: 0 <= j < |lists| ==> lists[first][0] <= lists[j][0]
    requires forall j :: 0 <= j < |lists| && j != first ==> lists[second][0] <= lists[j][0]
    ensures ids != [] && KindOf(n, ids[0]) == Some(kinds[first])
    ensures RunLength(n, ids) < |ids| && lists[second][0] == ids[RunLength(n, ids)]
  {
    FirstIsLeast(n, ids, lists, kinds, first);
    var k := RunLength(n, ids);
    RunInQueues(n, ids, lists, kinds, second);
    assert kinds[first] != kinds[second];
    OfKindExactly(n, ids[k..], kinds[second]);
    assert lists[second][0] in lists[second];
    assert lists[second][0] in ids[k..];
    var x := ids[k];
    assert x in ids && KindOf(n, x).value in kinds;
    var j :| 0 <= j < |kinds| && kinds[j] == KindOf(n, x).value;
    RunInQueues(n, ids, lists, kinds, j);
    assert OfKind(n, ids[k..], kinds[j])[0] == x by {
      assert ids[k..][0] == x;
    }
    assert forall y :: y in ids[k..] ==> x <= y;
  }

  lemma FirstIsLeast(n: Nfa, ids: seq<nat>, lists: seq<seq<nat>>, kinds: seq<TransitionType>, first: nat)
    requires Queues(n, ids, lists, kinds) && first < |lists|
    requires forall j :: 0 <= j < |lists| ==> lists[first][0] <= lists[j][0]
    ensures ids != [] && KindOf(n, ids[0]) == Some(kinds[first])
  {
    HeadOf(n, ids, lists, kinds, first);
    assert ids[0] in ids && KindOf(n, ids[0]).value in kinds;
    var j :| 0 <= j < |kinds| && kinds[j] == KindOf(n, ids[0]).value;
    HeadOf(n, ids, lists, kinds, j);
  }

  function Without<T>(s: seq<T>, i: nat): seq<T>
    requires i < |s|
  {
    s[..i] + s[i + 1..]
  }

  lemma OthersStay(n: Nfa, ids: seq<nat>, lists: seq<seq<nat>>, kinds: seq<TransitionType>, first: nat)
    requires Queues(n, ids, lists, kinds) && first < |lists| && ids != [] && KindOf(n, ids[0]) == Some(kinds[first])
    ensures var left := ids[RunLength(n, ids)..];
            Ascending(left) && forall j :: 0 <= j < |lists| && j != first ==> lists[j] == OfKind(n, left, kinds[j])
  {
    AscendingSplit(ids, RunLength(n, ids));
    forall j | 0 <= j < |lists| && j != first
      ensures lists[j] == OfKind(n, ids[RunLength(n, ids)..], kinds[j])
    {
      RunInQueues(n, ids, lists, kinds, j);
      assert kinds[j] != kinds[first];
      assert lists[j] == [] + OfKind(n, ids[RunLength(n, ids)..], kinds[j]);
    }
  }

  lemma KindsWithout(n: Nfa, left: seq<nat>, kinds: seq<TransitionType>, first: nat)
    requires first < |kinds| && OfKind(n, left, kinds[first]) == []
    requires forall x :: x in left ==> KindOf(n, x).Some? && KindOf(n, x).value in kinds
    ensures forall x :: x in left ==> KindOf(n, x).Some? && KindOf(n, x).value in Without(kinds, first)
  {
    OfKindExactly(n, left, kinds[first]);
    forall x | x in left
      ensures KindOf(n, x).value in Without(kinds, first)
    {
      var j :| 0 <= j < |kinds| && kinds[j] == KindOf(n, x).value;
      assert j < first ==> Without(kinds, first)[j] == kinds[j];
      assert j > first ==> Without(kinds, first)[j - 1] == kinds[j];
    }
  }

  lemma DistinctWithout(kinds: seq<TransitionType>, first: nat)
    requires first < |kinds| && forall i, j :: 0 <= i < j < |kinds| ==> kinds[i] != kinds[j]
    ensures var fewer := Without(kinds, first); forall i, j :: 0 <= i < j < |fewer| ==> fewer[i] != fewer[j]
  {
  }

  /** Taking the run of the first state's type leaves the queues of the rest. */
  lemma QueuesLeft(n: Nfa, ids: seq<nat>, lists: seq<seq<nat>>, kinds: seq<TransitionType>, first: nat, rest: seq<nat>)
    requires Queues(n, ids, lists, kinds) && first < |lists| && ids != [] && KindOf(n, ids[0]) == Some(kinds[first])
    requires rest == OfKind(n, ids[RunLength(n, ids)..], kinds[first])
    ensures var left := ids[RunLength(n, ids)..];
            if rest != [] then Queues(n, left, lists[first := rest], kinds)
            else Queues(n, left, Without(lists, first), Without(kinds, first))
  {
    var left := ids[RunLength(n, ids)..];
    OthersStay(n, ids, lists, kinds, first);
    forall x | x in left
      ensures KindOf(n, x).Some? && KindOf(n, x).value in kinds
    {
      assert x in ids;
    }
    if rest == [] {
      KindsWithout(n, left, kinds, first);
      DistinctWithout(kinds, first);
      QueuesWithout(n, left, lists, kinds, first);
    }
  }

  lemma QueuesWithout(n: Nfa, left: seq<nat>, lists: seq<seq<nat>>, kinds: seq<TransitionType>, first: nat)
    requires |lists| == |kinds| && first < |lists|
    requires forall j :: 0 <= j < |lists| && j != first ==> lists[j] != [] && lists[j] == OfKind(n, left, kinds[j])
    ensures var fewer, fewerKinds := Without(lists, first), Without(kinds, first);
            |fewer| == |fewerKinds| && forall j :: 0 <= j < |fewer| ==>
              fewer[j] != [] && fewer[j] == OfKind(n, left, fewerKinds[j])
  {
  }

  /** The list of the first type, cut where the run ends. */
  lemma CutAtRun(n: Nfa, ids: seq<nat>, lists: seq<seq<nat>>, kinds: seq<TransitionType>, first: nat,
                 taken: seq<nat>, rest: seq<nat>, end: nat)
    requires Queues(n, ids, lists, kinds) && first < |lists| && ids != [] && KindOf(n, ids[0]) == Some(kinds[first])
    requires RunLength(n, ids) < |ids| && end == ids[RunLength(n, ids)]
    requires lists[first] == taken + rest && (forall x :: x in taken ==> x <= end) && (rest != [] ==> rest[0] > end)
    ensures taken == ids[..RunLength(n, ids)] && rest == OfKind(n, ids[RunLength(n, ids)..], kinds[first])
  {
    var k := RunLength(n, ids);
    RunInQueues(n, ids, lists, kinds, first);
    var later := OfKind(n, ids[k..], kinds[first]);
    OfKindExactly(n, ids[k..], kinds[first]);
    forall x | x in later
      ensures x > end
    {
      assert x in ids[k..] && x != end;
      var i :| k <= i < |ids| && ids[i] == x;
    }
    assert forall x :: x in ids[..k] ==> x < end;
    SplitIsUnique(taken, rest, ids[..k], later, end);
  }

  lemma ConcatAt(a: seq<nat>, b: seq<nat>, m: nat)
    requires m <= |a| && m < |a| + |b|
    ensures if m < |a| then (a + b)[m] in a else (a + b)[m] == b[0] && b[0] in b
  {
    if m < |a| {
      assert (a + b)[m] == a[m];
    }
  }

  lemma SplitIsUnique(a: seq<nat>, b: seq<nat>, a': seq<nat>, b': seq<nat>, end: nat)
    requires a + b == a' + b'
    requires (forall x :: x in a ==> x <= end) && (b != [] ==> b[0] > end)
    requires (forall x :: x in a' ==> x <= end) && (forall x :: x in b' ==> x > end)
    ensures a == a' && b == b'
  {
    var m := if |a| < |a'| then |a| else |a'|;
    if m < |a| + |b| {
      ConcatAt(a, b, m);
      ConcatAt(a', b', m);
    }
    assert |a| == |a'|;
    assert a == (a + b)[..|a|] && a' == (a' + b')[..|a'|];
    assert b == (a + b)[|a|..] && b' == (a' + b')[|a'|..];
  }

  /** All that is left is of one type. */
  lemma LastRun(n: Nfa, ids: seq<nat>, lists: seq<seq<nat>>, kinds: seq<TransitionType>)
    requires Queues(n, ids, lists, kinds) && |lists| == 1
    ensures ids != [] && lists[0] == ids && Runs(n, ids) == [ids]
  {
    HeadOf(n, ids, lists, kinds, 0);
    forall i | 0 <= i < |ids|
      ensures KindOf(n, ids[i]) == Some(kinds[0])
    {
      assert ids[i] in ids;
    }
    OfKindOfRun(n, ids, kinds[0], Some(kinds[0]));
    OneRun(n, ids);
  }

  lemma OneRun(n: Nfa, ids: seq<nat>)
    requires ids != [] && forall i :: 0 <= i < |ids| ==> KindOf(n, ids[i]) == KindOf(n, ids[0])
    ensures Runs(n, ids) == [ids]
  {
    assert RunLength(n, ids) == |ids| && ids[..|ids|] == ids && ids[|ids|..] == [];
    assert Runs(n, []) == [];
  }

  lemma NoQueues(n: Nfa, ids: seq<nat>, lists: seq<seq<nat>>, kinds: seq<TransitionType>)
    requires Queues(n, ids, lists, kinds)
    ensures ids != [] ==> lists != []
  {
    if ids != [] {
      assert ids[0] in ids;
    }
  }

  // ----- the loop

  /** The list with the least head, and the one with the next. */
  method LeastHeads(lists: seq<seq<nat>>) returns (first: nat, second: nat)
    requires |lists| > 1 && forall j :: 0 <= j < |lists| ==> lists[j] != []
    ensures first < |lists| && second < |lists| && first != second
    ensures forall j :: 0 <= j < |lists| ==> lists[first][0] <= lists[j][0]
    ensures forall j :: 0 <= j < |lists| && j != first ==> lists[second][0] <= lists[j][0]
  {
    first, second := if lists[0][0] <= lists[1][0] then 0 else 1, if lists[0][0] <= lists[1][0] then 1 else 0;
    for i := 2 to |lists|
      invariant first < i && second < i && first != second
      invariant forall j :: 0 <= j < i ==> lists[first][0] <= lists[j][0]
      invariant forall j :: 0 <= j < i && j != first ==> lists[second][0] <= lists[j][0]
    {
      if lists[i][0] < lists[first][0] {
        first, second := i, first;
      } else if lists[i][0] < lists[second][0] {
        second := i;
      }
    }
  }

  /** The ids of a list up to a bound. */
  method TakeUpTo(list: seq<nat>, bound: nat) returns (taken: seq<nat>, rest: seq<nat>)
    ensures list == taken + rest && (forall x :: x in taken ==> x <= bound) && (rest != [] ==> rest[0] > bound)
  {
    taken, rest := [], list;
    while rest != [] && rest[0] <= bound
      invariant list == taken + rest && forall x :: x in taken ==> x <= bound
      decreases |rest|
    {
      taken, rest := taken + [rest[0]], rest[1..];
    }
  }

  /** The groups are the runs of the states that are left. */
  method SplitLists(n: Nfa, ghost ids: seq<nat>, lists: seq<seq<nat>>, ghost kinds: seq<TransitionType>)
    returns (groups: seq<seq<nat>>)
    requires Queues(n, ids, lists, kinds)
    ensures groups == Runs(n, ids)
  {
    groups := [];
    var left := lists;
    ghost var rest, restKinds := ids, kinds;
    while left != []
      invariant Queues(n, rest, left, restKinds) && groups + Runs(n, rest) == Runs(n, ids)
      decreases |rest|
    {
      if |left| > 1 {
        ghost var before := rest;
        var group;
        group, left, rest, restKinds := TakeGroup(n, rest, left, restKinds);
        assert groups + ([group] + Runs(n, rest)) == groups + [group] + Runs(n, rest);
        groups := groups + [group];
      } else {
        LastRun(n, rest, left, restKinds);
        groups := groups + [left[0]];
        left, rest, restKinds := [], [], [];
        assert Runs(n, rest) == [];
      }
    }
    NoQueues(n, rest, left, restKinds);
    assert Runs(n, rest) == [];
  }

  /** One group: the states of the first list, as long as no other list has a lower one. */
  method TakeGroup(n: Nfa, ghost ids: seq<nat>, lists: seq<seq<nat>>, ghost kinds: seq<TransitionType>)
    returns (group: seq<nat>, left: seq<seq<nat>>, ghost rest: seq<nat>, ghost restKinds: seq<TransitionType>)
    requires Queues(n, ids, lists, kinds) && |lists| > 1
    ensures Queues(n, rest, left, restKinds) && |rest| < |ids| && Runs(n, ids) == [group] + Runs(n, rest)
  {
    var first, second := LeastHeads(lists);
    RunEndsAtNext(n, ids, lists, kinds, first, second);
    var more;
    group, more := TakeUpTo(lists[first], lists[second][0]);
    CutAtRun(n, ids, lists, kinds, first, group, more, lists[second][0]);
    QueuesLeft(n, ids, lists, kinds, first, more);
    rest := ids[RunLength(n, ids)..];
    if more != [] {
      left, restKinds := lists[first := more], kinds;
    } else {
      left, restKinds := Without(lists, first), Without(kinds, first);
    }
  }

  // ----- gathering the lists

  lemma {:induction false} FirstKindAt(transitions: seq<NfaTransition>, j: nat)
    requires j < |transitions| && transitions[j].kind.Some?
    requires forall i :: 0 <= i < |transitions| && i != j ==> transitions[i].kind.None?
    ensures FirstKind(transitions) == transitions[j].kind
  {
    if j > 0 {
      FirstKindAt(transitions[1..], j - 1);
    }
  }

  lemma {:induction false} NoKind(transitions: seq<NfaTransition>)
    requires forall i :: 0 <= i < |transitions| ==> transitions[i].kind.None?
    ensures FirstKind(transitions) == None
  {
    if transitions != [] {
      NoKind(transitions[1..]);
    }
  }

  /** The lists by type, of the states gone through so far. */
  ghost predicate Gathered(n: Nfa, ids: seq<nat>, conflicts: set<TransitionType>, lists: map<TransitionType, seq<nat>>)
  {
    && (forall t :: t in lists ==> t in conflicts && lists[t] != [] && lists[t] == OfKind(n, ids, t))
    && forall x :: x in ids && KindOf(n, x).Some? && KindOf(n, x).value in conflicts ==> KindOf(n, x).value in lists
  }

  function Push(lists: map<TransitionType, seq<nat>>, t: TransitionType, id: nat): map<TransitionType, seq<nat>> {
    lists[t := (if t in lists then lists[t] else []) + [id]]
  }

  lemma OfKindSnoc(n: Nfa, ids: seq<nat>, id: nat, t: TransitionType)
    ensures OfKind(n, ids + [id], t) == OfKind(n, ids, t) + if KindOf(n, id) == Some(t) then [id] else []
  {
    OfKindJoin(n, ids, [id], t);
    OfKindFirst(n, [id], t);
    assert [id][1..] == [];
  }

  lemma NotListed(n: Nfa, ids: seq<nat>, conflicts: set<TransitionType>, lists: map<TransitionType, seq<nat>>,
                  t: TransitionType)
    requires Gathered(n, ids, conflicts, lists) && t in conflicts
    ensures OfKind(n, ids, t) != [] ==> t in lists
  {
    OfKindExactly(n, ids, t);
    if OfKind(n, ids, t) != [] {
      assert OfKind(n, ids, t)[0] in OfKind(n, ids, t);
    }
  }

  lemma GatheredMore(n: Nfa, ids: seq<nat>, conflicts: set<TransitionType>, lists: map<TransitionType, seq<nat>>,
                     id: nat)
    requires Gathered(n, ids, conflicts, lists)
    ensures var kind := KindOf(n, id);
            Gathered(n, ids + [id], conflicts,
                     if kind.Some? && kind.value in conflicts then Push(lists, kind.value, id) else lists)
  {
    var kind := KindOf(n, id);
    var more := if kind.Some? && kind.value in conflicts then Push(lists, kind.value, id) else lists;
    if kind.Some? && kind.value in conflicts && kind.value !in lists {
      NotListed(n, ids, conflicts, lists, kind.value);
    }
    forall t | t in more
      ensures t in conflicts && more[t] != [] && more[t] == OfKind(n, ids + [id], t)
    {
      OfKindSnoc(n, ids, id, t);
    }
  }

  /** Goes through the states in order and lists those with a conflicting
      transition under its type. */
  method Gather(n: Nfa, ids: seq<nat>, conflicts: set<TransitionType>) returns (lists: map<TransitionType, seq<nat>>)
    requires OneTypedEach(n) && forall i :: 0 <= i < |ids| ==> ids[i] < |n|
    ensures Gathered(n, ids, conflicts, lists)
  {
    lists := map[];
    for i := 0 to |ids|
      invariant Gathered(n, ids[..i], conflicts, lists)
    {
      assert ids[..i + 1] == ids[..i] + [ids[i]];
      GatheredMore(n, ids[..i], conflicts, lists, ids[i]);
      lists := GatherState(n, ids[i], conflicts, lists);
    }
    assert ids[..|ids|] == ids;
  }

  method GatherState(n: Nfa, id: nat, conflicts: set<TransitionType>, before: map<TransitionType, seq<nat>>)
    returns (lists: map<TransitionType, seq<nat>>)
    requires OneTypedEach(n) && id < |n|
    ensures var kind := KindOf(n, id);
            lists == if kind.Some? && kind.value in conflicts then Push(before, kind.value, id) else before
  {
    lists := before;
    ghost var typed := -1;
    for j := 0 to |n[id]|
      invariant typed == -1 ==> lists == before && forall k :: 0 <= k < j ==> n[id][k].kind.None?
      invariant typed != -1 ==> 0 <= typed < j && n[id][typed].kind.Some?
                                && var t := n[id][typed].kind.value;
                                   lists == if t in conflicts then Push(before, t, id) else before
    {
      if n[id][j].kind.Some? {
        assert typed == -1;
        typed := j;
        if n[id][j].kind.value in conflicts {
          lists := Push(lists, n[id][j].kind.value, id);
        }
      }
    }
    if typed == -1 {
      NoKind(n[id]);
    } else {
      FirstKindAt(n[id], typed);
    }
  }

  lemma {:induction false} ConflictingMembers(n: Nfa, ids: seq<nat>, conflicts: set<TransitionType>)
    ensures forall x ::
              x in Conflicting(n, ids, conflicts) <==> x in ids && KindOf(n, x).Some? && KindOf(n, x).value in conflicts
  {
    if ids != [] {
      ConflictingMembers(n, ids[1..], conflicts);
    }
  }

  lemma {:induction false} ConflictingAscends(n: Nfa, ids: seq<nat>, conflicts: set<TransitionType>)
    requires Ascending(ids)
    ensures Ascending(Conflicting(n, ids, conflicts))
  {
    if ids != [] {
      ConflictingAscends(n, ids[1..], conflicts);
      ConflictingMembers(n, ids[1..], conflicts);
      AscendingSplit(ids, 1);
      assert ids[..1][0] == ids[0] && ids[0] in ids[..1];
      FrontAscends(ids[0], Conflicting(n, ids[1..], conflicts));
    }
  }

  lemma FrontAscends(x: nat, ids: seq<nat>)
    requires Ascending(ids) && forall y :: y in ids ==> x < y
    ensures Ascending([x] + ids) && Ascending([] + ids)
  {
    forall j | 0 <= j < |ids|
      ensures x < ids[j]
    {
      assert ids[j] in ids;
    }
  }

  lemma {:induction false} ConflictingOfKind(n: Nfa, ids: seq<nat>, conflicts: set<TransitionType>, t: TransitionType)
    requires t in conflicts
    ensures OfKind(n, Conflicting(n, ids, conflicts), t) == OfKind(n, ids, t)
  {
    if ids != [] {
      var some, rest := Conflicting(n, ids, conflicts), Conflicting(n, ids[1..], conflicts);
      var first := if KindOf(n, ids[0]).Some? && KindOf(n, ids[0]).value in conflicts then [ids[0]] else [];
      assert some == first + rest;
      ConflictingOfKind(n, ids[1..], conflicts, t);
      OfKindJoin(n, first, rest, t);
      OfKindOfRun(n, first, t, KindOf(n, ids[0]));
      OfKindFirst(n, ids, t);
    }
  }

  /** The groups that a conflict is split into: the conflicting states merged by
      priority, cut where the transition type changes. */
  method SplitTokens(n: Nfa, ids: seq<nat>, conflicts: set<TransitionType>) returns (groups: seq<seq<nat>>)
    requires OneTypedEach(n) && Ascending(ids) && forall i :: 0 <= i < |ids| ==> ids[i] < |n|
    ensures groups == Runs(n, Conflicting(n, ids, conflicts))
  {
    var byKind := Gather(n, ids, conflicts);
    ghost var some := Conflicting(n, ids, conflicts);
    ConflictingMembers(n, ids, conflicts);
    ConflictingAscends(n, ids, conflicts);
    forall t | t in conflicts
      ensures OfKind(n, some, t) == OfKind(n, ids, t)
    {
      ConflictingOfKind(n, ids, conflicts, t);
    }
    var lists;
    ghost var kinds;
    lists, kinds := Values(byKind);
    groups := SplitLists(n, some, lists, kinds);
  }

  /** The lists of a map, in any order. */
  method Values(byKind: map<TransitionType, seq<nat>>) returns (lists: seq<seq<nat>>, ghost kinds: seq<TransitionType>)
    ensures |lists| == |kinds| && forall i, j :: 0 <= i < j < |kinds| ==> kinds[i] != kinds[j]
    ensures forall j :: 0 <= j < |lists| ==> kinds[j] in byKind && lists[j] == byKind[kinds[j]]
    ensures forall t :: t in byKind ==> t in kinds
  {
    lists, kinds := [], [];
    var rest := byKind.Keys;
    while rest != {}
      invariant rest <= byKind.Keys && |lists| == |kinds|
      invariant forall i, j :: 0 <= i < j < |kinds| ==> kinds[i] != kinds[j]
      invariant forall j :: 0 <= j < |lists| ==> kinds[j] in byKind && kinds[j] !in rest && lists[j] == byKind[kinds[j]]
      invariant forall t :: t in byKind ==> t in kinds || t in rest
      decreases rest
    {
      var t :| t in rest;
      rest := rest - {t};
      lists, kinds := lists + [byKind[t]], kinds + [t];
    }
  }
}
