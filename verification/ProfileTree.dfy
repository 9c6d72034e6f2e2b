/** The tree of a profile: spans with the same name under the same parent are put
    together, in place, and what was spent on each path stays what it was. */
module ProfileTree {

  datatype Node = Node(name: string, count: nat, duration: nat, children: seq<Node>)

  // ----- names in order

  predicate Less(a: string, b: string) {
    b != [] && (a == [] || a[0] < b[0] || (a[0] == b[0] && Less(a[1..], b[1..])))
  }

  lemma {:induction false} LessIsTotal(a: string, b: string)
    ensures Less(a, b) || a == b || Less(b, a)
  {
    if a != [] && b != [] && a[0] == b[0] {
      LessIsTotal(a[1..], b[1..]);
      if a[1..] == b[1..] {
        assert a == [a[0]] + a[1..] && b == [b[0]] + b[1..];
      }
    }
  }

  lemma {:induction false} LessIsTransitive(a: string, b: string, c: string)
    requires Less(a, b) && Less(b, c)
    ensures Less(a, c)
  {
    if a != [] && a[0] == b[0] && b[0] == c[0] {
      LessIsTransitive(a[1..], b[1..], c[1..]);
    }
  }

  lemma {:induction false} LessIsStrict(a: string)
    ensures !Less(a, a)
  {
    if a != [] {
      LessIsStrict(a[1..]);
    }
  }

  predicate AtMost(a: string, b: string) {
    a == b || Less(a, b)
  }

  ghost predicate Ascending(ns: seq<Node>) {
    forall i, j :: 0 <= i < j < |ns| ==> AtMost(ns[i].name, ns[j].name)
  }

  ghost predicate StrictlyAscending(ns: seq<Node>) {
    forall i, j :: 0 <= i < j < |ns| ==> Less(ns[i].name, ns[j].name)
  }

  // ----- what is spent on a path

  datatype Spent = Spent(count: nat, duration: nat) {
    function Plus(other: Spent): Spent {
      Spent(count + other.count, duration + other.duration)
    }
  }

  /** The totals of all nodes that a path of names leads to. */
  function SpentOn(ns: seq<Node>, path: seq<string>): Spent
    decreases |path|, ns
  {
    if ns == [] || path == [] then Spent(0, 0) else SpentBy(ns[0], path).Plus(SpentOn(ns[1..], path))
  }

  function SpentBy(n: Node, path: seq<string>): Spent
    requires path != []
    decreases |path|, n
  {
    if n.name != path[0] then Spent(0, 0)
    else if |path| == 1 then Spent(n.count, n.duration)
    else SpentOn(n.children, path[1..])
  }

  lemma SpentFirst(ns: seq<Node>, path: seq<string>)
    requires ns != [] && path != []
    ensures SpentOn(ns, path) == SpentBy(ns[0], path).Plus(SpentOn(ns[1..], path))
  {
  }

  lemma {:induction false} SpentJoin(a: seq<Node>, b: seq<Node>, path: seq<string>)
    ensures SpentOn(a + b, path) == SpentOn(a, path).Plus(SpentOn(b, path))
    decreases |a|
  {
    if path == [] {
    } else if a == [] {
      assert a + b == b;
    } else {
      var ab := a + b;
      assert ab[0] == a[0] && ab[1..] == a[1..] + b;
      SpentFirst(ab, path);
      SpentFirst(a, path);
      SpentJoin(a[1..], b, path);
      PlusIsAssociative(SpentBy(a[0], path), SpentOn(a[1..], path), SpentOn(b, path));
    }
  }

  lemma PlusIsAssociative(x: Spent, y: Spent, z: Spent)
    ensures x.Plus(y.Plus(z)) == x.Plus(y).Plus(z)
    ensures x.Plus(y) == y.Plus(x)
  {
  }

  lemma SpentOnOne(n: Node, path: seq<string>)
    requires path != []
    ensures SpentOn([n], path) == SpentBy(n, path)
  {
    assert [n][1..] == [];
  }

  /** The same is spent on every path. */
  ghost predicate SameSpent(a: seq<Node>, b: seq<Node>) {
    forall path :: SpentOn(a, path) == SpentOn(b, path)
  }

  /** Two nodes of the same name put together. */
  function Merged(a: Node, b: Node): Node {
    Node(a.name, a.count + b.count, a.duration + b.duration, a.children + b.children)
  }

  lemma MergedSpends(a: Node, b: Node, path: seq<string>)
    requires a.name == b.name && path != []
    ensures SpentBy(Merged(a, b), path) == SpentBy(a, path).Plus(SpentBy(b, path))
  {
    var m := Merged(a, b);
    if m.name == path[0] && |path| > 1 {
      assert m.children == a.children + b.children;
      SpentJoin(a.children, b.children, path[1..]);
    }
  }

  // ----- sizes, for termination

  function Size(n: Node): nat
    decreases n, 1
  {
    1 + SizeAll(n.children)
  }

  function SizeAll(ns: seq<Node>): nat
    decreases ns, 0
  {
    if ns == [] then 0 else Size(ns[0]) + SizeAll(ns[1..])
  }

  lemma {:induction false} SizeJoin(a: seq<Node>, b: seq<Node>)
    ensures SizeAll(a + b) == SizeAll(a) + SizeAll(b)
  {
    if a == [] {
      assert a + b == b;
    } else {
      assert (a + b)[1..] == a[1..] + b;
      SizeJoin(a[1..], b);
    }
  }

  lemma SizeOfOne(n: Node)
    ensures SizeAll([n]) == Size(n)
  {
    assert [n][1..] == [];
  }

  lemma {:induction false} SizeOfEach(ns: seq<Node>, i: nat)
    requires i < |ns|
    ensures Size(ns[i]) <= SizeAll(ns)
  {
    if i > 0 {
      SizeOfEach(ns[1..], i - 1);
    }
  }

  // ----- sorting

  /** Puts a node before the first one with a greater name. */
  function InsertSorted(n: Node, ns: seq<Node>): (r: seq<Node>)
    ensures |r| == |ns| + 1
  {
    if ns == [] || Less(n.name, ns[0].name) then [n] + ns else [ns[0]] + InsertSorted(n, ns[1..])
  }

  /** A stable sort by name. */
  function SortByName(ns: seq<Node>): (r: seq<Node>)
    ensures |r| == |ns|
  {
    if ns == [] then [] else InsertSorted(ns[|ns| - 1], SortByName(ns[..|ns| - 1]))
  }

  lemma {:induction false} InsertedSpends(n: Node, ns: seq<Node>, path: seq<string>)
    requires path != []
    ensures SpentOn(InsertSorted(n, ns), path) == SpentBy(n, path).Plus(SpentOn(ns, path))
    decreases |ns|
  {
    var r := InsertSorted(n, ns);
    SpentFirst(r, path);
    if ns == [] || Less(n.name, ns[0].name) {
      assert r[0] == n && r[1..] == ns;
    } else {
      assert r[0] == ns[0] && r[1..] == InsertSorted(n, ns[1..]);
      SpentFirst(ns, path);
      InsertedSpends(n, ns[1..], path);
      PlusIsAssociative(SpentBy(ns[0], path), SpentBy(n, path), SpentOn(ns[1..], path));
      PlusIsAssociative(SpentBy(n, path), SpentBy(ns[0], path), SpentOn(ns[1..], path));
    }
  }

  lemma {:induction false} InsertedSorted(n: Node, ns: seq<Node>)
    requires Ascending(ns)
    ensures Ascending(InsertSorted(n, ns)) && SizeAll(InsertSorted(n, ns)) == Size(n) + SizeAll(ns)
    ensures forall i :: 0 <= i < |ns| + 1 ==> InsertSorted(n, ns)[i] == n || InsertSorted(n, ns)[i] in ns
  {
    var r := InsertSorted(n, ns);
    if ns == [] || Less(n.name, ns[0].name) {
      assert r[1..] == ns;
      forall j | 0 < j < |r|
        ensures AtMost(n.name, r[j].name)
      {
        if ns[0].name != r[j].name {
          assert r[j] == ns[j - 1];
          LessIsTransitive(n.name, ns[0].name, r[j].name);
        }
      }
      FrontAscending(n, ns);
    } else {
      InsertedSorted(n, ns[1..]);
      LessIsTotal(n.name, ns[0].name);
      var rest := InsertSorted(n, ns[1..]);
      assert r[1..] == rest;
      forall j | 0 <= j < |rest|
        ensures AtMost(ns[0].name, rest[j].name) && rest[j] in [n] + ns
      {
        if rest[j] != n {
          assert rest[j] in ns[1..];
          var k :| 0 <= k < |ns| - 1 && ns[1..][k] == rest[j];
          assert ns[k + 1] == rest[j];
        }
      }
      FrontAscending(ns[0], rest);
    }
  }

  lemma FrontAscending(n: Node, ns: seq<Node>)
    requires Ascending(ns) && forall j :: 0 <= j < |ns| ==> AtMost(n.name, ns[j].name)
    ensures Ascending([n] + ns)
  {
  }

  lemma {:induction false} SortedByName(ns: seq<Node>)
    ensures Ascending(SortByName(ns)) && SizeAll(SortByName(ns)) == SizeAll(ns)
    decreases |ns|
  {
    if ns != [] {
      var front, last := ns[..|ns| - 1], ns[|ns| - 1];
      SortedByName(front);
      InsertedSorted(last, SortByName(front));
      assert ns == front + [last];
      SizeJoin(front, [last]);
      SizeOfOne(last);
    }
  }

  lemma SpentSnoc(ns: seq<Node>, n: Node, path: seq<string>)
    requires path != []
    ensures SpentOn(ns + [n], path) == SpentOn(ns, path).Plus(SpentBy(n, path))
  {
    SpentJoin(ns, [n], path);
    SpentOnOne(n, path);
  }

  lemma {:induction false} SortedSpends(ns: seq<Node>, path: seq<string>)
    ensures SpentOn(SortByName(ns), path) == SpentOn(ns, path)
    decreases |ns|
  {
    if ns != [] && path != [] {
      var front, last := ns[..|ns| - 1], ns[|ns| - 1];
      SortedSpends(front, path);
      InsertedSpends(last, SortByName(front), path);
      SpentOfLast(ns, path);
      PlusIsAssociative(SpentBy(last, path), SpentOn(front, path), Spent(0, 0));
    }
  }

  lemma SpentOfLast(ns: seq<Node>, path: seq<string>)
    requires ns != [] && path != []
    ensures SpentOn(ns, path) == SpentOn(ns[..|ns| - 1], path).Plus(SpentBy(ns[|ns| - 1], path))
  {
    assert ns == ns[..|ns| - 1] + [ns[|ns| - 1]];
    SpentSnoc(ns[..|ns| - 1], ns[|ns| - 1], path);
  }

  // ----- putting nodes together

  /** One more of the same name, or one with a greater name. */
  lemma MergedMore(front: seq<Node>, a: Node, c: Node, path: seq<string>)
    requires a.name == c.name && path != []
    ensures SpentOn(front + [Merged(a, c)], path) == SpentOn(front + [a], path).Plus(SpentBy(c, path))
  {
    SpentSnoc(front, Merged(a, c), path);
    SpentSnoc(front, a, path);
    MergedSpends(a, c, path);
    PlusIsAssociative(SpentOn(front, path), SpentBy(a, path), SpentBy(c, path));
  }

  lemma MergedSize(front: seq<Node>, a: Node, c: Node)
    ensures SizeAll(front + [Merged(a, c)]) <= SizeAll(front + [a]) + Size(c)
  {
    SizeJoin(front, [Merged(a, c)]);
    SizeJoin(front, [a]);
    SizeOfOne(a);
    SizeOfOne(Merged(a, c));
    SizeJoin(a.children, c.children);
  }

  /** What the first `i` nodes, sorted, have become. */
  ghost predicate MergedSoFar(sorted: seq<Node>, i: nat, merged: seq<Node>)
    requires 0 < i <= |sorted|
  {
    && merged != [] && StrictlyAscending(merged) && merged[|merged| - 1].name == sorted[i - 1].name
    && SizeAll(merged) <= SizeAll(sorted[..i])
    && SameSpent(sorted[..i], merged)
  }

  lemma SameName(sorted: seq<Node>, i: nat, merged: seq<Node>)
    requires 0 < i < |sorted| && MergedSoFar(sorted, i, merged) && merged[|merged| - 1].name == sorted[i].name
    ensures var front, last := merged[..|merged| - 1], merged[|merged| - 1];
            MergedSoFar(sorted, i + 1, front + [Merged(last, sorted[i])])
  {
    var front, last := merged[..|merged| - 1], merged[|merged| - 1];
    var more := front + [Merged(last, sorted[i])];
    assert merged == front + [last] && sorted[..i + 1] == sorted[..i] + [sorted[i]];
    MergedSize(front, last, sorted[i]);
    SizeJoin(sorted[..i], [sorted[i]]);
    SizeOfOne(sorted[i]);
    forall path
      ensures SpentOn(sorted[..i + 1], path) == SpentOn(more, path)
    {
      if path != [] {
        assert SpentOn(sorted[..i], path) == SpentOn(merged, path);
        MergedMore(front, last, sorted[i], path);
        SpentSnoc(sorted[..i], sorted[i], path);
      }
    }
  }

  lemma NextName(sorted: seq<Node>, i: nat, merged: seq<Node>)
    requires 0 < i < |sorted| && Ascending(sorted)
    requires MergedSoFar(sorted, i, merged) && merged[|merged| - 1].name != sorted[i].name
    ensures MergedSoFar(sorted, i + 1, merged + [sorted[i]])
  {
    var more := merged + [sorted[i]];
    assert sorted[..i + 1] == sorted[..i] + [sorted[i]];
    assert AtMost(sorted[i - 1].name, sorted[i].name);
    forall k | 0 <= k < |merged|
      ensures Less(merged[k].name, sorted[i].name)
    {
      if k < |merged| - 1 {
        LessIsTransitive(merged[k].name, merged[|merged| - 1].name, sorted[i].name);
      }
    }
    SizeJoin(sorted[..i], [sorted[i]]);
    SizeJoin(merged, [sorted[i]]);
    forall path
      ensures SpentOn(sorted[..i + 1], path) == SpentOn(more, path)
    {
      if path != [] {
        assert SpentOn(sorted[..i], path) == SpentOn(merged, path);
        SpentSnoc(merged, sorted[i], path);
        SpentSnoc(sorted[..i], sorted[i], path);
      }
    }
  }

  const DEFAULT := Node("", 0, 0, [])

  /** Neighbours of the same name become one node, in place. */
  method MergeNeighbours(sorted: seq<Node>) returns (merged: seq<Node>)
    requires sorted != [] && Ascending(sorted)
    ensures StrictlyAscending(merged) && SameSpent(sorted, merged) && SizeAll(merged) <= SizeAll(sorted)
  {
    var children := sorted;
    var idx := 0;
    assert sorted[..1] == [sorted[0]];
    for i := 1 to |children|
      invariant idx < i <= |children| == |sorted|
      invariant children[i..] == sorted[i..]
      invariant MergedSoFar(sorted, i, children[..idx + 1])
    {
      assert children[i] == children[i..][0] == sorted[i];
      ghost var before := children[..idx + 1];
      if children[idx].name == children[i].name {
        SameName(sorted, i, before);
        var child := children[i];
        children := children[i := DEFAULT];
        children := children[idx := Merged(children[idx], child)];
        assert children[..idx + 1] == before[..idx] + [Merged(before[idx], sorted[i])];
      } else {
        NextName(sorted, i, before);
        idx := idx + 1;
        children := children[idx := children[i]][i := children[idx]];
        assert children[..idx + 1] == before + [sorted[i]];
      }
      assert children[i + 1..] == sorted[i..][1..];
    }
    merged := children[..idx + 1];
    assert sorted[..|sorted|] == sorted;
  }

  /** Siblings have strictly ascending names, at every level. */
  ghost predicate Tidy(n: Node)
    decreases n
  {
    StrictlyAscending(n.children) && forall i :: 0 <= i < |n.children| ==> Tidy(n.children[i])
  }

  /** Aggregation leaves what was spent on every path as it was, and makes the
      names of siblings strictly ascending at every level. */
  method Aggregate(n: Node) returns (r: Node)
    ensures r.name == n.name && r.count == n.count && r.duration == n.duration
    ensures SameSpent(n.children, r.children) && Tidy(r)
    decreases Size(n)
  {
    if n.children == [] {
      return n;
    }
    var sorted := SortByName(n.children);
    SortedByName(n.children);
    var children := MergeNeighbours(sorted);
    ghost var merged := children;
    forall path
      ensures SpentOn(n.children, path) == SpentOn(merged, path)
    {
      SortedSpends(n.children, path);
      assert SpentOn(sorted, path) == SpentOn(merged, path);
    }
    for i := 0 to |children|
      invariant |children| == |merged| && forall k :: i <= k < |children| ==> children[k] == merged[k]
      invariant forall k :: 0 <= k < i ==> Tidy(children[k])
      invariant forall k :: 0 <= k < |children| ==> SameNode(merged[k], children[k])
    {
      SizeOfEach(merged, i);
      var child := Aggregate(children[i]);
      children := children[i := child];
    }
    r := n.(children := children);
    forall path
      ensures SpentOn(n.children, path) == SpentOn(children, path)
    {
      if path != [] {
        forall k | 0 <= k < |children|
          ensures SpentBy(merged[k], path) == SpentBy(children[k], path)
        {
          SameNodeSpends(merged[k], children[k], path);
        }
        SameNodesSpend(merged, children, path);
      }
    }
    assert StrictlyAscending(children) by {
      assert forall k :: 0 <= k < |children| ==> SameNode(merged[k], children[k]);
    }
  }

  ghost predicate SameNode(a: Node, b: Node) {
    a.name == b.name && a.count == b.count && a.duration == b.duration && SameSpent(a.children, b.children)
  }

  lemma SameNodeSpends(a: Node, b: Node, path: seq<string>)
    requires SameNode(a, b) && path != []
    ensures SpentBy(a, path) == SpentBy(b, path)
  {
    if a.name == path[0] && |path| > 1 {
      assert SpentOn(a.children, path[1..]) == SpentOn(b.children, path[1..]);
    }
  }

  lemma {:induction false} SameNodesSpend(a: seq<Node>, b: seq<Node>, path: seq<string>)
    requires path != [] && |a| == |b| && forall k :: 0 <= k < |a| ==> SpentBy(a[k], path) == SpentBy(b[k], path)
    ensures SpentOn(a, path) == SpentOn(b, path)
    decreases |a|
  {
    if a != [] {
      var n := |a| - 1;
      var a', b' := a[..n], b[..n];
      forall k | 0 <= k < n
        ensures SpentBy(a'[k], path) == SpentBy(b'[k], path)
      {
        assert a'[k] == a[k] && b'[k] == b[k];
      }
      SameNodesSpend(a', b', path);
      SpentOfLast(a, path);
      SpentOfLast(b, path);
    }
  }
}
