/** What a parsed tree gives to those who walk it: nodes span their leaves, and
    the array is in the order of the source text. */
module ParsedTrees {
  import opened Rules
  import opened Trees
  import opened ReplayBuffer
  import opened Parsing
  import opened Derivations
  import opened Soundness
  import opened Navigation

  /** The tokens come one after the other and end below 2^32. */
  ghost predicate Ordered(tokens: seq<Token>) {
    && (forall i :: 0 <= i < |tokens| ==> tokens[i].EndIndex() < 0x1_0000_0000)
    && forall i, j :: 0 <= i < j < |tokens| ==> tokens[i].EndIndex() <= tokens[j].startIndex
  }

  function FirstLeafStart(t: Tree): nat
    decreases t
  {
    if t.Leaf? || t.children == [] then t.start else FirstLeafStart(t.children[0])
  }

  function LastLeafEnd(t: Tree): nat
    decreases t
  {
    if t.Leaf? || t.children == [] then t.EndIndex() else LastLeafEnd(t.children[|t.children| - 1])
  }

  /** Every node reaches from its first leaf to the end of its last one; only the
      first `zeros` nodes on the leftmost branch start at 0. */
  ghost predicate SpansLeaves(t: Tree, zeros: nat)
    decreases t
  {
    t.Node? ==>
      && t.EndIndex() == LastLeafEnd(t) && t.start == (if zeros > 0 then 0 else FirstLeafStart(t))
      && forall i :: 0 <= i < |t.children| ==> SpansLeaves(t.children[i], if i == 0 && zeros > 0 then zeros - 1 else 0)
  }

  /** How many nodes of one rule the leftmost branch begins with. */
  function ChainLength(d: Deriv): nat
    decreases d
  {
    match d
    case DLeaf(_, _, _) => 0
    case DNode(rule, _, kids) => 1 + if kids != [] && IsOf(kids[0], rule) then ChainLength(kids[0]) else 0
  }

  /** How many nodes of the tree start at 0: the root and those of its rule that the
      leftmost branch goes on with, unless the root may be left out. */
  function Zeros(d: Deriv, zero: bool): nat {
    if zero then ChainLength(d) else 0
  }

  // ----- tokens and the derivations over them

  lemma OrderedSplit(a: seq<Token>, b: seq<Token>)
    requires Ordered(a + b)
    ensures Ordered(a) && Ordered(b)
    ensures a != [] && b != [] ==> a[|a| - 1].EndIndex() <= b[0].startIndex
  {
    var ab := a + b;
    forall i | 0 <= i < |a|
      ensures ab[i] == a[i]
    {
    }
    forall i | 0 <= i < |b|
      ensures ab[|a| + i] == b[i]
    {
    }
    forall i, j | 0 <= i < j < |b|
      ensures b[i].EndIndex() <= b[j].startIndex
    {
      assert ab[|a| + i].EndIndex() <= ab[|a| + j].startIndex;
    }
    if a != [] && b != [] {
      assert ab[|a| - 1].EndIndex() <= ab[|a|].startIndex;
    }
  }

  /** A derivation begins with its first token and ends with its last one. */
  lemma {:induction false} Ends(d: Deriv)
    requires Filled(d)
    ensures Yield(d) != [] && FirstStart(d) == Yield(d)[0].startIndex && End(d) == Yield(d)[|Yield(d)| - 1].EndIndex()
    decreases d
  {
    if d.DNode? {
      var n := |d.kids|;
      Ends(d.kids[0]);
      Ends(d.kids[n - 1]);
      assert d.kids == d.kids[..n - 1] + [d.kids[n - 1]];
      YieldAppend(d.kids[..n - 1], d.kids[n - 1]);
    }
  }

  lemma {:induction false} OrderedEnds(d: Deriv)
    requires Filled(d) && Ordered(Yield(d))
    ensures FirstStart(d) <= End(d) < 0x1_0000_0000
  {
    Ends(d);
    var y := Yield(d);
    if |y| > 1 {
      assert y[0].EndIndex() <= y[|y| - 1].startIndex;
    }
  }

  lemma {:induction false} OrderedKids(ds: seq<Deriv>, i: nat)
    requires i < |ds| && Ordered(YieldAll(ds))
    ensures Ordered(Yield(ds[i]))
    decreases i
  {
    OrderedSplit(Yield(ds[0]), YieldAll(ds[1..]));
    if i > 0 {
      OrderedKids(ds[1..], i - 1);
    }
  }

  // ----- spans

  lemma OnlyKid(d: Deriv)
    requires d.DNode? && |d.kids| == 1
    ensures Yield(d) == Yield(d.kids[0])
  {
    assert YieldAll(d.kids[1..]) == [];
  }

  /** What `CollapsedSpans` says of one derivation. */
  ghost predicate SpansIn(omitted: set<nat>, d: Deriv, zero: bool) {
    var t := Collapse(omitted, d);
    SpansLeaves(t, Zeros(d, zero)) && FirstLeafStart(t) == FirstStart(d) && LastLeafEnd(t) == End(d) == t.EndIndex()
  }

  /** With `zero`, the node is in the tree. */
  predicate MayBeZero(omitted: set<nat>, d: Deriv, zero: bool) {
    zero && d.DNode? ==> d.rule !in omitted
  }

  /** A node that is in the tree spans its leaves if its children do. */
  lemma NodeSpans(omitted: set<nat>, d: Deriv, zero: bool)
    requires Filled(d) && d.DNode? && !(d.rule in omitted && |d.kids| == 1) && Spans(d, zero)
    requires FirstStart(d) <= End(d) < 0x1_0000_0000
    requires forall i :: 0 <= i < |d.kids| ==> SpansIn(omitted, d.kids[i], zero && i == 0 && IsOf(d.kids[i], d.rule))
    ensures SpansIn(omitted, d, zero)
  {
    var ts := CollapseAll(omitted, d.kids);
    forall i | 0 <= i < |d.kids|
      ensures ts[i] == Collapse(omitted, d.kids[i])
      ensures SpansIn(omitted, d.kids[i], zero && i == 0 && IsOf(d.kids[i], d.rule))
    {
      CollapseAllAt(omitted, d.kids, i);
    }
  }

  /** In the tree of a derivation over ordered tokens every node spans its leaves. */
  lemma {:induction false} CollapsedSpans(omitted: set<nat>, d: Deriv, zero: bool)
    requires Filled(d) && Ordered(Yield(d)) && Spans(d, zero) && MayBeZero(omitted, d, zero)
    ensures SpansIn(omitted, d, zero)
    decreases d
  {
    OrderedEnds(d);
    if d.DNode? {
      if d.rule in omitted && |d.kids| == 1 {
        OnlyKid(d);
        KidSpans(d.rule, d.start, d.kids, zero, 0);
        CollapsedSpans(omitted, d.kids[0], false);
      } else {
        forall i | 0 <= i < |d.kids|
          ensures SpansIn(omitted, d.kids[i], zero && i == 0 && IsOf(d.kids[i], d.rule))
        {
          OrderedKids(d.kids, i);
          KidSpans(d.rule, d.start, d.kids, zero, i);
          CollapsedSpans(omitted, d.kids[i], zero && i == 0 && IsOf(d.kids[i], d.rule));
        }
        NodeSpans(omitted, d, zero);
      }
    }
  }

  // ----- types

  /** Rules have types of inner nodes, tokens and keywords those of leaves. */
  ghost predicate Typed(t: Tables, tokens: seq<Token>) {
    && (forall rule :: rule in t.dfas ==> rule >= NODE_START)
    && (forall k :: k in t.keywords ==> t.keywords[k] < NODE_START)
    && (forall terminal :: terminal in t.softKeywords ==> terminal < NODE_START)
    && (forall i :: 0 <= i < |tokens| ==> tokens[i].transition < NODE_START)
  }

  lemma {:induction false} TypedKids(t: Tables, ds: seq<Deriv>, i: nat)
    requires i < |ds| && Typed(t, YieldAll(ds))
    ensures Typed(t, Yield(ds[i]))
    decreases i
  {
    var a, b := Yield(ds[0]), YieldAll(ds[1..]);
    forall k | 0 <= k < |a|
      ensures a[k].transition < NODE_START
    {
      assert (a + b)[k] == a[k];
    }
    forall k | 0 <= k < |b|
      ensures b[k].transition < NODE_START
    {
      assert (a + b)[|a| + k] == b[k];
    }
    if i > 0 {
      TypedKids(t, ds[1..], i - 1);
    }
  }

  lemma {:induction false} CollapsedProper(t: Tables, d: Deriv)
    requires Derives(t, d) && Filled(d) && Typed(t, Yield(d))
    ensures Proper(Collapse(t.omitted, d))
    decreases d
  {
    match d
    case DLeaf(_, _, token) => assert Yield(d)[0] == token;
    case DNode(rule, _, kids) =>
      forall i | 0 <= i < |kids|
        ensures CollapseAll(t.omitted, kids)[i] == Collapse(t.omitted, kids[i]) && Proper(Collapse(t.omitted, kids[i]))
      {
        CollapseAllAt(t.omitted, kids, i);
        TypedKids(t, kids, i);
        CollapsedProper(t, kids[i]);
      }
  }

  // ----- order

  /** No node starts before a leaf further to the front has ended. */
  ghost predicate AfterLeaves(nodes: seq<InternalNode>) {
    forall i, j :: 0 <= i < j < |nodes| && nodes[i].IsLeaf() ==> nodes[i].EndIndex() <= nodes[j].startIndex
  }

  /** In the order of the text, all starting between `lo` and `hi`, and all leaves
      ending at `hi` or before. */
  ghost predicate SortedWithin(nodes: seq<InternalNode>, lo: nat, hi: nat) {
    && Sorted(nodes) && AfterLeaves(nodes)
    && (forall i :: 0 <= i < |nodes| ==> lo <= nodes[i].startIndex <= hi)
    && (forall i :: 0 <= i < |nodes| && nodes[i].IsLeaf() ==> nodes[i].EndIndex() <= hi)
  }

  lemma JoinSorted(a: seq<InternalNode>, b: seq<InternalNode>, lo: nat, mid: nat, mid': nat, hi: nat)
    requires SortedWithin(a, lo, mid) && SortedWithin(b, mid', hi) && lo <= mid <= mid' <= hi
    ensures SortedWithin(a + b, lo, hi)
  {
  }

  lemma NodeSorted(t: Tree, offset: nat, low: nat, hi: nat)
    requires t.Node? && t.type_ >= NODE_START && t.start <= low <= hi && SortedWithin(EncodeAll(t.children), low, hi)
    ensures SortedWithin(Encode(t, offset), t.start, hi)
  {
    JoinSorted([InternalNode(offset, t.type_, t.start, t.length)], EncodeAll(t.children), t.start, t.start, low, hi);
  }

  /** What `CollapsedSorted` says of one derivation. */
  ghost predicate SortedIn(omitted: set<nat>, d: Deriv, zero: bool, offset: nat) {
    var t := Collapse(omitted, d);
    && t.start <= FirstStart(d) && (!zero ==> t.start == FirstStart(d))
    && SortedWithin(Encode(t, offset), t.start, End(d))
  }

  /** A node that is in the tree, its children being sorted from `low` on. */
  lemma BodySorted(omitted: set<nat>, d: Deriv, zero: bool, offset: nat, low: nat)
    requires Filled(d) && d.DNode? && !(d.rule in omitted && |d.kids| == 1) && d.rule >= NODE_START
    requires BodySpans(d.rule, d.start, d.kids, zero)
    requires low <= FirstStart(d.kids[0]) && (!zero ==> low == FirstStart(d.kids[0])) && low <= End(d)
    requires SortedWithin(EncodeAll(CollapseAll(omitted, d.kids)), low, End(d))
    ensures SortedIn(omitted, d, zero, offset)
  {
    NodeSorted(Collapse(omitted, d), offset, low, End(d));
  }

  /** A node left out stands for its only child. */
  lemma OmittedSorted(omitted: set<nat>, d: Deriv, zero: bool, offset: nat)
    requires d.DNode? && d.rule in omitted && |d.kids| == 1
    requires SortedIn(omitted, d.kids[0], false, offset)
    ensures SortedIn(omitted, d, zero, offset)
  {
    assert Collapse(omitted, d) == Collapse(omitted, d.kids[0]) && End(d) == End(d.kids[0]);
  }

  lemma LeafSorted(omitted: set<nat>, d: Deriv, zero: bool, offset: nat)
    requires d.DLeaf?
    ensures SortedIn(omitted, d, zero, offset)
  {
  }

  lemma {:induction false} CollapsedSorted(omitted: set<nat>, d: Deriv, zero: bool, offset: nat)
    requires Filled(d) && Ordered(Yield(d)) && Spans(d, zero) && Proper(Collapse(omitted, d))
             && MayBeZero(omitted, d, zero)
    ensures SortedIn(omitted, d, zero, offset)
    decreases d, 1
  {
    if d.DLeaf? {
      LeafSorted(omitted, d, zero, offset);
    } else if d.rule in omitted && |d.kids| == 1 {
      OnlyKid(d);
      KidSpans(d.rule, d.start, d.kids, zero, 0);
      CollapsedSorted(omitted, d.kids[0], false, offset);
      OmittedSorted(omitted, d, zero, offset);
    } else {
      KidsSorted(omitted, d.rule, d.kids, zero);
      BodySorted(omitted, d, zero, offset, Collapse(omitted, d.kids[0]).start);
    }
  }

  lemma {:induction false} KidsSorted(omitted: set<nat>, rule: nat, ds: seq<Deriv>, zero: bool)
    requires ds != [] && (forall i :: 0 <= i < |ds| ==> Filled(ds[i])) && Ordered(YieldAll(ds))
             && AllSpan(rule, ds, zero)
    requires (forall i :: 0 <= i < |ds| ==> Proper(CollapseAll(omitted, ds)[i])) && (zero ==> rule !in omitted)
    ensures var low := Collapse(omitted, ds[0]).start;
            && low <= FirstStart(ds[0]) && (!zero ==> low == FirstStart(ds[0]))
            && SortedWithin(EncodeAll(CollapseAll(omitted, ds)), low, End(ds[|ds| - 1]))
            && low <= End(ds[|ds| - 1])
    decreases ds, 0
  {
    var ts := CollapseAll(omitted, ds);
    OrderedSplit(Yield(ds[0]), YieldAll(ds[1..]));
    assert Proper(ts[0]);
    CollapsedSorted(omitted, ds[0], zero && IsOf(ds[0], rule), if |ts| == 1 then 0 else Size(ts[0]));
    OrderedEnds(ds[0]);
    if |ds| == 1 {
      assert EncodeAll(ts) == Encode(ts[0], 0) + [];
    } else {
      assert forall i :: 0 <= i < |ds[1..]| ==> CollapseAll(omitted, ds[1..])[i] == ts[i + 1];
      KidsSorted(omitted, rule, ds[1..], false);
      NextStartsLater(ds);
      JoinSorted(Encode(ts[0], Size(ts[0])), EncodeAll(ts[1..]), ts[0].start, End(ds[0]), ts[1].start,
                 End(ds[|ds| - 1]));
    }
  }

  lemma NextStartsLater(ds: seq<Deriv>)
    requires |ds| > 1 && (forall i :: 0 <= i < |ds| ==> Filled(ds[i])) && Ordered(YieldAll(ds))
    ensures End(ds[0]) <= FirstStart(ds[1])
  {
    Ends(ds[0]);
    Ends(ds[1]);
    OrderedSplit(Yield(ds[0]), YieldAll(ds[1..]));
    assert ds[1..][0] == ds[1];
    assert YieldAll(ds[1..])[0] == Yield(ds[1])[0];
  }

  /** The array of an error-free parse of ordered tokens is the array of a proper
      tree whose nodes span their leaves, in the order of the text: what going to
      parents, siblings, children and last leaves relies on. */
  lemma ParsedIsWalkable(t: Tables, root: nat, tokens: seq<Token>, nodes: seq<InternalNode>, d: Deriv)
    requires IsParse(t, root, tokens, nodes, d) && Ordered(tokens) && Typed(t, tokens)
    ensures var tree := Collapse(t.omitted, d);
            && tokens != [] && IsTreeArray(nodes, tree) && Sorted(nodes) && AfterLeaves(nodes)
            && SpansLeaves(tree, Zeros(d, ZeroRoot(t, root))) && LastLeafEnd(tree) == tokens[|tokens| - 1].EndIndex()
  {
    Ends(d);
    CollapsedProper(t, d);
    CollapsedSpans(t.omitted, d, ZeroRoot(t, root));
    CollapsedSorted(t.omitted, d, ZeroRoot(t, root), 0);
  }

  // ----- which nodes start at 0

  predicate IsLeftmost(path: Path) {
    forall i :: 0 <= i < |path| ==> path[i] == 0
  }

  /** The leftmost nodes that `zeros` counts start at 0, all others at their first
      leaf. */
  lemma {:induction false} StartsAt(t: Tree, zeros: nat, path: Path)
    requires SpansLeaves(t, zeros) && ValidPath(t, path) && Subtree(t, path).Node?
    ensures Subtree(t, path).start
         == if IsLeftmost(path) && |path| < zeros then 0 else FirstLeafStart(Subtree(t, path))
    decreases |path|
  {
    if path != [] {
      var rest := path[1..];
      StartsAt(t.children[path[0]], if path[0] == 0 && zeros > 0 then zeros - 1 else 0, rest);
      assert IsLeftmost(path) <==> path[0] == 0 && IsLeftmost(rest) by {
        assert forall i :: 0 < i < |path| ==> path[i] == rest[i - 1];
      }
    }
  }

  lemma {:induction false} LeftmostStart(t: Tree, path: Path)
    requires ValidPath(t, path) && IsLeftmost(path)
    ensures FirstLeafStart(Subtree(t, path)) == FirstLeafStart(t)
    decreases |path|
  {
    if path != [] {
      LeftmostStart(t.children[0], path[1..]);
    }
  }

  /** All inner nodes but the root start at their first leaf. */
  ghost predicate AllStartRight(t: Tree) {
    forall path :: path != [] && ValidPath(t, path) && Subtree(t, path).Node? ==>
      Subtree(t, path).start == FirstLeafStart(Subtree(t, path))
  }

  /** The second node of the leftmost branch starts at 0, before its first leaf. */
  lemma SecondStartsWrong(t: Tree, zeros: nat)
    requires SpansLeaves(t, zeros) && zeros > 1 && FirstLeafStart(t) > 0
    requires t.Node? && t.children != [] && t.children[0].Node?
    ensures !AllStartRight(t)
  {
    var path := [0];
    assert path[1..] == [] && ValidPath(t, path) && Subtree(t, path) == t.children[0];
    StartsAt(t, zeros, path);
    LeftmostStart(t, path);
  }

  /** A root that begins with a node of its own rule has that node in the tree. */
  lemma SecondIsNode(omitted: set<nat>, d: Deriv)
    requires d.DNode? && d.rule !in omitted && d.kids != [] && IsOf(d.kids[0], d.rule)
    ensures ChainLength(d) > 1
    ensures var tree := Collapse(omitted, d); tree.Node? && tree.children != [] && tree.children[0].Node?
  {
    assert ChainLength(d.kids[0]) > 0;
    CollapseAllAt(omitted, d.kids, 0);
  }

  /** All inner nodes of a parsed tree but the root start at their first leaf if and
      only if the root may be left out, the tokens begin at 0, or the root does not
      begin with a node of its own rule. Otherwise just the nodes start at 0 that
      the leftmost branch begins with and that are of the root's rule. */
  lemma StartsAreExact(t: Tables, root: nat, tokens: seq<Token>, nodes: seq<InternalNode>, d: Deriv)
    requires IsParse(t, root, tokens, nodes, d) && Ordered(tokens) && Typed(t, tokens)
    ensures tokens != [] && d.DNode? && d.kids != []
    ensures AllStartRight(Collapse(t.omitted, d)) <==>
              root in t.omitted || tokens[0].startIndex == 0 || !IsOf(d.kids[0], root)
    ensures root !in t.omitted ==> forall path :: ValidPath(Collapse(t.omitted, d), path) ==> StartIsExact(t, d, path)
  {
    var tree, zeros := Collapse(t.omitted, d), Zeros(d, ZeroRoot(t, root));
    ParsedIsWalkable(t, root, tokens, nodes, d);
    Ends(d);
    CollapsedSpans(t.omitted, d, ZeroRoot(t, root));
    forall path | ValidPath(tree, path) && Subtree(tree, path).Node?
      ensures Subtree(tree, path).start
           == if IsLeftmost(path) && |path| < zeros then 0 else FirstLeafStart(Subtree(tree, path))
      ensures IsLeftmost(path) ==> FirstLeafStart(Subtree(tree, path)) == tokens[0].startIndex
    {
      StartsAt(tree, zeros, path);
      if IsLeftmost(path) {
        LeftmostStart(tree, path);
      }
    }
    if root !in t.omitted && tokens[0].startIndex > 0 && IsOf(d.kids[0], root) {
      SecondIsNode(t.omitted, d);
      SecondStartsWrong(tree, zeros);
    }
  }

  /** A node starts at 0 on the leftmost branch as far as the nodes are of the
      root's rule, elsewhere at its first leaf. */
  ghost predicate StartIsExact(t: Tables, d: Deriv, path: Path)
    requires ValidPath(Collapse(t.omitted, d), path)
  {
    var n := Subtree(Collapse(t.omitted, d), path);
    n.Node? ==> n.start == if IsLeftmost(path) && |path| < ChainLength(d) then 0 else FirstLeafStart(n)
  }

  // ----- searching a parsed tree

  lemma {:induction false} SubtreeSpans(t: Tree, zeros: nat, path: Path)
    requires SpansLeaves(t, zeros) && ValidPath(t, path)
    ensures Subtree(t, path).EndIndex() == LastLeafEnd(Subtree(t, path))
    decreases |path|
  {
    if path != [] {
      SubtreeSpans(t.children[path[0]], if path[0] == 0 && zeros > 0 then zeros - 1 else 0, path[1..]);
    }
  }

  /** The last node of an array is the last leaf. */
  lemma {:induction false} LastNodeEnds(t: Tree, offset: nat)
    requires Proper(t)
    ensures var a := Encode(t, offset); a != [] && a[|a| - 1].IsLeaf() && a[|a| - 1].EndIndex() == LastLeafEnd(t)
    decreases t, 1
  {
    EncodeSize(t, offset);
    if t.Node? {
      LastOfAllEnds(t.children);
    }
  }

  lemma {:induction false} LastOfAllEnds(ts: seq<Tree>)
    requires ts != [] && forall i :: 0 <= i < |ts| ==> Proper(ts[i])
    ensures var a := EncodeAll(ts);
            a != [] && a[|a| - 1].IsLeaf() && a[|a| - 1].EndIndex() == LastLeafEnd(ts[|ts| - 1])
    decreases ts, 0
  {
    if |ts| == 1 {
      LastNodeEnds(ts[0], 0);
      assert EncodeAll(ts) == Encode(ts[0], 0) + [];
    } else {
      LastOfAllEnds(ts[1..]);
    }
  }

  /** The first node at or after `end`, up to one that is. */
  lemma {:induction false} FirstFrom(nodes: seq<InternalNode>, end: nat, k: nat) returns (cut: nat)
    requires Sorted(nodes) && k < |nodes| && nodes[k].startIndex >= end
    ensures cut <= k && IsCut(nodes, end, cut)
    decreases k
  {
    if k > 0 && nodes[k - 1].startIndex >= end {
      cut := FirstFrom(nodes, end, k - 1);
    } else {
      cut := k;
    }
  }

  /** The last node of a part of the array is the last leaf of its subtree. */
  lemma LastOfPart(nodes: seq<InternalNode>, tree: Tree, path: Path)
    requires IsTreeArray(nodes, tree) && ValidPath(tree, path)
    ensures var last := IndexOf(tree, path) + Size(Subtree(tree, path)) - 1;
            last < |nodes| && nodes[last].IsLeaf() && nodes[last].EndIndex() == LastLeafEnd(Subtree(tree, path))
  {
    var k, t := IndexOf(tree, path), Subtree(tree, path);
    SubtreeProper(tree, path);
    SubtreeSlice(tree, 0, path);
    var offset := if path == [] then 0 else OffsetOf(tree, path);
    LastNodeEnds(t, offset);
    EncodeSize(t, offset);
    assert nodes[k + Size(t) - 1] == nodes[k..k + Size(t)][Size(t) - 1];
  }

  /** A node ends where the last leaf of its part of the array does. */
  lemma NodeEnds(nodes: seq<InternalNode>, tree: Tree, zeros: nat, path: Path)
    requires IsTreeArray(nodes, tree) && SpansLeaves(tree, zeros) && ValidPath(tree, path)
    ensures var k, last := IndexOf(tree, path), IndexOf(tree, path) + Size(Subtree(tree, path)) - 1;
            last < |nodes| && nodes[last].IsLeaf() && nodes[k].EndIndex() == nodes[last].EndIndex()
  {
    NodeAt(nodes, tree, path);
    SubtreeSpans(tree, zeros, path);
    LastOfPart(nodes, tree, path);
  }

  /** Every node of a parsed tree is followed by a node that starts at or after
      its end, or ends with the last leaf, which has no length. */
  lemma NodeHasCut(nodes: seq<InternalNode>, tree: Tree, zeros: nat, path: Path) returns (cut: nat)
    requires IsTreeArray(nodes, tree) && SpansLeaves(tree, zeros) && ValidPath(tree, path)
    requires Sorted(nodes) && AfterLeaves(nodes) && nodes != [] && nodes[|nodes| - 1].length == 0
    ensures IndexOf(tree, path) < |nodes| == Size(tree) && cut <= IndexOf(tree, path) + Size(Subtree(tree, path))
    ensures IsCut(nodes, nodes[IndexOf(tree, path)].EndIndex(), cut)
  {
    NodeAt(nodes, tree, path);
    NodeEnds(nodes, tree, zeros, path);
    var end, after := nodes[IndexOf(tree, path)].EndIndex(), IndexOf(tree, path) + Size(Subtree(tree, path));
    cut := FirstFrom(nodes, end, if after < |nodes| then after else |nodes| - 1);
  }

  lemma LastHasNoLength(t: Tables, root: nat, tokens: seq<Token>, nodes: seq<InternalNode>, d: Deriv)
    requires IsParse(t, root, tokens, nodes, d) && Typed(t, tokens) && tokens != [] && tokens[|tokens| - 1].length == 0
    ensures nodes != [] && nodes[|nodes| - 1].length == 0
  {
    CollapsedProper(t, d);
    LastLeafIs(t.omitted, d, 0);
  }

  ghost predicate SameLast(a: seq<InternalNode>, y: seq<Token>) {
    && a != [] && y != []
    && a[|a| - 1].length == y[|y| - 1].length && a[|a| - 1].startIndex == y[|y| - 1].startIndex
  }

  lemma SameLastBehind(a0: seq<InternalNode>, a: seq<InternalNode>, y0: seq<Token>, y: seq<Token>)
    requires SameLast(a, y)
    ensures SameLast(a0 + a, y0 + y)
  {
  }

  /** The array of a node ends with that of its last child. */
  lemma EndsWithLastKid(omitted: set<nat>, d: Deriv, offset: nat) returns (front: seq<InternalNode>)
    requires d.DNode? && d.kids != [] && !(d.rule in omitted && |d.kids| == 1)
    ensures Encode(Collapse(omitted, d), offset) == front + Encode(Collapse(omitted, d.kids[|d.kids| - 1]), 0)
  {
    var n := |d.kids|;
    var before := CollapseAll(omitted, d.kids[..n - 1]);
    assert d.kids == d.kids[..n - 1] + [d.kids[n - 1]];
    CollapseAppend(omitted, d.kids[..n - 1], d.kids[n - 1]);
    LinkedThenLast(before, Collapse(omitted, d.kids[n - 1]));
    var t := Collapse(omitted, d);
    front := [InternalNode(offset, t.type_, t.start, t.length)] + EncodeLinked(before);
  }

  /** The last node of the array is the leaf of the last token. */
  lemma {:induction false} LastLeafIs(omitted: set<nat>, d: Deriv, offset: nat)
    requires Filled(d)
    ensures SameLast(Encode(Collapse(omitted, d), offset), Yield(d))
    decreases d
  {
    if d.DNode? {
      var n := |d.kids|;
      if d.rule in omitted && n == 1 {
        OnlyKid(d);
        LastLeafIs(omitted, d.kids[0], offset);
      } else {
        assert d.kids == d.kids[..n - 1] + [d.kids[n - 1]];
        YieldAppend(d.kids[..n - 1], d.kids[n - 1]);
        LastLeafIs(omitted, d.kids[n - 1], 0);
        var front := EndsWithLastKid(omitted, d, offset);
        SameLastBehind(front, Encode(Collapse(omitted, d.kids[n - 1]), 0), YieldAll(d.kids[..n - 1]),
                       Yield(d.kids[n - 1]));
      }
    }
  }

  /** Any node of a parsed tree can be searched, if the last token, the end
      marker, has no length. The matches are those of its subtree that start
      before its end; the search panics exactly when found subtrees are left out
      and a node on the way to the end marker is searched for. */
  method SearchParsed(ghost t: Tables, ghost root: nat, ghost tokens: seq<Token>, nodes: seq<InternalNode>,
                      ghost d: Deriv,
                      index: nat, ghost path: Path, types: set<nat>, avoid: bool)
    returns (all: seq<nat>, panics: bool, ghost cut: nat)
    requires IsParse(t, root, tokens, nodes, d) && Ordered(tokens) && Typed(t, tokens)
    requires tokens != [] && tokens[|tokens| - 1].length == 0
    requires ValidPath(Collapse(t.omitted, d), path) && index == IndexOf(Collapse(t.omitted, d), path)
    ensures index < |nodes| == Size(Collapse(t.omitted, d)) && IsCut(nodes, nodes[index].EndIndex(), cut)
    ensures all == Matches(Subtree(Collapse(t.omitted, d), path), index, cut, types, avoid, [])
    ensures panics <==> avoid && Overruns(nodes, Collapse(t.omitted, d), index, types)
  {
    ghost var tree := Collapse(t.omitted, d);
    ParsedIsWalkable(t, root, tokens, nodes, d);
    LastHasNoLength(t, root, tokens, nodes, d);
    cut := NodeHasCut(nodes, tree, Zeros(d, ZeroRoot(t, root)), path);
    all, panics := Search(nodes, index, types, avoid, tree, path, cut);
  }
}
