/** Walking the flat array: parents, siblings, children and search, each shown
    to agree with the tree that the array stands for. */
module Navigation {
  import opened Rules
  import opened Trees

  // ----- where the stored offsets can and cannot lead

  /** An offset inside a subtree does not lead out of it. */
  lemma {:induction false} InnerStays(t: Tree, offset: nat, m: nat)
    requires 0 < m < Size(t)
    ensures |Encode(t, offset)| == Size(t)
    ensures Encode(t, offset)[m].nextNodeOffset == 0 || m + Encode(t, offset)[m].nextNodeOffset < Size(t)
    decreases t, 1
  {
    EncodeSize(t, offset);
    EncodeAllSize(t.children);
    InnerStaysAll(t.children, m - 1);
    assert Encode(t, offset)[m] == EncodeAll(t.children)[m - 1];
  }

  lemma {:induction false} InnerStaysAll(ts: seq<Tree>, m: nat)
    requires m < SizeAll(ts)
    ensures |EncodeAll(ts)| == SizeAll(ts)
    ensures EncodeAll(ts)[m].nextNodeOffset == 0 || m + EncodeAll(ts)[m].nextNodeOffset < SizeAll(ts)
    decreases ts, 0
  {
    var offset := if |ts| == 1 then 0 else Size(ts[0]);
    EncodeSize(ts[0], offset);
    EncodeAllSize(ts);
    if m < Size(ts[0]) {
      assert EncodeAll(ts)[m] == Encode(ts[0], offset)[m];
      if m > 0 {
        InnerStays(ts[0], offset, m);
      } else if |ts| > 1 {
        assert SizeAll(ts) == Size(ts[0]) + SizeAll(ts[1..]);
        assert SizeAll(ts[1..]) >= Size(ts[1..][0]) >= 1;
      }
    } else {
      InnerStaysAll(ts[1..], m - Size(ts[0]));
      assert EncodeAll(ts)[m] == EncodeAll(ts[1..])[m - Size(ts[0])];
    }
  }

  /** The last node of a subtree is a leaf. */
  lemma {:induction false} LastIsLeaf(t: Tree, offset: nat)
    requires Proper(t)
    ensures |Encode(t, offset)| == Size(t) && Encode(t, offset)[Size(t) - 1].IsLeaf()
    decreases t, 1
  {
    EncodeSize(t, offset);
    if t.Node? {
      EncodeAllSize(t.children);
      LastOfAllIsLeaf(t.children);
      assert SizeAll(t.children) >= Size(t.children[0]) >= 1;
      assert Encode(t, offset)[Size(t) - 1] == EncodeAll(t.children)[SizeAll(t.children) - 1];
    }
  }

  lemma {:induction false} LastOfAllIsLeaf(ts: seq<Tree>)
    requires ts != [] && forall i :: 0 <= i < |ts| ==> Proper(ts[i])
    ensures |EncodeAll(ts)| == SizeAll(ts) >= 1 && EncodeAll(ts)[SizeAll(ts) - 1].IsLeaf()
    decreases ts, 0
  {
    EncodeAllSize(ts);
    var offset := if |ts| == 1 then 0 else Size(ts[0]);
    EncodeSize(ts[0], offset);
    if |ts| == 1 {
      assert SizeAll(ts[1..]) == 0;
      LastIsLeaf(ts[0], offset);
      assert EncodeAll(ts)[SizeAll(ts) - 1] == Encode(ts[0], offset)[Size(ts[0]) - 1];
    } else {
      LastOfAllIsLeaf(ts[1..]);
      assert EncodeAll(ts)[SizeAll(ts) - 1] == EncodeAll(ts[1..])[SizeAll(ts[1..]) - 1];
    }
  }

  /** No offset before a node leads into the middle of its subtree. */
  lemma {:induction false} NoJumpInto(t: Tree, offset: nat, path: Path, m: nat)
    requires ValidPath(t, path) && m < IndexOf(t, path)
    requires offset == 0 || offset >= Size(t)
    ensures |Encode(t, offset)| == Size(t) && IndexOf(t, path) + Size(Subtree(t, path)) <= Size(t)
    ensures var next := m + Encode(t, offset)[m].nextNodeOffset;
            next == m || next <= IndexOf(t, path) || next >= IndexOf(t, path) + Size(Subtree(t, path))
    decreases |path|, 1, 0
  {
    SubtreeSlice(t, offset, path);
    EncodeAllSize(t.children);
    if m > 0 {
      NoJumpIntoAll(t.children, path, m - 1);
      assert Encode(t, offset)[m] == EncodeAll(t.children)[m - 1];
    }
  }

  lemma {:induction false} NoJumpIntoAll(ts: seq<Tree>, path: Path, m: nat)
    requires path != [] && path[0] < |ts| && ValidPath(ts[path[0]], path[1..])
    requires m < ChildStart(ts, path[0]) + IndexOf(ts[path[0]], path[1..])
    ensures |EncodeAll(ts)| == SizeAll(ts) > m
    ensures var index := ChildStart(ts, path[0]) + IndexOf(ts[path[0]], path[1..]);
            var next := m + EncodeAll(ts)[m].nextNodeOffset;
            next == m || next <= index || next >= index + Size(Subtree(ts[path[0]], path[1..]))
    decreases |path|, 0, |ts|
  {
    var c := path[0];
    var offset := if |ts| == 1 then 0 else Size(ts[0]);
    EncodeSize(ts[0], offset);
    EncodeAllSize(ts);
    EncodeAllAt(ts, c);
    SubtreeSlice(ts[c], 0, path[1..]);
    if c == 0 {
      assert ts[..0] == [];
      NoJumpInto(ts[0], offset, path[1..], m);
      assert EncodeAll(ts)[m] == Encode(ts[0], offset)[m];
    } else {
      assert ts[..c][0] == ts[0] && ts[..c][1..] == ts[1..][..c - 1];
      if m < Size(ts[0]) {
        assert EncodeAll(ts)[m] == Encode(ts[0], offset)[m];
        if m > 0 {
          InnerStays(ts[0], offset, m);
        }
      } else {
        var shorter := [c - 1] + path[1..];
        assert shorter[1..] == path[1..];
        NoJumpIntoAll(ts[1..], shorter, m - Size(ts[0]));
        assert EncodeAll(ts)[m] == EncodeAll(ts[1..])[m - Size(ts[0])];
      }
    }
  }

  // ----- the nodes around one child

  /** The array of a whole tree: its root has no sibling. */
  ghost predicate IsTreeArray(nodes: seq<InternalNode>, root: Tree) {
    nodes == Encode(root, 0) && Proper(root)
  }

  function Head(t: Tree, offset: nat): InternalNode {
    InternalNode(offset, t.type_, t.start, t.length)
  }

  lemma NodeAt(nodes: seq<InternalNode>, root: Tree, path: Path)
    requires IsTreeArray(nodes, root) && ValidPath(root, path)
    ensures |nodes| == Size(root) && IndexOf(root, path) + Size(Subtree(root, path)) <= |nodes|
    ensures nodes[IndexOf(root, path)] == Head(Subtree(root, path), OffsetOf(root, path))
    ensures nodes[IndexOf(root, path)].IsLeaf() <==> Subtree(root, path).Leaf?
  {
    SubtreeSlice(root, 0, path);
    SubtreeProper(root, path);
    var k, n := IndexOf(root, path), Size(Subtree(root, path));
    assert nodes[k] == nodes[k..k + n][0];
  }

  lemma InnerOfArray(t: Tree, offset: nat, i: nat)
    requires Proper(t) && 0 < i < Size(t)
    ensures |Encode(t, offset)| == Size(t)
    ensures var n := Encode(t, offset)[i];
            (n.nextNodeOffset == 0 || i + n.nextNodeOffset < Size(t)) && (i == Size(t) - 1 ==> n.IsLeaf())
  {
    EncodeSize(t, offset);
    InnerStays(t, offset, i);
    LastIsLeaf(t, offset);
  }

  /** Between the start of a subtree and its end. */
  lemma InnerNode(nodes: seq<InternalNode>, root: Tree, path: Path, m: nat)
    requires IsTreeArray(nodes, root) && ValidPath(root, path)
    requires IndexOf(root, path) < m < IndexOf(root, path) + Size(Subtree(root, path))
    ensures |nodes| == Size(root) && IndexOf(root, path) + Size(Subtree(root, path)) <= |nodes|
    ensures nodes[m].nextNodeOffset == 0
            || m + nodes[m].nextNodeOffset < IndexOf(root, path) + Size(Subtree(root, path))
    ensures m == IndexOf(root, path) + Size(Subtree(root, path)) - 1 ==> nodes[m].IsLeaf()
  {
    SubtreeSlice(root, 0, path);
    SubtreeProper(root, path);
    var k, n := IndexOf(root, path), Size(Subtree(root, path));
    var offset := if path == [] then 0 else OffsetOf(root, path);
    InnerOfArray(Subtree(root, path), offset, m - k);
    assert nodes[m] == nodes[k..k + n][m - k];
  }

  lemma ChildOffset(root: Tree, path: Path, c: nat)
    requires ValidPath(root, path) && Subtree(root, path).Node? && c < |Subtree(root, path).children|
    ensures ValidPath(root, path + [c])
    ensures OffsetOf(root, path + [c])
         == if c == |Subtree(root, path).children| - 1 then 0 else Size(Subtree(root, path).children[c])
  {
    ValidExtend(root, path, c);
    assert (path + [c])[..|path + [c]| - 1] == path;
  }

  // ----- the children of a node, seen from the array

  /** `p` is an inner node whose children start at `starts`; the last entry is
      where its part of the array ends. */
  ghost predicate Siblings(nodes: seq<InternalNode>, p: nat, starts: seq<nat>) {
    && |starts| >= 2 && p < |nodes| && !nodes[p].IsLeaf()
    && starts[0] == p + 1 && starts[|starts| - 1] <= |nodes|
    && (forall c, d :: 0 <= c < d < |starts| ==> starts[c] < starts[d])
    && (nodes[p].nextNodeOffset == 0 || p + nodes[p].nextNodeOffset == starts[|starts| - 1])
    && LeadAround(nodes, p, starts[|starts| - 1])
    && (forall c :: 0 <= c < |starts| - 1 ==> Child(nodes, starts[c], starts[c + 1], c == |starts| - 2))
  }

  /** No node before `p` leads to one between `p` and `end`. */
  ghost predicate LeadAround(nodes: seq<InternalNode>, p: nat, end: nat) {
    forall m :: 0 <= m < p && m < |nodes| ==>
      var next := m + nodes[m].nextNodeOffset; next == m || next <= p || next >= end
  }

  /** One child: it leads to the next one, the nodes below it do not lead out of
      it, and it ends in a leaf. */
  ghost predicate Child(nodes: seq<InternalNode>, start: nat, end: nat, isLast: bool) {
    && start < end <= |nodes|
    && nodes[start].nextNodeOffset == (if isLast then 0 else end - start)
    && nodes[end - 1].IsLeaf()
    && forall m :: start < m < end ==> nodes[m].nextNodeOffset == 0 || m + nodes[m].nextNodeOffset < end
  }

  ghost function Starts(root: Tree, path: Path): seq<nat>
    requires ValidPath(root, path) && Subtree(root, path).Node?
  {
    var t := Subtree(root, path);
    seq(|t.children| + 1, c requires 0 <= c <= |t.children| => IndexOf(root, path) + 1 + ChildStart(t.children, c))
  }

  lemma SiblingsOf(nodes: seq<InternalNode>, root: Tree, path: Path) returns (starts: seq<nat>)
    requires IsTreeArray(nodes, root) && ValidPath(root, path) && Subtree(root, path).Node?
    ensures Siblings(nodes, IndexOf(root, path), starts) && |starts| == |Subtree(root, path).children| + 1
    ensures starts[|starts| - 1] == IndexOf(root, path) + Size(Subtree(root, path))
    ensures forall c :: 0 <= c < |starts| - 1 ==> IsChild(nodes, root, path, c, starts[c], starts[c + 1])
  {
    starts := Starts(root, path);
    ChildrenInArray(nodes, root, path);
    ParentInArray(nodes, root, path);
    Increasing(starts);
  }

  /** The c-th child of a node takes up the array from `start` to `end`. */
  ghost predicate IsChild(nodes: seq<InternalNode>, root: Tree, path: Path, c: nat, start: nat, end: nat)
    requires ValidPath(root, path) && Subtree(root, path).Node? && c < |Subtree(root, path).children|
  {
    && ValidPath(root, path + [c])
    && start == IndexOf(root, path + [c]) && end == start + Size(Subtree(root, path + [c]))
    && Child(nodes, start, end, c == |Subtree(root, path).children| - 1)
  }

  lemma ChildrenInArray(nodes: seq<InternalNode>, root: Tree, path: Path)
    requires IsTreeArray(nodes, root) && ValidPath(root, path) && Subtree(root, path).Node?
    ensures var starts, n := Starts(root, path), |Subtree(root, path).children|;
            starts[0] == IndexOf(root, path) + 1 && starts[n] == IndexOf(root, path) + Size(Subtree(root, path))
            && forall c :: 0 <= c < n ==> IsChild(nodes, root, path, c, starts[c], starts[c + 1])
  {
    var starts, ts := Starts(root, path), Subtree(root, path).children;
    assert ts[..|ts|] == ts && ts[..0] == [];
    forall c | 0 <= c < |ts|
      ensures IsChild(nodes, root, path, c, starts[c], starts[c + 1])
    {
      ChildInArray(nodes, root, path, c);
    }
  }

  lemma ParentInArray(nodes: seq<InternalNode>, root: Tree, path: Path)
    requires IsTreeArray(nodes, root) && ValidPath(root, path) && Subtree(root, path).Node?
    ensures var p, end := IndexOf(root, path), IndexOf(root, path) + Size(Subtree(root, path));
            p < end <= |nodes| && !nodes[p].IsLeaf() && Subtree(root, path).children != []
            && (nodes[p].nextNodeOffset == 0 || p + nodes[p].nextNodeOffset == end)
            && LeadAround(nodes, p, end)
  {
    NodeAt(nodes, root, path);
    SubtreeProper(root, path);
    UpOffset(root, path);
    forall m | 0 <= m < IndexOf(root, path)
      ensures var next := m + nodes[m].nextNodeOffset;
              next == m || next <= IndexOf(root, path) || next >= IndexOf(root, path) + Size(Subtree(root, path))
    {
      NoJumpInto(root, 0, path, m);
    }
  }

  lemma ChildInArray(nodes: seq<InternalNode>, root: Tree, path: Path, c: nat)
    requires IsTreeArray(nodes, root) && ValidPath(root, path) && Subtree(root, path).Node?
    requires c < |Subtree(root, path).children|
    ensures IsChild(nodes, root, path, c, Starts(root, path)[c], Starts(root, path)[c + 1])
  {
    var ts := Subtree(root, path).children;
    ChildStartNext(ts, c);
    ChildOffset(root, path, c);
    var child := path + [c];
    assert Subtree(root, child) == ts[c] && IndexOf(root, child) == IndexOf(root, path) + 1 + ChildStart(ts, c) by {
      ValidExtend(root, path, c);
    }
    SubtreeInArray(nodes, root, child, c == |ts| - 1);
  }

  lemma SubtreeInArray(nodes: seq<InternalNode>, root: Tree, path: Path, isLast: bool)
    requires IsTreeArray(nodes, root) && ValidPath(root, path)
    requires OffsetOf(root, path) == if isLast then 0 else Size(Subtree(root, path))
    ensures Child(nodes, IndexOf(root, path), IndexOf(root, path) + Size(Subtree(root, path)), isLast)
  {
    NodeAt(nodes, root, path);
    var start, end := IndexOf(root, path), IndexOf(root, path) + Size(Subtree(root, path));
    forall m | start < m < end
      ensures nodes[m].nextNodeOffset == 0 || m + nodes[m].nextNodeOffset < end
    {
      InnerNode(nodes, root, path, m);
    }
    if start + 1 < end {
      InnerNode(nodes, root, path, end - 1);
    } else {
      SubtreeProper(root, path);
      SingleIsLeaf(Subtree(root, path));
    }
  }

  lemma SingleIsLeaf(t: Tree)
    requires Proper(t)
    ensures t.Leaf? <==> Size(t) == 1
  {
    if t.Node? {
      assert SizeAll(t.children) >= Size(t.children[0]);
    }
  }

  lemma {:induction false} Increasing(s: seq<nat>)
    requires forall c :: 0 <= c < |s| - 1 ==> s[c] < s[c + 1]
    ensures forall c, d :: 0 <= c < d < |s| ==> s[c] < s[d]
  {
    forall c, d | 0 <= c < d < |s|
      ensures s[c] < s[d]
    {
      IncreasingFrom(s, c, d);
    }
  }

  lemma {:induction false} IncreasingFrom(s: seq<nat>, c: nat, d: nat)
    requires forall i :: 0 <= i < |s| - 1 ==> s[i] < s[i + 1]
    requires c < d < |s|
    ensures s[c] < s[d]
    decreases d - c
  {
    assert s[d - 1] < s[d - 1 + 1];
    if c < d - 1 {
      IncreasingFrom(s, c, d - 1);
    }
  }

  /** The parent and the rank among its children of a node other than the root. */
  lemma SplitLast(root: Tree, path: Path)
    requires ValidPath(root, path) && path != []
    ensures ValidPath(root, path[..|path| - 1])
    ensures var parent := Subtree(root, path[..|path| - 1]);
            parent.Node? && path[|path| - 1] < |parent.children|
    ensures path == path[..|path| - 1] + [path[|path| - 1]]
  {
    ValidLast(root, path);
  }

  // ----- parent

  /** The index of the parent: the first node backwards that reaches past this
      one, or the node right before its first sibling. */
  method Parent(nodes: seq<InternalNode>, index: nat, ghost root: Tree, ghost path: Path) returns (parent: Option<nat>)
    requires IsTreeArray(nodes, root) && ValidPath(root, path) && index == IndexOf(root, path) < |nodes|
    ensures path == [] ==> parent == None
    ensures path != [] ==> ValidPath(root, path[..|path| - 1]) && parent == Some(IndexOf(root, path[..|path| - 1]))
  {
    ghost var p, starts, rank := 0, [], 0;
    if path != [] {
      SplitLast(root, path);
      p, rank := IndexOf(root, path[..|path| - 1]), path[|path| - 1];
      starts := SiblingsOf(nodes, root, path[..|path| - 1]);
      assert IsChild(nodes, root, path[..|path| - 1], rank, starts[rank], starts[rank + 1]);
    }
    parent := ScanForParent(nodes, index, p, starts, rank);
  }

  /** The scan itself, which sees nothing but the array. */
  method ScanForParent(nodes: seq<InternalNode>, index: nat, ghost p: nat, ghost starts: seq<nat>, ghost rank: nat)
    returns (parent: Option<nat>)
    requires index < |nodes|
    requires index == 0 || (Siblings(nodes, p, starts) && rank < |starts| - 1 && index == starts[rank])
    ensures parent == if index == 0 then None else Some(p)
  {
    var siblingI := 0;
    ghost var c: nat := rank;
    var i := 1;
    while i <= index
      invariant 1 <= i <= index + 1 && siblingI < i
      invariant index > 0 ==> c <= rank && index - siblingI == starts[c]
      invariant index > 0 ==> if c == 0 then index - i + 1 == starts[0] else starts[c - 1] < index - i + 1 <= starts[c]
    {
      var n := nodes[index - i];
      var offset := n.nextNodeOffset;
      assert c > 0 ==> Child(nodes, starts[c - 1], starts[c - 1 + 1], false);
      assert index > 0 ==> starts[rank] < starts[|starts| - 1];
      if (offset > i || (offset == 0 && i == siblingI + 1)) && !n.IsLeaf() {
        return Some(index - i);
      }
      if siblingI + offset == i {
        siblingI := i;
        c := c - 1;
      }
      i := i + 1;
    }
    return None;
  }

  /** A node's offset is 0 or its size. */
  lemma UpOffset(root: Tree, path: Path)
    requires ValidPath(root, path)
    ensures OffsetOf(root, path) == 0 || OffsetOf(root, path) == Size(Subtree(root, path))
  {
  }

  // ----- siblings

  function NextSibling(nodes: seq<InternalNode>, index: nat): Option<nat>
    requires index < |nodes|
  {
    if nodes[index].nextNodeOffset != 0 then Some(index + nodes[index].nextNodeOffset) else None
  }

  /** The next sibling of a child is the next child of its parent. */
  lemma NextSiblingIsNextChild(nodes: seq<InternalNode>, root: Tree, up: Path, c: nat)
    requires IsTreeArray(nodes, root) && ValidPath(root, up)
    requires Subtree(root, up).Node? && c < |Subtree(root, up).children|
    ensures ValidPath(root, up + [c]) && IndexOf(root, up + [c]) < |nodes|
    ensures if c + 1 < |Subtree(root, up).children|
            then ValidPath(root, up + [c + 1])
                 && NextSibling(nodes, IndexOf(root, up + [c])) == Some(IndexOf(root, up + [c + 1]))
            else NextSibling(nodes, IndexOf(root, up + [c])) == None
  {
    var starts := SiblingsOf(nodes, root, up);
    assert IsChild(nodes, root, up, c, starts[c], starts[c + 1]);
    if c + 1 < |starts| - 1 {
      assert IsChild(nodes, root, up, c + 1, starts[c + 1], starts[c + 1 + 1]);
    }
  }

  /** The inverse of `NextSibling`, found by going backwards until a node leads
      exactly here, or past here. */
  method PreviousSibling(nodes: seq<InternalNode>, index: nat, ghost root: Tree, ghost path: Path)
    returns (sibling: Option<nat>)
    requires IsTreeArray(nodes, root) && ValidPath(root, path) && index == IndexOf(root, path) < |nodes|
    ensures path == [] || path[|path| - 1] == 0 ==> sibling == None
    ensures path != [] && path[|path| - 1] > 0 ==>
              var before := path[..|path| - 1] + [path[|path| - 1] - 1];
              ValidPath(root, before) && sibling == Some(IndexOf(root, before)) && sibling.value < |nodes|
              && NextSibling(nodes, sibling.value) == Some(index)
  {
    ghost var p, starts, rank := 0, [], 0;
    if path != [] {
      SplitLast(root, path);
      p, rank := IndexOf(root, path[..|path| - 1]), path[|path| - 1];
      starts := SiblingsOf(nodes, root, path[..|path| - 1]);
      assert IsChild(nodes, root, path[..|path| - 1], rank, starts[rank], starts[rank + 1]);
      if rank > 0 {
        NextSiblingIsNextChild(nodes, root, path[..|path| - 1], rank - 1);
        assert IsChild(nodes, root, path[..|path| - 1], rank - 1, starts[rank - 1], starts[rank - 1 + 1]);
      }
    }
    sibling := ScanForSibling(nodes, index, p, starts, rank);
  }

  method ScanForSibling(nodes: seq<InternalNode>, index: nat, ghost p: nat, ghost starts: seq<nat>, ghost rank: nat)
    returns (sibling: Option<nat>)
    requires index < |nodes|
    requires index == 0 || (Siblings(nodes, p, starts) && rank < |starts| - 1 && index == starts[rank])
    ensures sibling == if index == 0 || rank == 0 then None else Some(starts[rank - 1])
  {
    var i := 1;
    while i <= index
      invariant 1 <= i <= index + 1
      invariant index > 0 && rank > 0 ==> starts[rank - 1] < index - i + 1
    {
      var offset := nodes[index - i].nextNodeOffset;
      assert rank > 0 ==> Child(nodes, starts[rank - 1], starts[rank - 1 + 1], false);
      assert rank == 0 ==> LeadAround(nodes, p, starts[|starts| - 1]);
      assert starts[0] < starts[|starts| - 1];
      if offset == i {
        return Some(index - i);
      } else if offset > i {
        return None;
      }
      i := i + 1;
    }
    return None;
  }

  // ----- children

  /** The iterator over the children of a node. */
  class SiblingIterator {
    var nextIndex: nat
    var ended: bool

    /** It stands before the c-th child, or after the last. */
    ghost predicate Before(root: Tree, path: Path, c: nat)
      reads this
    {
      && ValidPath(root, path)
      && var t := Subtree(root, path);
         if t.Node? && c < |t.children|
         then !ended && ValidPath(root, path + [c]) && nextIndex == IndexOf(root, path + [c])
         else ended
    }

    constructor IterChildren(nodes: seq<InternalNode>, index: nat, ghost root: Tree, ghost path: Path)
      requires IsTreeArray(nodes, root) && ValidPath(root, path) && index == IndexOf(root, path) < |nodes|
      ensures Before(root, path, 0)
    {
      nextIndex := if nodes[index].IsLeaf() then 0 else index + 1;
      ended := nodes[index].IsLeaf();
      new;
      NodeAt(nodes, root, path);
      SubtreeProper(root, path);
      if Subtree(root, path).Node? {
        ghost var starts := SiblingsOf(nodes, root, path);
        assert IsChild(nodes, root, path, 0, starts[0], starts[0 + 1]);
      }
    }

    method Next(nodes: seq<InternalNode>, ghost root: Tree, ghost path: Path, ghost c: nat) returns (child: Option<nat>)
      requires IsTreeArray(nodes, root) && Before(root, path, c)
      modifies this
      ensures var t := Subtree(root, path);
              if t.Node? && c < |t.children|
              then child == Some(old(nextIndex)) && child.value == IndexOf(root, path + [c])
              && Before(root, path, c + 1)
              else child == None && Before(root, path, c)
    {
      if ended {
        return None;
      }
      NextSiblingIsNextChild(nodes, root, path, c);
      var offset := nodes[nextIndex].nextNodeOffset;
      if offset == 0 {
        ended := true;
      }
      child := Some(nextIndex);
      nextIndex := nextIndex + offset;
    }
  }

  /** The k-th child, or nothing if there are not that many. */
  method NthChild(nodes: seq<InternalNode>, index: nat, k: nat, ghost root: Tree, ghost path: Path)
    returns (child: Option<nat>)
    requires IsTreeArray(nodes, root) && ValidPath(root, path) && index == IndexOf(root, path)
    ensures var t := Subtree(root, path);
            if t.Node? && k < |t.children|
            then ValidPath(root, path + [k]) && child == Some(IndexOf(root, path + [k]))
            else child == None
  {
    NodeAt(nodes, root, path);
    var iterator_ := new SiblingIterator.IterChildren(nodes, index, root, path);
    for i := 0 to k
      invariant iterator_.Before(root, path, i)
    {
      var _ := iterator_.Next(nodes, root, path, i);
      if iterator_.ended {
        return None;
      }
    }
    child := iterator_.Next(nodes, root, path, k);
  }

  /** The last leaf below a node ends its part of the array. */
  method LastLeafInSubtree(nodes: seq<InternalNode>, index: nat, ghost root: Tree, ghost path: Path) returns (leaf: nat)
    requires IsTreeArray(nodes, root) && ValidPath(root, path) && index == IndexOf(root, path)
    ensures leaf == index + Size(Subtree(root, path)) - 1
    ensures leaf < |nodes| && nodes[leaf].IsLeaf()
    decreases Size(Subtree(root, path))
  {
    NodeAt(nodes, root, path);
    if nodes[index].IsLeaf() {
      return index;
    }
    SubtreeProper(root, path);
    ghost var c := |Subtree(root, path).children| - 1;
    var last := LastChild(nodes, index, root, path);
    LastChildEnds(root, path);
    leaf := LastLeafInSubtree(nodes, last, root, path + [c]);
  }

  /** The last child, found by going through all of them. */
  method LastChild(nodes: seq<InternalNode>, index: nat, ghost root: Tree, ghost path: Path) returns (child: nat)
    requires IsTreeArray(nodes, root) && ValidPath(root, path) && index == IndexOf(root, path) < |nodes|
    requires Subtree(root, path).Node? && Subtree(root, path).children != []
    ensures var c := |Subtree(root, path).children| - 1;
            ValidPath(root, path + [c]) && child == IndexOf(root, path + [c])
  {
    ghost var n := |Subtree(root, path).children|;
    var iterator_ := new SiblingIterator.IterChildren(nodes, index, root, path);
    ghost var c := 0;
    var last := iterator_.Next(nodes, root, path, 0);
    var next := iterator_.Next(nodes, root, path, 1);
    while next.Some?
      invariant c < n && ValidPath(root, path + [c]) && last == Some(IndexOf(root, path + [c]))
      invariant if c + 1 < n then ValidPath(root, path + [c + 1])
                && next == Some(IndexOf(root, path + [c + 1])) else next == None
      invariant iterator_.Before(root, path, if c + 1 < n then c + 2 else c + 1)
      decreases n - c
    {
      c := c + 1;
      last := next;
      next := iterator_.Next(nodes, root, path, c + 1);
    }
    child := last.value;
  }

  lemma LastChildEnds(root: Tree, path: Path)
    requires ValidPath(root, path) && Subtree(root, path).Node? && Subtree(root, path).children != []
    ensures var c := |Subtree(root, path).children| - 1;
            ValidPath(root, path + [c])
            && IndexOf(root, path + [c]) + Size(Subtree(root, path + [c]))
               == IndexOf(root, path) + Size(Subtree(root, path))
            && Size(Subtree(root, path + [c])) < Size(Subtree(root, path))
  {
    var ts := Subtree(root, path).children;
    var c := |ts| - 1;
    ValidExtend(root, path, c);
    ChildStartNext(ts, c);
    assert ts[..c + 1] == ts;
  }

  // ----- search

  /** In preorder, the nodes before `cut` of wanted types in a tree whose root
      is at `k`, followed by `rest`; with `avoid`, only those that are not below
      another one. */
  function Matches(t: Tree, k: nat, cut: nat, types: set<nat>, avoid: bool, rest: seq<nat>): seq<nat>
    decreases t, 1
  {
    var below := if t.Leaf? || (avoid && t.type_ in types) then rest
    else MatchesAll(t.children, k + 1, cut, types, avoid, rest);
    if t.type_ in types && k < cut then [k] + below else below
  }

  function MatchesAll(ts: seq<Tree>, k: nat, cut: nat, types: set<nat>, avoid: bool, rest: seq<nat>): seq<nat>
    decreases ts, 0
  {
    if ts == [] then rest
    else Matches(ts[0], k, cut, types, avoid, MatchesAll(ts[1..], k + Size(ts[0]), cut, types, avoid, rest))
  }

  lemma {:induction false} NothingPastCut(t: Tree, k: nat, cut: nat, types: set<nat>, avoid: bool)
    requires k >= cut
    ensures Matches(t, k, cut, types, avoid, []) == []
    decreases t, 1
  {
    if t.Node? {
      NothingPastCutAll(t.children, k + 1, cut, types, avoid);
    }
  }

  lemma {:induction false} NothingPastCutAll(ts: seq<Tree>, k: nat, cut: nat, types: set<nat>, avoid: bool)
    requires k >= cut
    ensures MatchesAll(ts, k, cut, types, avoid, []) == []
    decreases ts, 0
  {
    if ts != [] {
      NothingPastCutAll(ts[1..], k + Size(ts[0]), cut, types, avoid);
      NothingPastCut(ts[0], k, cut, types, avoid);
    }
  }

  /** `cut` is the first node that starts at or after `end`. */
  ghost predicate IsCut(nodes: seq<InternalNode>, end: nat, cut: nat) {
    cut < |nodes| && nodes[cut].startIndex >= end && forall m :: 0 <= m < cut ==> nodes[m].startIndex < end
  }

  /** How many nodes the subtree at an index of the array has. */
  ghost function Extent(t: Tree, m: nat): nat
    requires m < Size(t)
    ensures 1 <= Extent(t, m) && m + Extent(t, m) <= Size(t)
    decreases t, 1
  {
    if m == 0 then Size(t) else ExtentAll(t.children, m - 1)
  }

  ghost function ExtentAll(ts: seq<Tree>, m: nat): nat
    requires m < SizeAll(ts)
    ensures 1 <= ExtentAll(ts, m) && m + ExtentAll(ts, m) <= SizeAll(ts)
    decreases ts, 0
  {
    if m < Size(ts[0]) then Extent(ts[0], m) else ExtentAll(ts[1..], m - Size(ts[0]))
  }

  /** Where a search goes on after a node it has found. */
  ghost function After(t: Tree, m: nat, avoid: bool): nat
    requires m < Size(t)
    ensures m < After(t, m, avoid) <= Size(t)
  {
    m + if avoid then Extent(t, m) else 1
  }

  /** A subtree lies within another or beside it. */
  lemma {:induction false} ExtentsNest(t: Tree, f: nat, k: nat)
    requires f < Size(t) && f <= k < f + Extent(t, f)
    ensures k < Size(t) && k + Extent(t, k) <= f + Extent(t, f)
    decreases t, 1
  {
    if f > 0 {
      ExtentsNestAll(t.children, f - 1, k - 1);
    }
  }

  lemma {:induction false} ExtentsNestAll(ts: seq<Tree>, f: nat, k: nat)
    requires f < SizeAll(ts) && f <= k < f + ExtentAll(ts, f)
    ensures k < SizeAll(ts) && k + ExtentAll(ts, k) <= f + ExtentAll(ts, f)
    decreases ts, 0
  {
    if f < Size(ts[0]) {
      ExtentsNest(ts[0], f, k);
    } else {
      ExtentsNestAll(ts[1..], f - Size(ts[0]), k - Size(ts[0]));
    }
  }

  /** The nodes a search still yields when it goes on from `from`. */
  ghost function Scan(nodes: seq<InternalNode>, root: Tree, from: nat, cut: nat, types: set<nat>, avoid: bool): seq<nat>
    requires |nodes| == Size(root) && cut < |nodes|
    decreases cut - from
  {
    if from >= cut then []
    else if nodes[from].type_ in types
    then [from] + Scan(nodes, root, After(root, from, avoid), cut, types, avoid)
    else Scan(nodes, root, from + 1, cut, types, avoid)
  }

  /** The array from `k` on begins with `a`. */
  ghost predicate HoldsAt<T>(nodes: seq<T>, k: nat, a: seq<T>) {
    k + |a| <= |nodes| && nodes[k..k + |a|] == a
  }

  /** `t` is the subtree at `k`, as far as extents go. */
  ghost predicate SameExtents(root: Tree, k: nat, t: Tree) {
    k + Size(t) <= Size(root) && forall m :: 0 <= m < Size(t) ==> Extent(root, k + m) == Extent(t, m)
  }

  ghost predicate SameExtentsAll(root: Tree, k: nat, ts: seq<Tree>) {
    k + SizeAll(ts) <= Size(root) && forall m :: 0 <= m < SizeAll(ts) ==> Extent(root, k + m) == ExtentAll(ts, m)
  }

  lemma ExtentsBelow(root: Tree, k: nat, t: Tree)
    requires SameExtents(root, k, t)
    ensures Extent(root, k) == Size(t)
    ensures t.Node? ==> SameExtentsAll(root, k + 1, t.children)
  {
    assert Extent(root, k + 0) == Extent(t, 0);
    if t.Node? {
      forall m | 0 <= m < SizeAll(t.children)
        ensures Extent(root, k + 1 + m) == ExtentAll(t.children, m)
      {
        assert Extent(root, k + (m + 1)) == Extent(t, m + 1);
      }
    }
  }

  lemma ExtentsSplit(root: Tree, k: nat, ts: seq<Tree>)
    requires ts != [] && SameExtentsAll(root, k, ts)
    ensures SameExtents(root, k, ts[0]) && SameExtentsAll(root, k + Size(ts[0]), ts[1..])
  {
    var n := Size(ts[0]);
    forall m | 0 <= m < n
      ensures Extent(root, k + m) == Extent(ts[0], m)
    {
      assert Extent(root, k + m) == ExtentAll(ts, m);
    }
    forall m | 0 <= m < SizeAll(ts[1..])
      ensures Extent(root, k + n + m) == ExtentAll(ts[1..], m)
    {
      assert Extent(root, k + (n + m)) == ExtentAll(ts, n + m);
    }
  }

  lemma HoldsBelow(nodes: seq<InternalNode>, k: nat, t: Tree, offset: nat)
    requires HoldsAt(nodes, k, Encode(t, offset))
    ensures k < |nodes| && nodes[k].type_ == t.type_ && k + Size(t) <= |nodes|
    ensures t.Node? ==> HoldsAt(nodes, k + 1, EncodeAll(t.children))
  {
    EncodeSize(t, offset);
    assert nodes[k] == Encode(t, offset)[0];
    if t.Node? {
      SplitSlice(nodes, k, [Encode(t, offset)[0]], EncodeAll(t.children));
    }
  }

  lemma HoldsSplit(nodes: seq<InternalNode>, k: nat, ts: seq<Tree>, offset: nat)
    requires ts != [] && HoldsAt(nodes, k, EncodeAll(ts)) && offset == if |ts| == 1 then 0 else Size(ts[0])
    ensures HoldsAt(nodes, k, Encode(ts[0], offset)) && HoldsAt(nodes, k + Size(ts[0]), EncodeAll(ts[1..]))
  {
    EncodeSize(ts[0], offset);
    SplitSlice(nodes, k, Encode(ts[0], offset), EncodeAll(ts[1..]));
  }

  lemma SplitSlice<T>(s: seq<T>, k: nat, a: seq<T>, b: seq<T>)
    requires k + |a| + |b| <= |s| && s[k..k + |a| + |b|] == a + b
    ensures s[k..k + |a|] == a && s[k + |a|..k + |a| + |b|] == b
  {
    SliceOfSlice(s, k, |a| + |b|, 0, |a|);
    SliceOfSlice(s, k, |a| + |b|, |a|, |b|);
  }

  /** The node itself: it is found, or not, or lies behind the cut. */
  lemma ScanOne(nodes: seq<InternalNode>, root: Tree, k: nat, t: Tree, cut: nat, types: set<nat>, avoid: bool)
    requires |nodes| == Size(root) && k < cut < |nodes| && nodes[k].type_ == t.type_
    requires k < Size(root) && Extent(root, k) == Size(t)
    ensures Scan(nodes, root, k, cut, types, avoid)
         == (if t.type_ in types then [k] else [])
            + Scan(nodes, root, k + if avoid && t.type_ in types then Size(t) else 1, cut, types, avoid)
  {
  }

  lemma MatchesOne(t: Tree, k: nat, cut: nat, types: set<nat>, avoid: bool, rest: seq<nat>)
    requires k < cut
    ensures Matches(t, k, cut, types, avoid, rest)
         == (if t.type_ in types then [k] else [])
            + if t.Leaf? || (avoid && t.type_ in types) then rest
            else MatchesAll(t.children, k + 1, cut, types, avoid, rest)
  {
  }

  /** A node, given what is found among its children. */
  lemma ScanNode(nodes: seq<InternalNode>, root: Tree, k: nat, t: Tree, cut: nat, types: set<nat>, avoid: bool,
                 rest: seq<nat>)
    requires |nodes| == Size(root) && k < cut < |nodes| && nodes[k].type_ == t.type_ && Extent(root, k) == Size(t)
    requires rest == Scan(nodes, root, k + Size(t), cut, types, avoid)
    requires t.Node? ==>
               Scan(nodes, root, k + 1, cut, types, avoid) == MatchesAll(t.children, k + 1, cut, types, avoid, rest)
    ensures Scan(nodes, root, k, cut, types, avoid) == Matches(t, k, cut, types, avoid, rest)
  {
    ScanOne(nodes, root, k, t, cut, types, avoid);
    MatchesOne(t, k, cut, types, avoid, rest);
  }

  /** Searching through one subtree yields its matches and goes on after it, with
      `rest`. */
  lemma {:induction false} ScanSubtree(nodes: seq<InternalNode>, root: Tree, k: nat, t: Tree, offset: nat, cut: nat,
                                       types: set<nat>, avoid: bool, rest: seq<nat>)
    requires |nodes| == Size(root) && cut < |nodes|
    requires HoldsAt(nodes, k, Encode(t, offset)) && SameExtents(root, k, t)
    requires rest == Scan(nodes, root, k + Size(t), cut, types, avoid)
    ensures Scan(nodes, root, k, cut, types, avoid) == Matches(t, k, cut, types, avoid, rest)
    decreases t, 1
  {
    if k >= cut {
      NothingPastCut(t, k, cut, types, avoid);
    } else {
      HoldsBelow(nodes, k, t, offset);
      ExtentsBelow(root, k, t);
      if t.Node? {
        ScanSubtrees(nodes, root, k + 1, t.children, cut, types, avoid, rest);
      }
      ScanNode(nodes, root, k, t, cut, types, avoid, rest);
    }
  }

  /** The first of some siblings and the others. */
  lemma FirstAside(nodes: seq<InternalNode>, root: Tree, k: nat, ts: seq<Tree>, offset: nat)
    requires ts != [] && HoldsAt(nodes, k, EncodeAll(ts)) && SameExtentsAll(root, k, ts)
    requires offset == if |ts| == 1 then 0 else Size(ts[0])
    ensures HoldsAt(nodes, k, Encode(ts[0], offset)) && SameExtents(root, k, ts[0])
    ensures HoldsAt(nodes, k + Size(ts[0]), EncodeAll(ts[1..])) && SameExtentsAll(root, k + Size(ts[0]), ts[1..])
    ensures k + Size(ts[0]) + SizeAll(ts[1..]) == k + SizeAll(ts)
  {
    ExtentsSplit(root, k, ts);
    HoldsSplit(nodes, k, ts, offset);
  }

  lemma {:induction false} ScanSubtrees(nodes: seq<InternalNode>, root: Tree, k: nat, ts: seq<Tree>, cut: nat,
                                        types: set<nat>, avoid: bool, rest: seq<nat>)
    requires |nodes| == Size(root) && cut < |nodes|
    requires HoldsAt(nodes, k, EncodeAll(ts)) && SameExtentsAll(root, k, ts)
    requires rest == Scan(nodes, root, k + SizeAll(ts), cut, types, avoid)
    ensures Scan(nodes, root, k, cut, types, avoid) == MatchesAll(ts, k, cut, types, avoid, rest)
    decreases ts, 0, 1
  {
    if ts != [] {
      var k1, offset := k + Size(ts[0]), if |ts| == 1 then 0 else Size(ts[0]);
      FirstAside(nodes, root, k, ts, offset);
      var later := Scan(nodes, root, k1, cut, types, avoid);
      ScanSubtree(nodes, root, k, ts[0], offset, cut, types, avoid, later);
      ScanSubtrees(nodes, root, k1, ts[1..], cut, types, avoid, rest);
    }
  }

  lemma ExtentOfSubtree(root: Tree, path: Path, m: nat)
    requires ValidPath(root, path) && m < Size(Subtree(root, path))
    ensures IndexOf(root, path) + m < Size(root)
    ensures Extent(root, IndexOf(root, path) + m) == Extent(Subtree(root, path), m)
    decreases |path|
  {
    SubtreeSlice(root, 0, path);
    if path != [] {
      var child := root.children[path[0]];
      ExtentOfSubtree(child, path[1..], m);
      SubtreeSlice(child, 0, path[1..]);
      ExtentOfChild(root.children, path[0], IndexOf(child, path[1..]) + m);
    }
  }

  lemma {:induction false} ExtentOfChild(ts: seq<Tree>, c: nat, m: nat)
    requires c < |ts| && m < Size(ts[c])
    ensures ChildStart(ts, c) + m < SizeAll(ts)
    ensures ExtentAll(ts, ChildStart(ts, c) + m) == Extent(ts[c], m)
  {
    ChildStartNext(ts, c);
    if c == 0 {
      assert ts[..0] == [];
    } else {
      assert ts[..c][0] == ts[0] && ts[..c][1..] == ts[1..][..c - 1];
      ExtentOfChild(ts[1..], c - 1, m);
    }
  }

  /** Every index of the array is the place of some node. */
  lemma {:induction false} PathTo(t: Tree, m: nat) returns (path: Path)
    requires m < Size(t)
    ensures ValidPath(t, path) && IndexOf(t, path) == m
    decreases t, 1
  {
    if m == 0 {
      path := [];
    } else {
      var c, rest := PathToAll(t.children, m - 1);
      path := [c] + rest;
      assert path[1..] == rest;
    }
  }

  lemma {:induction false} PathToAll(ts: seq<Tree>, m: nat) returns (c: nat, path: Path)
    requires m < SizeAll(ts)
    ensures c < |ts| && ValidPath(ts[c], path) && ChildStart(ts, c) + IndexOf(ts[c], path) == m
    decreases ts, 0
  {
    if m < Size(ts[0]) {
      c := 0;
      path := PathTo(ts[0], m);
      assert ts[..0] == [];
    } else {
      c, path := PathToAll(ts[1..], m - Size(ts[0]));
      assert ts[..c + 1][0] == ts[0] && ts[..c + 1][1..] == ts[1..][..c];
      c := c + 1;
    }
  }

  /** The iterator over the nodes of wanted types below a node, itself included. */
  class SearchIterator {
    var nextIndex: nat
    const endCodeIndex: nat
    const searchTypes: set<nat>
    const avoidFoundSubtrees: bool

    constructor (nodes: seq<InternalNode>, index: nat, types: set<nat>, avoid: bool)
      requires index < |nodes|
      ensures nextIndex == index && endCodeIndex == nodes[index].EndIndex()
      ensures searchTypes == types && avoidFoundSubtrees == avoid
    {
      nextIndex, endCodeIndex := index, nodes[index].EndIndex();
      searchTypes, avoidFoundSubtrees := types, avoid;
    }

    /** The first of the nodes still to be found; the others remain. Going past
        the last node of the array is where the iterator panics. */
    method Next(nodes: seq<InternalNode>, ghost root: Tree, ghost cut: nat) returns (step: SearchStep)
      requires IsTreeArray(nodes, root) && |nodes| == Size(root) && IsCut(nodes, endCodeIndex, cut)
      requires Sorted(nodes)
      modifies this
      ensures var rest := Scan(nodes, root, old(nextIndex), cut, searchTypes, avoidFoundSubtrees);
              if rest != [] then step == Found(rest[0])
                   && Scan(nodes, root, nextIndex, cut, searchTypes, avoidFoundSubtrees) == rest[1..]
                   && rest[0] < cut && nextIndex == After(root, rest[0], avoidFoundSubtrees)
              else nextIndex == old(nextIndex) && step == if nextIndex < |nodes| then Finished else Unreachable
    {
      var i := nextIndex;
      while i < |nodes|
        invariant nextIndex <= i && nextIndex == old(nextIndex)
        invariant i <= cut || i == nextIndex
        invariant Scan(nodes, root, i, cut, searchTypes, avoidFoundSubtrees)
               == Scan(nodes, root, nextIndex, cut, searchTypes, avoidFoundSubtrees)
      {
        var n := nodes[i];
        if n.startIndex >= endCodeIndex {
          return Finished;
        }
        assert i < cut;
        if n.type_ in searchTypes {
          step := Found(i);
          if avoidFoundSubtrees {
            ghost var path := PathTo(root, i);
            NodeAt(nodes, root, path);
            UpOffset(root, path);
            ExtentOfSubtree(root, path, 0);
            if n.nextNodeOffset == 0 {
              var leaf := LastLeafInSubtree(nodes, i, root, path);
              nextIndex := leaf + 1;
            } else {
              nextIndex := i + n.nextNodeOffset;
            }
          } else {
            nextIndex := i + 1;
          }
          return;
        }
        i := i + 1;
      }
      return Unreachable;
    }
  }

  datatype SearchStep = Found(index: nat) | Finished | Unreachable

  ghost predicate Sorted(nodes: seq<InternalNode>) {
    forall i, j :: 0 <= i < j < |nodes| ==> nodes[i].startIndex <= nodes[j].startIndex
  }

  /** A node of a wanted type whose subtree is the end of the whole tree: it is
      on the way from the root to the last leaf. */
  ghost predicate EndsTree(nodes: seq<InternalNode>, root: Tree, k: nat, types: set<nat>)
    requires |nodes| == Size(root) && k < |nodes|
  {
    nodes[k].type_ in types && k + Extent(root, k) == |nodes|
  }

  ghost predicate SomeEndsTree(nodes: seq<InternalNode>, root: Tree, from: nat, cut: nat, types: set<nat>)
    requires |nodes| == Size(root) && cut < |nodes|
  {
    exists k :: from <= k < cut && EndsTree(nodes, root, k, types)
  }

  /** The last node that a search finds reaches to the end of the tree if and only
      if there is such a node at all. */
  lemma {:induction false} LastFoundEndsTree(nodes: seq<InternalNode>, root: Tree, from: nat, cut: nat, types: set<nat>)
    requires |nodes| == Size(root) && cut < |nodes|
    ensures var found := Scan(nodes, root, from, cut, types, true);
            && (found != [] ==> found[|found| - 1] < |nodes|)
            && (SomeEndsTree(nodes, root, from, cut, types)
                <==> found != [] && After(root, found[|found| - 1], true) == |nodes|)
    decreases cut - from
  {
    if from < cut {
      if nodes[from].type_ in types {
        var after := After(root, from, true);
        LastFoundEndsTree(nodes, root, after, cut, types);
        if SomeEndsTree(nodes, root, from, cut, types) {
          var k :| from <= k < cut && EndsTree(nodes, root, k, types);
          if k < after {
            ExtentsNest(root, from, k);
          }
        }
        if after == |nodes| {
          assert EndsTree(nodes, root, from, types);
        }
      } else {
        LastFoundEndsTree(nodes, root, from + 1, cut, types);
      }
    }
  }

  /** Of the nodes to be searched, one of a wanted type starts before the end of
      the searched node and ends with the tree. */
  ghost predicate Overruns(nodes: seq<InternalNode>, root: Tree, index: nat, types: set<nat>)
    requires |nodes| == Size(root) && index < |nodes|
  {
    exists k :: index <= k < |nodes| && nodes[k].startIndex < nodes[index].EndIndex() && EndsTree(nodes, root, k, types)
  }

  lemma OverrunsBeforeCut(nodes: seq<InternalNode>, root: Tree, index: nat, cut: nat, types: set<nat>)
    requires |nodes| == Size(root) && index < |nodes| && Sorted(nodes) && IsCut(nodes, nodes[index].EndIndex(), cut)
    ensures Overruns(nodes, root, index, types) <==> SomeEndsTree(nodes, root, index, cut, types)
  {
    if Overruns(nodes, root, index, types) {
      var k :| index <= k < |nodes| && nodes[k].startIndex < nodes[index].EndIndex() && EndsTree(nodes, root, k, types);
      assert k < cut;
    }
  }

  /** Searching a node to the end: the matches of its subtree, in preorder, as
      far as they start before its end. The search panics instead of ending
      exactly when found subtrees are left out and a node on the way to the last
      leaf is searched for. */
  method Search(nodes: seq<InternalNode>, index: nat, types: set<nat>, avoid: bool,
                ghost root: Tree, ghost path: Path, ghost cut: nat) returns (all: seq<nat>, panics: bool)
    requires IsTreeArray(nodes, root) && ValidPath(root, path) && index == IndexOf(root, path) < |nodes| == Size(root)
    requires Sorted(nodes) && IsCut(nodes, nodes[index].EndIndex(), cut)
    requires cut <= index + Size(Subtree(root, path))
    ensures all == Matches(Subtree(root, path), index, cut, types, avoid, [])
    ensures panics <==> avoid && Overruns(nodes, root, index, types)
  {
    var search := new SearchIterator(nodes, index, types, avoid);
    all, panics := Drain(search, nodes, root, cut);
    SearchSubtree(nodes, root, path, cut, types, avoid);
    LastFoundEndsTree(nodes, root, index, cut, types);
    OverrunsBeforeCut(nodes, root, index, cut, types);
  }

  // A tree whose root begins at 0 and whose only leaf has no length, as that of a
  // text with nothing but a comment.
  const ROOT := Node(NODE_START, 0, 5, [Leaf(0, 5, 0)])
  const NODES := [InternalNode(0, NODE_START, 0, 5), InternalNode(0, 0, 5, 0)]

  lemma RootOverruns()
    ensures IsTreeArray(NODES, ROOT) && Sorted(NODES) && IsCut(NODES, NODES[0].EndIndex(), 1)
    ensures Size(ROOT) == 2 && Overruns(NODES, ROOT, 0, {NODE_START})
  {
    assert ROOT.children[1..] == [];
    assert EncodeAll(ROOT.children) == [NODES[1]] + [];
    assert Encode(ROOT, 0) == NODES;
    assert SizeAll(ROOT.children) == 1;
    assert EndsTree(NODES, ROOT, 0, {NODE_START});
  }

  /** Searching that tree for the type of its root finds the root, and panics. */
  method SearchForRoot() returns (all: seq<nat>, panics: bool)
    ensures panics && all == [0]
  {
    RootOverruns();
    all, panics := Search(NODES, 0, {NODE_START}, true, ROOT, [], 1);
  }

  lemma OneMoved<T>(a: seq<T>, b: seq<T>, x: T)
    requires b != [] && b[0] == x
    ensures (a + [x]) + b[1..] == a + b
  {
  }

  /** Calls the iterator until it ends or panics. */
  method Drain(search: SearchIterator, nodes: seq<InternalNode>, ghost root: Tree, ghost cut: nat)
    returns (all: seq<nat>, panics: bool)
    requires IsTreeArray(nodes, root) && |nodes| == Size(root) && IsCut(nodes, search.endCodeIndex, cut)
             && Sorted(nodes)
    requires search.nextIndex < |nodes|
    modifies search
    ensures all == Scan(nodes, root, old(search.nextIndex), cut, search.searchTypes, search.avoidFoundSubtrees)
    ensures all != [] ==> all[|all| - 1] < cut
    ensures panics <==> all != [] && After(root, all[|all| - 1], search.avoidFoundSubtrees) == |nodes|
  {
    all := [];
    ghost var rest := Scan(nodes, root, search.nextIndex, cut, search.searchTypes, search.avoidFoundSubtrees);
    ghost var expected := rest;
    var step := search.Next(nodes, root, cut);
    ghost var last := search.nextIndex;
    while step.Found?
      invariant all + rest == expected
      invariant step.Found? <==> rest != []
      invariant step.Found? ==> step.index == rest[0] < cut
      invariant step.Found? ==> last == After(root, step.index, search.avoidFoundSubtrees)
      invariant rest != [] ==> Scan(nodes, root, last, cut, search.searchTypes, search.avoidFoundSubtrees) == rest[1..]
      invariant search.nextIndex == last
      invariant all != [] ==> all[|all| - 1] < cut
      invariant step.Unreachable? ==> last == |nodes| && all != []
      invariant rest == [] && all != [] ==> last == After(root, all[|all| - 1], search.avoidFoundSubtrees)
      invariant rest == [] && last == |nodes| && all != [] ==> step.Unreachable?
      decreases |rest|
    {
      OneMoved(all, rest, step.index);
      all := all + [step.index];
      rest := rest[1..];
      step := search.Next(nodes, root, cut);
      last := search.nextIndex;
    }
    panics := step.Unreachable?;
  }

  lemma SearchSubtree(nodes: seq<InternalNode>, root: Tree, path: Path, cut: nat, types: set<nat>, avoid: bool)
    requires IsTreeArray(nodes, root) && ValidPath(root, path) && |nodes| == Size(root) && cut < |nodes|
    requires cut <= IndexOf(root, path) + Size(Subtree(root, path))
    ensures Scan(nodes, root, IndexOf(root, path), cut, types, avoid)
         == Matches(Subtree(root, path), IndexOf(root, path), cut, types, avoid, [])
  {
    SubtreeSlice(root, 0, path);
    var t := Subtree(root, path);
    var offset := if path == [] then 0 else OffsetOf(root, path);
    EncodeSize(t, offset);
    forall m | 0 <= m < Size(t)
      ensures Extent(root, IndexOf(root, path) + m) == Extent(t, m)
    {
      ExtentOfSubtree(root, path, m);
    }
    ScanSubtree(nodes, root, IndexOf(root, path), t, offset, cut, types, avoid, []);
    assert Scan(nodes, root, IndexOf(root, path) + Size(t), cut, types, avoid) == [];
  }
}
