/** Syntax trees and their flat form: an array of nodes in preorder, each with
    the distance to its next sibling. */
module Trees {

  /** Types from here on are nonterminals, those below are leaves. */
  const NODE_START: nat := 0x8000

  datatype InternalNode = InternalNode(nextNodeOffset: nat, type_: nat, startIndex: nat, length: nat) {
    function EndIndex(): nat {
      startIndex + length
    }

    predicate IsLeaf() {
      type_ < NODE_START
    }
  }

  datatype Tree =
    | Leaf(type_: nat, start: nat, length: nat)
    | Node(type_: nat, start: nat, length: nat, children: seq<Tree>)
  {
    function EndIndex(): nat {
      start + length
    }
  }

  function Size(t: Tree): (n: nat)
    ensures n >= 1
    decreases t, 1
  {
    match t
    case Leaf(_, _, _) => 1
    case Node(_, _, _, children) => 1 + SizeAll(children)
  }

  function SizeAll(ts: seq<Tree>): nat
    decreases ts, 0
  {
    if ts == [] then 0 else Size(ts[0]) + SizeAll(ts[1..])
  }

  /** The array of a tree whose root has the given offset to its sibling. */
  function Encode(t: Tree, offset: nat): (a: seq<InternalNode>)
    decreases t, 1
  {
    match t
    case Leaf(type_, start, length) => [InternalNode(offset, type_, start, length)]
    case Node(type_, start, length, children) =>
      [InternalNode(offset, type_, start, length)] + EncodeAll(children)
  }

  /** The arrays of siblings, one after the other; the last has offset 0. */
  function EncodeAll(ts: seq<Tree>): (a: seq<InternalNode>)
    decreases ts, 0
  {
    if ts == [] then []
    else Encode(ts[0], if |ts| == 1 then 0 else Size(ts[0])) + EncodeAll(ts[1..])
  }

  lemma {:induction false} EncodeSize(t: Tree, offset: nat)
    ensures |Encode(t, offset)| == Size(t)
    decreases t, 1
  {
    match t
    case Leaf(_, _, _) =>
    case Node(_, _, _, children) => EncodeAllSize(children);
  }

  lemma {:induction false} EncodeAllSize(ts: seq<Tree>)
    ensures |EncodeAll(ts)| == SizeAll(ts)
    decreases ts, 0
  {
    if ts != [] {
      EncodeSize(ts[0], if |ts| == 1 then 0 else Size(ts[0]));
      EncodeAllSize(ts[1..]);
    }
  }

  lemma {:induction false} SizeAllAppend(ts: seq<Tree>, us: seq<Tree>)
    ensures SizeAll(ts + us) == SizeAll(ts) + SizeAll(us)
  {
    if ts == [] {
      assert ts + us == us;
    } else {
      assert (ts + us)[1..] == ts[1..] + us;
      SizeAllAppend(ts[1..], us);
    }
  }

  /** Where the c-th of some siblings begins. */
  function ChildStart(ts: seq<Tree>, c: nat): nat
    requires c <= |ts|
  {
    SizeAll(ts[..c])
  }

  lemma ChildStartNext(ts: seq<Tree>, c: nat)
    requires c < |ts|
    ensures ChildStart(ts, c + 1) == ChildStart(ts, c) + Size(ts[c])
    ensures ChildStart(ts, c + 1) <= SizeAll(ts)
  {
    assert ts[..c + 1] == ts[..c] + [ts[c]];
    SizeAllAppend(ts[..c], [ts[c]]);
    assert ts == ts[..c + 1] + ts[c + 1..];
    SizeAllAppend(ts[..c + 1], ts[c + 1..]);
  }

  /** Leaves have leaf types; inner nodes have nonterminal types and children. */
  ghost predicate Proper(t: Tree)
    decreases t
  {
    match t
    case Leaf(type_, _, _) => type_ < NODE_START
    case Node(type_, _, _, children) =>
      type_ >= NODE_START && children != [] && forall i :: 0 <= i < |children| ==> Proper(children[i])
  }

  // ----- nodes as paths from the root

  /** A node of a tree, as the child numbers that lead to it. */
  type Path = seq<nat>

  predicate ValidPath(t: Tree, path: Path)
    decreases |path|
  {
    path == []
    || (t.Node? && path[0] < |t.children| && ValidPath(t.children[path[0]], path[1..]))
  }

  function Subtree(t: Tree, path: Path): Tree
    requires ValidPath(t, path)
    decreases |path|
  {
    if path == [] then t else Subtree(t.children[path[0]], path[1..])
  }

  /** The place of a node in the array of the tree. */
  function IndexOf(t: Tree, path: Path): nat
    requires ValidPath(t, path)
    decreases |path|
  {
    if path == [] then 0 else 1 + ChildStart(t.children, path[0]) + IndexOf(t.children[path[0]], path[1..])
  }

  /** The offset stored for a node: 0 for a last child, else its size. */
  function OffsetOf(t: Tree, path: Path): nat
    requires ValidPath(t, path)
  {
    if path == [] then 0
    else
      PrefixValid(t, path, |path| - 1);
      var parent := Subtree(t, path[..|path| - 1]);
      ValidLast(t, path);
      if path[|path| - 1] == |parent.children| - 1 then 0 else Size(Subtree(t, path))
  }

  lemma {:induction false} PrefixValid(t: Tree, path: Path, k: nat)
    requires ValidPath(t, path) && k <= |path|
    ensures ValidPath(t, path[..k])
    decreases |path|
  {
    if k > 0 {
      PrefixValid(t.children[path[0]], path[1..], k - 1);
      assert path[..k][1..] == path[1..][..k - 1];
    }
  }

  /** The last step of a path goes to a child of the node before it. */
  lemma {:induction false} ValidLast(t: Tree, path: Path)
    requires ValidPath(t, path) && path != []
    ensures ValidPath(t, path[..|path| - 1])
    ensures var parent := Subtree(t, path[..|path| - 1]);
            parent.Node? && path[|path| - 1] < |parent.children|
            && Subtree(t, path) == parent.children[path[|path| - 1]]
            && IndexOf(t, path) == IndexOf(t, path[..|path| - 1]) + 1 + ChildStart(parent.children, path[|path| - 1])
    decreases |path|
  {
    PrefixValid(t, path, |path| - 1);
    if |path| > 1 {
      var front := path[..|path| - 1];
      assert front[1..] == path[1..][..|path| - 2];
      ValidLast(t.children[path[0]], path[1..]);
    } else {
      assert path[1..] == [];
    }
  }

  lemma {:induction false} ValidExtend(t: Tree, path: Path, c: nat)
    requires ValidPath(t, path)
    requires Subtree(t, path).Node? && c < |Subtree(t, path).children|
    ensures ValidPath(t, path + [c])
    ensures Subtree(t, path + [c]) == Subtree(t, path).children[c]
    ensures IndexOf(t, path + [c]) == IndexOf(t, path) + 1 + ChildStart(Subtree(t, path).children, c)
    decreases |path|
  {
    if path != [] {
      assert (path + [c])[1..] == path[1..] + [c];
      ValidExtend(t.children[path[0]], path[1..], c);
    } else {
      assert (path + [c])[1..] == [];
    }
  }

  lemma {:induction false} SubtreeProper(t: Tree, path: Path)
    requires ValidPath(t, path) && Proper(t)
    ensures Proper(Subtree(t, path))
    decreases |path|
  {
    if path != [] {
      SubtreeProper(t.children[path[0]], path[1..]);
    }
  }

  // ----- the array holds every subtree as a slice

  lemma SliceAfter<T>(a: seq<T>, b: seq<T>, i: nat, n: nat)
    requires i + n <= |b|
    ensures (a + b)[|a| + i..|a| + i + n] == b[i..i + n]
  {
  }

  lemma SliceOfSlice<T>(a: seq<T>, i: nat, n: nat, j: nat, m: nat)
    requires i + n <= |a| && j + m <= n
    ensures a[i..i + n][j..j + m] == a[i + j..i + j + m]
  {
    var outer := a[i..i + n];
    var left, right := outer[j..j + m], a[i + j..i + j + m];
    forall x | 0 <= x < m
      ensures left[x] == right[x]
    {
      assert left[x] == outer[j + x];
    }
  }

  lemma {:induction false} EncodeAllAt(ts: seq<Tree>, c: nat)
    requires c < |ts|
    ensures |EncodeAll(ts)| == SizeAll(ts)
    ensures ChildStart(ts, c) + Size(ts[c]) <= SizeAll(ts)
    ensures EncodeAll(ts)[ChildStart(ts, c)..ChildStart(ts, c) + Size(ts[c])]
         == Encode(ts[c], if c == |ts| - 1 then 0 else Size(ts[c]))
    decreases c
  {
    var first := Encode(ts[0], if |ts| == 1 then 0 else Size(ts[0]));
    EncodeAllSize(ts);
    EncodeSize(ts[0], if |ts| == 1 then 0 else Size(ts[0]));
    ChildStartNext(ts, c);
    assert EncodeAll(ts) == first + EncodeAll(ts[1..]);
    if c == 0 {
      assert ts[..0] == [];
    } else {
      EncodeAllAt(ts[1..], c - 1);
      assert ts[..c][1..] == ts[1..][..c - 1];
      SliceAfter(first, EncodeAll(ts[1..]), ChildStart(ts[1..], c - 1), Size(ts[c]));
    }
  }

  /** The offset stored for the c-th of some siblings. */
  function SiblingOffset(ts: seq<Tree>, c: nat): nat
    requires c < |ts|
  {
    if c == |ts| - 1 then 0 else Size(ts[c])
  }

  lemma OffsetOfStep(t: Tree, path: Path)
    requires ValidPath(t, path) && path != []
    ensures OffsetOf(t, path)
         == if |path| == 1 then SiblingOffset(t.children, path[0]) else OffsetOf(t.children[path[0]], path[1..])
  {
    var front := path[..|path| - 1];
    if |path| == 1 {
      assert front == [] && path[1..] == [];
      assert Subtree(t, front) == t && Subtree(t, path) == t.children[path[0]];
    } else {
      assert front[1..] == path[1..][..|path| - 2];
      ValidLast(t, path);
      ValidLast(t.children[path[0]], path[1..]);
    }
  }

  /** The offset stored for a node, the root having the one given. */
  function OffsetIn(t: Tree, offset: nat, path: Path): nat
    requires ValidPath(t, path)
  {
    if path == [] then offset else OffsetOf(t, path)
  }

  ghost predicate IsSlice<T>(a: seq<T>, i: nat, b: seq<T>) {
    i + |b| <= |a| && a[i..i + |b|] == b
  }

  lemma SlicesNest<T>(a: seq<T>, i: nat, b: seq<T>, j: nat, c: seq<T>)
    requires IsSlice(a, i, b) && IsSlice(b, j, c)
    ensures IsSlice(a, i + j, c)
  {
    SliceOfSlice(a, i, |b|, j, |c|);
  }

  /** The slice from a node's index is its own array. */
  ghost predicate HasSlice(t: Tree, offset: nat, path: Path)
    requires ValidPath(t, path)
  {
    IsSlice(Encode(t, offset), IndexOf(t, path), Encode(Subtree(t, path), OffsetIn(t, offset, path)))
  }

  /** The array of a child is a slice of its parent's. */
  lemma ChildSlice(t: Tree, offset: nat, c: nat)
    requires t.Node? && c < |t.children|
    ensures IsSlice(Encode(t, offset), 1 + ChildStart(t.children, c),
                    Encode(t.children[c], SiblingOffset(t.children, c)))
  {
    var a, b := Encode(t, offset), EncodeAll(t.children);
    EncodeAllAt(t.children, c);
    EncodeSize(t.children[c], SiblingOffset(t.children, c));
    assert a == a[..1] + b;
    SliceAfter(a[..1], b, ChildStart(t.children, c), Size(t.children[c]));
  }

  lemma SliceOfChild(t: Tree, offset: nat, path: Path)
    requires ValidPath(t, path) && path != []
    requires HasSlice(t.children[path[0]], SiblingOffset(t.children, path[0]), path[1..])
    ensures HasSlice(t, offset, path)
  {
    var c, child := path[0], t.children[path[0]];
    ChildSlice(t, offset, c);
    OffsetOfStep(t, path);
    SlicesNest(Encode(t, offset), 1 + ChildStart(t.children, c), Encode(child, SiblingOffset(t.children, c)),
               IndexOf(child, path[1..]), Encode(Subtree(t, path), OffsetIn(t, offset, path)));
  }

  lemma {:induction false} SliceAt(t: Tree, offset: nat, path: Path)
    requires ValidPath(t, path)
    ensures HasSlice(t, offset, path)
    decreases |path|
  {
    if path == [] {
      EncodeSize(t, offset);
      assert Encode(t, offset)[0..Size(t)] == Encode(t, offset);
    } else {
      var child := t.children[path[0]];
      SliceAt(child, SiblingOffset(t.children, path[0]), path[1..]);
      SliceOfChild(t, offset, path);
    }
  }

  lemma SubtreeSlice(t: Tree, offset: nat, path: Path)
    requires ValidPath(t, path)
    ensures |Encode(t, offset)| == Size(t)
    ensures IndexOf(t, path) + Size(Subtree(t, path)) <= Size(t)
    ensures Encode(t, offset)[IndexOf(t, path)..IndexOf(t, path) + Size(Subtree(t, path))]
         == Encode(Subtree(t, path), if path == [] then offset else OffsetOf(t, path))
  {
    EncodeSize(t, offset);
    EncodeSize(Subtree(t, path), OffsetIn(t, offset, path));
    SliceAt(t, offset, path);
  }
}
