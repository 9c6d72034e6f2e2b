/** Derivations of a grammar: syntax trees with every rule that was used, also
    those whose node is left out of the tree, and what the parser's flat tree
    has to do with them. */
module Derivations {
  import opened Rules
  import opened Powerset
  import opened Trees
  import opened ReplayBuffer
  import opened Parsing

  datatype Deriv =
    | DLeaf(kind: TransitionType, type_: nat, token: Token)
    | DNode(rule: nat, start: nat, kids: seq<Deriv>)

  /** The rules of a grammar: a table for each, which of them may be left out of
      the tree, and how tokens are matched with the labels of the tables. */
  datatype Tables = Tables(
    dfas: map<nat, seq<DfaState>>,
    omitted: set<nat>,
    keywords: map<string, nat>,
    softKeywords: map<nat, set<string>>)
  {
    /** The type that a label has as a leaf. */
    predicate HasType(kind: TransitionType, type_: nat) {
      match kind
      case Terminal(t) => type_ == t
      case KeywordToken(k) => k in keywords && keywords[k] == type_
      case _ => false
    }

    /** A token that the tokenizer marks with `key` can stand for `kind`. */
    predicate Matches(kind: TransitionType, key: nat) {
      || HasType(kind, key)
      || (kind.Terminal? && kind.terminal in softKeywords
          && exists k :: k in softKeywords[kind.terminal] && k in keywords && keywords[k] == key)
    }
  }

  function Label(d: Deriv): TransitionType {
    match d
    case DLeaf(kind, _, _) => kind
    case DNode(rule, _, _) => Nonterminal(rule)
  }

  function Labels(ds: seq<Deriv>): Word {
    if ds == [] then [] else [Label(ds[0])] + Labels(ds[1..])
  }

  /** Each node's children spell a word of its rule; each leaf is a token that
      its label matches, with the label's type or the token's own. */
  ghost predicate Derives(t: Tables, d: Deriv)
    decreases d
  {
    match d
    case DLeaf(kind, type_, token) =>
      t.Matches(kind, token.transition) && (t.HasType(kind, type_) || type_ == token.transition)
    case DNode(rule, _, kids) =>
      && rule in t.dfas && Accepts(t.dfas[rule], Labels(kids))
      && forall i :: 0 <= i < |kids| ==> Derives(t, kids[i])
  }

  /** No node of the derivation is without children. */
  ghost predicate Filled(d: Deriv)
    decreases d
  {
    d.DNode? ==> d.kids != [] && forall i :: 0 <= i < |d.kids| ==> Filled(d.kids[i])
  }

  function Yield(d: Deriv): seq<Token>
    decreases d, 1
  {
    match d
    case DLeaf(_, _, token) => [token]
    case DNode(_, _, kids) => YieldAll(kids)
  }

  function YieldAll(ds: seq<Deriv>): seq<Token>
    decreases ds, 0
  {
    if ds == [] then [] else Yield(ds[0]) + YieldAll(ds[1..])
  }

  /** Where the last leaf ends. */
  function End(d: Deriv): nat
    decreases d
  {
    match d
    case DLeaf(_, _, token) => token.EndIndex()
    case DNode(_, start, kids) => if kids == [] then start else End(kids[|kids| - 1])
  }

  /** The syntax tree of a derivation: a node with one child whose rule may be
      left out gives way to its child. */
  function Collapse(omitted: set<nat>, d: Deriv): Tree
    decreases d, 1
  {
    match d
    case DLeaf(_, type_, token) => Leaf(type_, token.startIndex, token.length)
    case DNode(rule, start, kids) =>
      if rule in omitted && |kids| == 1 then Collapse(omitted, kids[0])
      else Node(rule, start, Minus32(End(d), start), CollapseAll(omitted, kids))
  }

  function CollapseAll(omitted: set<nat>, ds: seq<Deriv>): (ts: seq<Tree>)
    ensures |ts| == |ds|
    decreases ds, 0
  {
    if ds == [] then [] else [Collapse(omitted, ds[0])] + CollapseAll(omitted, ds[1..])
  }

  // ----- appending one more child

  lemma {:induction false} LabelsAppend(ds: seq<Deriv>, d: Deriv)
    ensures Labels(ds + [d]) == Labels(ds) + [Label(d)]
  {
    if ds == [] {
      assert [] + [d] == [d] && [d][1..] == [];
    } else {
      assert (ds + [d])[1..] == ds[1..] + [d];
      LabelsAppend(ds[1..], d);
    }
  }

  lemma {:induction false} YieldAppend(ds: seq<Deriv>, d: Deriv)
    ensures YieldAll(ds + [d]) == YieldAll(ds) + Yield(d)
  {
    if ds == [] {
      assert [] + [d] == [d] && [d][1..] == [];
    } else {
      assert (ds + [d])[1..] == ds[1..] + [d];
      YieldAppend(ds[1..], d);
    }
  }

  lemma {:induction false} CollapseAppend(omitted: set<nat>, ds: seq<Deriv>, d: Deriv)
    ensures CollapseAll(omitted, ds + [d]) == CollapseAll(omitted, ds) + [Collapse(omitted, d)]
  {
    if ds == [] {
      assert [] + [d] == [d] && [d][1..] == [];
    } else {
      assert (ds + [d])[1..] == ds[1..] + [d];
      CollapseAppend(omitted, ds[1..], d);
    }
  }

  lemma {:induction false} CollapseAllAt(omitted: set<nat>, ds: seq<Deriv>, i: nat)
    requires i < |ds|
    ensures CollapseAll(omitted, ds)[i] == Collapse(omitted, ds[i])
  {
    if i > 0 {
      CollapseAllAt(omitted, ds[1..], i - 1);
    }
  }

  lemma {:induction false} RunAppend(dfas: seq<DfaState>, d: nat, w: Word, t: TransitionType)
    ensures Powerset.Run(dfas, d, w + [t])
         == match Powerset.Run(dfas, d, w)
            case None => None
            case Some(d') => Powerset.Run(dfas, d', [t])
    decreases |w|
  {
    if w == [] {
      assert [] + [t] == [t];
    } else {
      assert (w + [t])[0] == w[0] && (w + [t])[1..] == w[1..] + [t];
      if d < |dfas| && Powerset.Next(dfas, d, w[0]).Some? {
        RunAppend(dfas, Powerset.Next(dfas, d, w[0]).value, w[1..], t);
      }
    }
  }

  // ----- siblings of which each is linked to the next

  function EncodeLinked(ts: seq<Tree>): (a: seq<InternalNode>) {
    if ts == [] then [] else Encode(ts[0], Size(ts[0])) + EncodeLinked(ts[1..])
  }

  lemma JoinFront<T>(a: seq<T>, b: seq<T>, c: seq<T>)
    ensures a + (b + c) == a + b + c
  {
  }

  lemma {:induction false} LinkedSize(ts: seq<Tree>)
    ensures |EncodeLinked(ts)| == SizeAll(ts)
  {
    if ts != [] {
      EncodeSize(ts[0], Size(ts[0]));
      LinkedSize(ts[1..]);
    }
  }

  lemma {:induction false} LinkedAppend(ts: seq<Tree>, t: Tree)
    ensures EncodeLinked(ts + [t]) == EncodeLinked(ts) + Encode(t, Size(t))
  {
    if ts == [] {
      assert [] + [t] == [t] && [t][1..] == [];
    } else {
      assert (ts + [t])[1..] == ts[1..] + [t];
      LinkedAppend(ts[1..], t);
      JoinFront(Encode(ts[0], Size(ts[0])), EncodeLinked(ts[1..]), Encode(t, Size(t)));
    }
  }

  /** Finished siblings: all but the last are linked. */
  lemma {:induction false} LinkedThenLast(ts: seq<Tree>, t: Tree)
    ensures EncodeAll(ts + [t]) == EncodeLinked(ts) + Encode(t, 0)
  {
    if ts == [] {
      assert [] + [t] == [t] && [t][1..] == [];
    } else {
      assert (ts + [t])[1..] == ts[1..] + [t];
      LinkedThenLast(ts[1..], t);
      JoinFront(Encode(ts[0], Size(ts[0])), EncodeLinked(ts[1..]), Encode(t, 0));
    }
  }

  /** Only the first node of an array tells the offset of its root. */
  lemma EncodeRelinked(t: Tree, a: nat, b: nat)
    ensures |Encode(t, a)| == |Encode(t, b)| == Size(t)
    ensures Encode(t, a)[0 := Encode(t, a)[0].(nextNodeOffset := b)] == Encode(t, b)
  {
    EncodeSize(t, a);
    EncodeSize(t, b);
  }

  // ----- the nodes of a collapsed derivation

  lemma {:induction false} EndOfCollapsed(omitted: set<nat>, d: Deriv, offset: nat)
    requires Filled(d)
    ensures var a := Encode(Collapse(omitted, d), offset); a != [] && a[|a| - 1].EndIndex() == End(d)
    decreases d
  {
    EncodeSize(Collapse(omitted, d), offset);
    if d.DNode? {
      var n := |d.kids|;
      if d.rule in omitted && n == 1 {
        EndOfCollapsed(omitted, d.kids[0], offset);
      } else {
        EndOfCollapsed(omitted, d.kids[n - 1], 0);
        assert d.kids == d.kids[..n - 1] + [d.kids[n - 1]];
        CollapseAppend(omitted, d.kids[..n - 1], d.kids[n - 1]);
        LinkedThenLast(CollapseAll(omitted, d.kids[..n - 1]), Collapse(omitted, d.kids[n - 1]));
      }
    }
  }

  lemma {:induction false} YieldNotEmpty(d: Deriv)
    requires Filled(d)
    ensures Yield(d) != []
    decreases d
  {
    if d.DNode? {
      YieldNotEmpty(d.kids[0]);
    }
  }

  /** The length of the root is the distance from its start to the end of the
      last leaf, so setting it again changes nothing. */
  lemma {:induction false} LengthOfCollapsed(omitted: set<nat>, d: Deriv)
    requires Filled(d) && Short(Yield(d))
    ensures var t := Collapse(omitted, d); t.length == Minus32(End(d), t.start)
    decreases d
  {
    match d
    case DLeaf(_, _, token) =>
      assert Yield(d)[0] == token;
      assert Minus32(token.EndIndex(), token.startIndex) == token.length;
    case DNode(rule, start, kids) =>
      if rule in omitted && |kids| == 1 {
        assert YieldAll(kids[1..]) == [];
        assert Yield(d) == Yield(kids[0]);
        LengthOfCollapsed(omitted, kids[0]);
      }
  }
}
