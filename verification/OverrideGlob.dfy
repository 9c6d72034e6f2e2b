/** Which modules a pattern of a configuration override applies to. Both are
    read from their ends: the pattern is gone through in reverse, the module from
    its name up through its directories. */
module OverrideGlob {

  datatype PathPart = Part(name: string) | Wildcard

  /** The parts against a module, whose last component is the name and whose
      others are its directories, outermost first. */
  predicate MatchesFilePath(path: seq<PathPart>, components: seq<string>)
    requires components != []
    decreases |path|, |components|, 0
  {
    if path == [] then false
    else
      var last, rest := path[|path| - 1], path[..|path| - 1];
      var name, parents := components[|components| - 1], components[..|components| - 1];
      match last
      case Part(part) => name == part && if parents != [] then MatchesFilePath(rest, parents) else rest == []
      case Wildcard => CheckWildcardParents(rest, components)
  }

  predicate CheckWildcardParents(path: seq<PathPart>, components: seq<string>)
    requires components != []
    decreases |path|, |components|, 1
  {
    var parents := components[..|components| - 1];
    || MatchesFilePath(path, components)
    || if parents != [] then CheckWildcardParents(path, parents) else path == []
  }

  // ----- what a pattern means

  /** The components cut into one piece for each part: a name matches itself, a
      leading star one or more components, any other star zero or more. */
  ghost predicate Cut(path: seq<PathPart>, components: seq<string>, cuts: seq<nat>) {
    && |cuts| == |path| + 1 && cuts[0] == 0 && cuts[|path|] == |components|
    && forall i :: 0 <= i < |path| ==> PieceFits(path[i], i, cuts[i], cuts[i + 1], components)
  }

  ghost predicate PieceFits(part: PathPart, i: nat, from: nat, to: nat, components: seq<string>) {
    && from <= to <= |components|
    && match part
       case Part(name) => to == from + 1 && components[from] == name
       case Wildcard => i == 0 ==> from < to
  }

  ghost predicate Applies(path: seq<PathPart>, components: seq<string>) {
    exists cuts :: Cut(path, components, cuts)
  }

  lemma PiecesStay(path: seq<PathPart>, components: seq<string>, shorter: seq<string>, cuts: seq<nat>)
    requires Cut(path, shorter, cuts) && shorter <= components
    ensures forall i :: 0 <= i < |path| ==> PieceFits(path[i], i, cuts[i], cuts[i + 1], components)
  {
    forall i | 0 <= i < |path|
      ensures PieceFits(path[i], i, cuts[i], cuts[i + 1], components)
    {
      assert PieceFits(path[i], i, cuts[i], cuts[i + 1], shorter);
    }
  }

  /** A last part that takes the components from `from` on. */
  lemma CutLonger(path: seq<PathPart>, components: seq<string>, from: nat)
    requires path != [] && from <= |components|
    requires Applies(path[..|path| - 1], components[..from])
    requires PieceFits(path[|path| - 1], |path| - 1, from, |components|, components)
    ensures Applies(path, components)
  {
    var n := |path| - 1;
    var cuts: seq<nat> :| Cut(path[..n], components[..from], cuts);
    PiecesStay(path[..n], components, components[..from], cuts);
    var end: nat := |components|;
    var more: seq<nat> := cuts + [end];
    forall i | 0 <= i < |path|
      ensures PieceFits(path[i], i, more[i], more[i + 1], components)
    {
      if i < n {
        assert path[i] == path[..n][i] && more[i] == cuts[i] && more[i + 1] == cuts[i + 1];
      }
    }
    assert Cut(path, components, more);
  }

  lemma CutMonotone(path: seq<PathPart>, components: seq<string>, cuts: seq<nat>, i: nat)
    requires Cut(path, components, cuts) && i <= |path|
    ensures forall j :: 0 <= j <= i ==> cuts[j] <= cuts[i]
    decreases i
  {
    if i > 0 {
      CutMonotone(path, components, cuts, i - 1);
      assert PieceFits(path[i - 1], i - 1, cuts[i - 1], cuts[i], components);
    }
  }

  /** Where the last part begins. */
  lemma CutShorter(path: seq<PathPart>, components: seq<string>) returns (from: nat)
    requires path != [] && Applies(path, components)
    ensures from <= |components| && PieceFits(path[|path| - 1], |path| - 1, from, |components|, components)
    ensures Applies(path[..|path| - 1], components[..from])
  {
    var n := |path| - 1;
    var cuts :| Cut(path, components, cuts);
    from := cuts[n];
    assert PieceFits(path[n], n, cuts[n], cuts[n + 1], components);
    var fewer := cuts[..n + 1];
    CutMonotone(path, components, cuts, n);
    forall i | 0 <= i < n
      ensures PieceFits(path[..n][i], i, fewer[i], fewer[i + 1], components[..from])
    {
      assert PieceFits(path[i], i, cuts[i], cuts[i + 1], components);
    }
    assert Cut(path[..n], components[..from], fewer);
  }

  lemma NothingApplies(components: seq<string>)
    ensures Applies([], components) <==> components == []
  {
    if components == [] {
      assert Cut([], components, [0]);
    }
  }

  /** Only the empty pattern fits nothing: a leading star takes something. */
  lemma {:induction false} SomethingApplies(path: seq<PathPart>)
    requires Applies(path, [])
    ensures path == []
    decreases |path|
  {
    if path != [] {
      var from := CutShorter(path, []);
      var none: seq<string> := [];
      assert none[..from] == none;
      SomethingApplies(path[..|path| - 1]);
    }
  }

  /** The matcher is exact. */
  lemma {:induction false} MatchesExactly(path: seq<PathPart>, components: seq<string>)
    requires components != []
    ensures MatchesFilePath(path, components) <==> Applies(path, components)
    decreases |path|, |components|, 0
  {
    if path == [] {
      NothingApplies(components);
    } else {
      var n, m := |path| - 1, |components| - 1;
      match path[n]
      case Part(part) => PartExactly(path, components);
      case Wildcard =>
        StarExactly(path[..n], components);
        StarApplies(path, components);
    }
  }

  lemma PartExactly(path: seq<PathPart>, components: seq<string>)
    requires components != [] && path != [] && path[|path| - 1].Part?
    ensures MatchesFilePath(path, components) <==> Applies(path, components)
    decreases |path|, |components|, 0, 0
  {
    var n, m := |path| - 1, |components| - 1;
    if m > 0 {
      MatchesExactly(path[..n], components[..m]);
    } else {
      assert components[..m] == [];
      NothingApplies([]);
      if path[..n] != [] && Applies(path[..n], []) {
        SomethingApplies(path[..n]);
      }
    }
    if components[m] == path[n].name && Applies(path[..n], components[..m]) {
      CutLonger(path, components, m);
    }
    if Applies(path, components) {
      var from := CutShorter(path, components);
      assert from == m;
    }
  }

  /** Some number of components from the end are left to a star. */
  ghost predicate AppliesBelow(path: seq<PathPart>, components: seq<string>) {
    exists from :: AppliesUpTo(path, components, from)
  }

  ghost predicate AppliesUpTo(path: seq<PathPart>, components: seq<string>, from: nat) {
    from <= |components| && (path == [] ==> from < |components|) && Applies(path, components[..from])
  }

  lemma StarApplies(path: seq<PathPart>, components: seq<string>)
    requires path != [] && path[|path| - 1].Wildcard?
    ensures Applies(path, components) <==> AppliesBelow(path[..|path| - 1], components)
  {
    var n := |path| - 1;
    if Applies(path, components) {
      var from := CutShorter(path, components);
      assert AppliesUpTo(path[..n], components, from);
    }
    if AppliesBelow(path[..n], components) {
      var from: nat :| AppliesUpTo(path[..n], components, from);
      CutLonger(path, components, from);
    }
  }

  lemma {:induction false} StarExactly(path: seq<PathPart>, components: seq<string>)
    requires components != []
    ensures CheckWildcardParents(path, components) <==> AppliesBelow(path, components)
    decreases |path|, |components|, 1
  {
    var m := |components| - 1;
    MatchesExactly(path, components);
    assert components[..|components|] == components;
    if path == [] {
      NothingApplies(components);
      NothingApplies([]);
      assert components[..0] == [];
      assert AppliesUpTo(path, components, 0);
      AllWildcard(components);
    } else {
      if m > 0 {
        StarExactly(path, components[..m]);
      }
      if Applies(path, components) {
        assert AppliesUpTo(path, components, |components|);
      }
      StarNarrower(path, components);
    }
  }

  lemma {:induction false} AllWildcard(components: seq<string>)
    requires components != []
    ensures CheckWildcardParents([], components)
    decreases |components|
  {
    if |components| > 1 {
      AllWildcard(components[..|components| - 1]);
    }
  }

  /** The star takes nothing, or the last component and maybe more. */
  lemma StarNarrower(path: seq<PathPart>, components: seq<string>)
    requires components != [] && path != []
    ensures AppliesBelow(path, components)
       <==> Applies(path, components) || AppliesBelow(path, components[..|components| - 1])
    ensures |components| == 1 ==> !AppliesBelow(path, components[..|components| - 1])
  {
    var m := |components| - 1;
    if AppliesBelow(path, components) {
      var from: nat :| AppliesUpTo(path, components, from);
      if from <= m {
        assert components[..m][..from] == components[..from];
        assert AppliesUpTo(path, components[..m], from);
      } else {
        assert components[..from] == components;
      }
    }
    if Applies(path, components) {
      assert components[..|components|] == components;
      assert AppliesUpTo(path, components, |components|);
    }
    if AppliesBelow(path, components[..m]) {
      var from: nat :| AppliesUpTo(path, components[..m], from);
      assert components[..m][..from] == components[..from];
      assert AppliesUpTo(path, components, from);
      if m == 0 {
        assert components[..from] == [];
        SomethingApplies(path);
      }
    }
  }
}
