/** Which files an invalidation reaches: each file system entry keeps the files
    that depend on it, and this graph may be cyclic. */
module Invalidation {
  import opened Rules

  /** A file may depend on so much that everything has to go. */
  datatype Invalidations = InvalidatesDb | Dependents(files: set<nat>)

  /** The entry of a file in the tree, with the index of the file once it has one. */
  datatype Entry = Entry(path: string, fileIndex: Option<nat>, invalidations: Invalidations)

  /** What a loaded file is: its code, and the files whose references it has been
      told to forget. */
  datatype Loaded = Loaded(code: string, forgotten: set<Option<nat>>)

  /** Files that were made from another one share its entry. */
  datatype FileState = FileState(path: string, entry: nat, file: Option<Loaded>)

  /** The entry of each file. */
  function Owners(files: seq<FileState>): (owners: seq<nat>)
    ensures |owners| == |files| && forall f :: 0 <= f < |files| ==> owners[f] == files[f].entry
  {
    seq(|files|, f requires 0 <= f < |files| => files[f].entry)
  }

  ghost predicate ValidGraph(entries: seq<Entry>, owners: seq<nat>) {
    && (forall f :: 0 <= f < |owners| ==> owners[f] < |entries|)
    && forall e :: 0 <= e < |entries| ==> ValidInvalidations(entries[e].invalidations, |owners|)
  }

  ghost predicate ValidInvalidations(invalidations: Invalidations, count: nat) {
    invalidations.Dependents? ==> forall f :: f in invalidations.files ==> f < count
  }

  /** The files to invalidate when `f` is. */
  function Edges(entries: seq<Entry>, owners: seq<nat>, f: nat): set<nat> {
    if f < |owners| && owners[f] < |entries| && entries[owners[f]].invalidations.Dependents?
    then entries[owners[f]].invalidations.files
    else {}
  }

  predicate IsDb(entries: seq<Entry>, owners: seq<nat>, f: nat) {
    f < |owners| && owners[f] < |entries| && entries[owners[f]].invalidations.InvalidatesDb?
  }

  ghost predicate Closed(entries: seq<Entry>, owners: seq<nat>, r: set<nat>) {
    forall f :: f in r ==> Edges(entries, owners, f) <= r
  }

  /** `x` can be reached from `s`: it is in every closed set that holds `s`. */
  ghost predicate Reached(entries: seq<Entry>, owners: seq<nat>, s: set<nat>, x: nat) {
    forall r: set<nat> :: s <= r && Closed(entries, owners, r) ==> x in r
  }

  /** `r` is all that can be reached from `s`. */
  ghost predicate IsReach(entries: seq<Entry>, owners: seq<nat>, s: set<nat>, r: set<nat>) {
    s <= r && Closed(entries, owners, r) && forall x :: x in r ==> Reached(entries, owners, s, x)
  }

  /** A walk along the edges, from a file of `s`. */
  ghost predicate Path(entries: seq<Entry>, owners: seq<nat>, s: set<nat>, path: seq<nat>) {
    && path != [] && path[0] in s
    && forall i :: 0 < i < |path| ==> path[i] in Edges(entries, owners, path[i - 1])
  }

  lemma {:induction false} PathReaches(entries: seq<Entry>, owners: seq<nat>, s: set<nat>, path: seq<nat>, r: set<nat>)
    requires Path(entries, owners, s, path) && s <= r && Closed(entries, owners, r)
    ensures path[|path| - 1] in r
    decreases |path|
  {
    if |path| > 1 {
      var shorter := path[..|path| - 1];
      assert Path(entries, owners, s, shorter);
      PathReaches(entries, owners, s, shorter, r);
      assert path[|path| - 1] in Edges(entries, owners, path[|path| - 2]);
    }
  }

  ghost predicate HasPath(entries: seq<Entry>, owners: seq<nat>, s: set<nat>, x: nat) {
    exists path :: Path(entries, owners, s, path) && path[|path| - 1] == x
  }

  lemma PathStep(entries: seq<Entry>, owners: seq<nat>, s: set<nat>, f: nat, x: nat)
    requires HasPath(entries, owners, s, f) && x in Edges(entries, owners, f)
    ensures HasPath(entries, owners, s, x)
  {
    var path :| Path(entries, owners, s, path) && path[|path| - 1] == f;
    var longer := path + [x];
    forall i | 0 < i < |longer|
      ensures longer[i] in Edges(entries, owners, longer[i - 1])
    {
      if i < |path| {
        assert longer[i] == path[i] && longer[i - 1] == path[i - 1];
      }
    }
    assert longer[0] == path[0] && longer[|longer| - 1] == x;
    assert Path(entries, owners, s, longer);
  }

  /** What can be reached is what a walk leads to. */
  lemma ReachIsPaths(entries: seq<Entry>, owners: seq<nat>, s: set<nat>, r: set<nat>)
    requires IsReach(entries, owners, s, r)
    ensures forall x :: x in r <==> HasPath(entries, owners, s, x)
  {
    var walked := set x | x in r && HasPath(entries, owners, s, x);
    forall x | x in s
      ensures x in walked
    {
      assert Path(entries, owners, s, [x]);
    }
    forall f | f in walked
      ensures Edges(entries, owners, f) <= walked
    {
      forall x | x in Edges(entries, owners, f)
        ensures x in walked
      {
        assert x in r;
        PathStep(entries, owners, s, f, x);
      }
    }
    assert Closed(entries, owners, walked);
    forall x | HasPath(entries, owners, s, x)
      ensures x in r
    {
      var path :| Path(entries, owners, s, path) && path[|path| - 1] == x;
      PathReaches(entries, owners, s, path, r);
    }
  }

  // ----- the graph is consumed while it is walked

  /** The entries with those of some files emptied. */
  ghost predicate Emptied(entries: seq<Entry>, owners: seq<nat>, r: set<nat>, entries': seq<Entry>) {
    && |entries'| == |entries|
    && forall e :: 0 <= e < |entries| ==>
         entries'[e] == if OwnedBy(owners, r, e) then entries[e].(invalidations := Dependents({})) else entries[e]
  }

  ghost predicate OwnedBy(owners: seq<nat>, r: set<nat>, e: nat) {
    exists f :: f in r && f < |owners| && owners[f] == e
  }

  ghost predicate NoDb(entries: seq<Entry>, owners: seq<nat>, r: set<nat>) {
    forall f :: f in r ==> !IsDb(entries, owners, f)
  }

  /** Emptied entries lose edges and gain none. */
  lemma EmptiedEdges(entries: seq<Entry>, owners: seq<nat>, r: set<nat>, entries': seq<Entry>, f: nat)
    requires Emptied(entries, owners, r, entries')
    ensures Edges(entries', owners, f) == if f < |owners| && OwnedBy(owners, r, owners[f]) then {}
            else Edges(entries, owners, f)
    ensures IsDb(entries', owners, f) <==> IsDb(entries, owners, f) && !OwnedBy(owners, r, owners[f])
  {
  }

  /** Emptying entries makes nothing reachable that was not. */
  lemma ReachedBefore(entries: seq<Entry>, owners: seq<nat>, done: set<nat>, entries': seq<Entry>,
                      s: set<nat>, s0: set<nat>, x: nat)
    requires Emptied(entries, owners, done, entries')
    requires forall r :: s0 <= r && Closed(entries, owners, r) ==> s <= r
    requires Reached(entries', owners, s, x)
    ensures Reached(entries, owners, s0, x)
  {
    forall r: set<nat> | s0 <= r && Closed(entries, owners, r)
      ensures x in r
    {
      forall f | f in r
        ensures Edges(entries', owners, f) <= r
      {
        EmptiedEdges(entries, owners, done, entries', f);
      }
      assert Closed(entries', owners, r);
    }
  }

  /** What was reached first, with its entries emptied, and what is reached from
      one more file after that, are together what is reached from both. */
  lemma ReachMore(entries: seq<Entry>, owners: seq<nat>, s: set<nat>, r: set<nat>, entries': seq<Entry>,
                  f: nat, r': set<nat>)
    requires IsReach(entries, owners, s, r) && Emptied(entries, owners, r, entries')
             && IsReach(entries', owners, {f}, r')
    ensures IsReach(entries, owners, s + {f}, r + r')
  {
    forall x | x in r + r'
      ensures Edges(entries, owners, x) <= r + r'
    {
      EmptiedEdges(entries, owners, r, entries', x);
      if x !in r && x < |owners| && OwnedBy(owners, r, owners[x]) {
        var y :| y in r && y < |owners| && owners[y] == owners[x];
        assert Edges(entries, owners, x) == Edges(entries, owners, y);
      }
    }
    forall x | x in r + r'
      ensures Reached(entries, owners, s + {f}, x)
    {
      if x in r {
        ReachedMore(entries, owners, s, s + {f}, x);
      } else {
        ReachedBefore(entries, owners, r, entries', {f}, s + {f}, x);
      }
    }
  }

  lemma ReachedMore(entries: seq<Entry>, owners: seq<nat>, s: set<nat>, s': set<nat>, x: nat)
    requires Reached(entries, owners, s, x) && s <= s'
    ensures Reached(entries, owners, s', x)
  {
    forall r: set<nat> | s' <= r && Closed(entries, owners, r)
      ensures x in r
    {
      assert s <= r;
    }
  }

  /** Taking the dependents of a file and following them reaches what the file
      reaches, whether or not they lead back to it. */
  lemma ReachThrough(entries: seq<Entry>, owners: seq<nat>, f: nat, entries': seq<Entry>, r': set<nat>)
    requires f < |owners| && owners[f] < |entries| && Emptied(entries, owners, {f}, entries')
    requires IsReach(entries', owners, Edges(entries, owners, f), r')
    ensures IsReach(entries, owners, {f}, r' + {f})
  {
    forall x | x in r' + {f}
      ensures Edges(entries, owners, x) <= r' + {f}
    {
      EmptiedEdges(entries, owners, {f}, entries', x);
      if x < |owners| && OwnedBy(owners, {f}, owners[x]) {
        assert Edges(entries, owners, x) == Edges(entries, owners, f);
      }
    }
    forall x | x in r'
      ensures Reached(entries, owners, {f}, x)
    {
      EdgesReached(entries, owners, f);
      ReachedBefore(entries, owners, {f}, entries', Edges(entries, owners, f), {f}, x);
    }
  }

  lemma EdgesReached(entries: seq<Entry>, owners: seq<nat>, f: nat)
    ensures forall r :: {f} <= r && Closed(entries, owners, r) ==> Edges(entries, owners, f) <= r
  {
  }

  lemma EmptiedMore(entries: seq<Entry>, owners: seq<nat>, r: set<nat>, entries': seq<Entry>, r': set<nat>,
                    entries'': seq<Entry>)
    requires Emptied(entries, owners, r, entries') && Emptied(entries', owners, r', entries'')
    ensures Emptied(entries, owners, r + r', entries'')
    ensures NoDb(entries, owners, r) && NoDb(entries', owners, r') ==> NoDb(entries, owners, r + r')
  {
    forall e | 0 <= e < |entries|
      ensures OwnedBy(owners, r + r', e) <==> OwnedBy(owners, r, e) || OwnedBy(owners, r', e)
    {
      if OwnedBy(owners, r, e) {
        var f :| f in r && f < |owners| && owners[f] == e;
        assert f in r + r';
      }
      if OwnedBy(owners, r', e) {
        var f :| f in r' && f < |owners| && owners[f] == e;
        assert f in r + r';
      }
    }
    if NoDb(entries, owners, r) && NoDb(entries', owners, r') {
      forall x | x in r + r'
        ensures !IsDb(entries, owners, x)
      {
        if x !in r && x < |owners| && OwnedBy(owners, r, owners[x]) {
          var y :| y in r && y < |owners| && owners[y] == owners[x];
          assert !IsDb(entries, owners, y);
        } else {
          EmptiedEdges(entries, owners, r, entries', x);
        }
      }
    }
  }

  // ----- what is left to follow

  /** The number of edges in all entries. */
  function Total(entries: seq<Entry>): nat {
    if entries == [] then 0 else Count(entries[0].invalidations) + Total(entries[1..])
  }

  function Count(invalidations: Invalidations): nat {
    match invalidations
    case InvalidatesDb => 0
    case Dependents(files) => |files|
  }

  lemma {:induction false} TotalTaken(entries: seq<Entry>, e: nat)
    requires e < |entries|
    ensures var taken := entries[e := entries[e].(invalidations := Dependents({}))];
            Total(taken) + Count(entries[e].invalidations) == Total(entries)
    decreases e
  {
    var taken := entries[e := entries[e].(invalidations := Dependents({}))];
    if e > 0 {
      assert taken[1..] == entries[1..][e - 1 := entries[1..][e - 1].(invalidations := Dependents({}))];
      TotalTaken(entries[1..], e - 1);
    } else {
      assert taken[1..] == entries[1..];
    }
  }

  // ----- putting a walk together

  lemma NothingReached(entries: seq<Entry>, owners: seq<nat>)
    ensures IsReach(entries, owners, {}, {}) && Emptied(entries, owners, {}, entries) && NoDb(entries, owners, {})
  {
  }

  ghost predicate DbReached(entries: seq<Entry>, owners: seq<nat>, s: set<nat>) {
    exists x :: Reached(entries, owners, s, x) && IsDb(entries, owners, x)
  }

  lemma NoDbReached(entries: seq<Entry>, owners: seq<nat>, s: set<nat>, r: set<nat>)
    requires IsReach(entries, owners, s, r) && NoDb(entries, owners, r)
    ensures !DbReached(entries, owners, s)
  {
    forall x | Reached(entries, owners, s, x)
      ensures !IsDb(entries, owners, x)
    {
      assert x in r;
    }
  }

  /** What one of the files leads to after some walking, it led to before. */
  lemma DbFound(entries: seq<Entry>, owners: seq<nat>, r: set<nat>, entries': seq<Entry>, f: nat, s: set<nat>)
    requires Emptied(entries, owners, r, entries') && DbReached(entries', owners, {f}) && f in s
    ensures DbReached(entries, owners, s)
  {
    var x :| Reached(entries', owners, {f}, x) && IsDb(entries', owners, x);
    ReachedBefore(entries, owners, r, entries', {f}, s, x);
    EmptiedEdges(entries, owners, r, entries', x);
  }

  /** The same for what the dependents of a file lead to. */
  lemma DbFoundThrough(entries: seq<Entry>, owners: seq<nat>, f: nat, entries': seq<Entry>)
    requires Emptied(entries, owners, {f}, entries') && DbReached(entries', owners, Edges(entries, owners, f))
    ensures DbReached(entries, owners, {f})
  {
    var x :| Reached(entries', owners, Edges(entries, owners, f), x) && IsDb(entries', owners, x);
    EdgesReached(entries, owners, f);
    ReachedBefore(entries, owners, {f}, entries', Edges(entries, owners, f), {f}, x);
    EmptiedEdges(entries, owners, {f}, entries', x);
  }

  lemma DbHere(entries: seq<Entry>, owners: seq<nat>, f: nat)
    requires IsDb(entries, owners, f)
    ensures DbReached(entries, owners, {f})
  {
    assert Reached(entries, owners, {f}, f);
  }
}
