/** The tree of files and directories: making sure that there is a file at a path,
    with the directories on the way, and finding it again. */
module FileTree {
  import opened Rules
  import opened Invalidation

  /** Files and directories have an identity; a missing entry only notes who is
      affected when something appears there. */
  datatype Node =
    | FileNode(id: nat)
    | DirNode(id: nat, entries: map<string, Node>)
    | MissingNode(invalidations: Invalidations)

  type Entries = map<string, Node>

  /** What is found at a path. */
  datatype Found = File(id: nat) | Dir(id: nat)

  function SearchPath(entries: Entries, path: seq<string>): Option<Found>
    decreases |path|
  {
    if path == [] || path[0] !in entries then None
    else if |path| > 1 then
      match entries[path[0]]
      case DirNode(_, inner) => SearchPath(inner, path[1..])
      case _ => None
    else
      match entries[path[0]]
      case FileNode(id) => Some(File(id))
      case DirNode(id, _) => Some(Dir(id))
      case MissingNode(_) => None
  }

  /** Both together; if one of them is everything, so is the result. */
  function Extend(a: Invalidations, b: Invalidations): Invalidations {
    if a.Dependents? && b.Dependents? then Dependents(a.files + b.files) else InvalidatesDb
  }

  /** The tree with the file, the file, who is affected, and the next free id. */
  datatype Added = Added(entries: Entries, file: nat, invalidations: Invalidations, next: nat)

  function EnsureFile(entries: Entries, name: string, next: nat): Outcome<Added> {
    if name !in entries then Ok(Added(entries[name := FileNode(next)], next, Dependents({}), next + 1))
    else
      match entries[name]
      case FileNode(id) => Ok(Added(entries, id, Dependents({}), next))
      case MissingNode(invalidations) => Ok(Added(entries[name := FileNode(next)], next, invalidations, next + 1))
      case DirNode(_, _) => Panics
  }

  /** `read` gives what the file system has in a directory that is new to the
      tree, and `at` says where the entries are. */
  function EnsureDirsAndFile(entries: Entries, at: seq<string>, path: seq<string>, read: seq<string> -> Entries,
                             next: nat): Outcome<Added>
    requires path != []
    decreases |path|
  {
    var name, here := path[0], at + [path[0]];
    if |path| == 1 then EnsureFile(entries, name, next)
    else if name in entries && entries[name].FileNode? then Panics
    else if name in entries && entries[name].DirNode? then
      match EnsureDirsAndFile(entries[name].entries, here, path[1..], read, next)
      case Panics => Panics
      case Ok(inner) => Ok(inner.(entries := entries[name := DirNode(entries[name].id, inner.entries)]))
    else
      var waiting := if name in entries then entries[name].invalidations else Dependents({});
      match EnsureDirsAndFile(read(here), here, path[1..], read, next + 1)
      case Panics => Panics
      case Ok(inner) =>
        Ok(inner.(entries := entries[name := DirNode(next, inner.entries)],
                  invalidations := Extend(inner.invalidations, waiting)))
  }

  /** What is ensured is found. */
  lemma {:induction false} EnsuredIsFound(entries: Entries, at: seq<string>, path: seq<string>,
                                          read: seq<string> -> Entries, next: nat)
    requires path != [] && EnsureDirsAndFile(entries, at, path, read, next).Ok?
    ensures var added := EnsureDirsAndFile(entries, at, path, read, next).value;
            SearchPath(added.entries, path) == Some(File(added.file))
    decreases |path|
  {
    if |path| > 1 {
      var name, here := path[0], at + [path[0]];
      if name in entries && entries[name].DirNode? {
        EnsuredIsFound(entries[name].entries, here, path[1..], read, next);
      } else {
        EnsuredIsFound(read(here), here, path[1..], read, next + 1);
      }
    }
  }

  /** Whatever was found before is found after, and is the same. */
  lemma {:induction false} FoundStaysFound(entries: Entries, at: seq<string>, path: seq<string>,
                                           read: seq<string> -> Entries, next: nat,
                                           other: seq<string>)
    requires path != [] && EnsureDirsAndFile(entries, at, path, read, next).Ok? && SearchPath(entries, other).Some?
    ensures SearchPath(EnsureDirsAndFile(entries, at, path, read, next).value.entries, other)
            == SearchPath(entries, other)
    decreases |path|
  {
    var name, here := path[0], at + [path[0]];
    if |path| > 1 && name in entries && entries[name].DirNode? && other[0] == name && |other| > 1 {
      FoundStaysFound(entries[name].entries, here, path[1..], read, next, other[1..]);
    }
  }

  /** Who waits at a path for something to appear. */
  function WaitingAt(entries: Entries, path: seq<string>): Option<Invalidations>
    decreases |path|
  {
    if path == [] || path[0] !in entries then None
    else if |path| > 1 then
      match entries[path[0]]
      case DirNode(_, inner) => WaitingAt(inner, path[1..])
      case _ => None
    else if entries[path[0]].MissingNode? then Some(entries[path[0]].invalidations)
    else None
  }

  /** Nobody who waits elsewhere is lost. */
  lemma {:induction false} WaitingElsewhere(entries: Entries, at: seq<string>, path: seq<string>,
                                            read: seq<string> -> Entries, next: nat,
                                            other: seq<string>)
    requires path != [] && EnsureDirsAndFile(entries, at, path, read, next).Ok? && WaitingAt(entries, other).Some?
    requires !(other <= path)
    ensures WaitingAt(EnsureDirsAndFile(entries, at, path, read, next).value.entries, other)
            == WaitingAt(entries, other)
    decreases |path|
  {
    var name, here := path[0], at + [path[0]];
    if |path| > 1 && name in entries && entries[name].DirNode? && other[0] == name && |other| > 1 {
      NotPrefix(other, path);
      WaitingElsewhere(entries[name].entries, here, path[1..], read, next, other[1..]);
    }
  }

  lemma NotPrefix(a: seq<string>, b: seq<string>)
    requires a != [] && b != [] && a[0] == b[0] && !(a <= b)
    ensures !(a[1..] <= b[1..]) && !(|a| == 1)
  {
    assert a == [a[0]] + a[1..] && b == [b[0]] + b[1..];
  }

  /** Those who wait at the missing entries that the way along a path meets. */
  function WaitingAlong(entries: Entries, at: seq<string>, path: seq<string>,
                        read: seq<string> -> Entries): seq<Invalidations>
    requires path != []
    decreases |path|
  {
    var name, here := path[0], at + [path[0]];
    if name in entries && entries[name].DirNode? && |path| > 1 then
      WaitingAlong(entries[name].entries, here, path[1..], read)
    else
      (if name in entries && entries[name].MissingNode? then [entries[name].invalidations] else [])
      + if |path| > 1 then WaitingAlong(read(here), here, path[1..], read) else []
  }

  /** All of some dependents, or everything if one of them is everything. */
  ghost predicate IsUnion(invalidations: Invalidations, parts: seq<Invalidations>) {
    && (invalidations.InvalidatesDb? <==> exists i :: 0 <= i < |parts| && parts[i].InvalidatesDb?)
    && (invalidations.Dependents? ==>
          forall f :: f in invalidations.files <==> exists i :: 0 <= i < |parts| && InPart(f, parts[i]))
  }

  predicate InPart(f: nat, part: Invalidations) {
    part.Dependents? && f in part.files
  }

  lemma UnionExtended(a: Invalidations, first: Invalidations, parts: seq<Invalidations>)
    requires IsUnion(a, parts)
    ensures IsUnion(Extend(a, first), [first] + parts)
  {
    var more := [first] + parts;
    assert more[0] == first && forall i :: 0 <= i < |parts| ==> more[i + 1] == parts[i];
    if a.Dependents? && first.Dependents? {
      forall f
        ensures f in a.files + first.files <==> exists i :: 0 <= i < |more| && InPart(f, more[i])
      {
        if f in a.files {
          var i :| 0 <= i < |parts| && InPart(f, parts[i]);
          assert InPart(f, more[i + 1]);
        }
        if f in first.files {
          assert InPart(f, more[0]);
        }
      }
    } else if a.InvalidatesDb? {
      var i :| 0 <= i < |parts| && parts[i].InvalidatesDb?;
      assert more[i + 1].InvalidatesDb?;
    } else {
      assert more[0].InvalidatesDb?;
    }
  }

  /** What comes back is the union of what waited along the path. */
  lemma {:induction false} InvalidationsAreUnion(entries: Entries, at: seq<string>, path: seq<string>,
                                                 read: seq<string> -> Entries, next: nat)
    requires path != [] && EnsureDirsAndFile(entries, at, path, read, next).Ok?
    ensures IsUnion(EnsureDirsAndFile(entries, at, path, read, next).value.invalidations,
                    WaitingAlong(entries, at, path, read))
    decreases |path|
  {
    var name, here := path[0], at + [path[0]];
    if |path| > 1 {
      if name in entries && entries[name].DirNode? {
        InvalidationsAreUnion(entries[name].entries, here, path[1..], read, next);
      } else {
        InvalidationsAreUnion(read(here), here, path[1..], read, next + 1);
        var inner := EnsureDirsAndFile(read(here), here, path[1..], read, next + 1).value.invalidations;
        var parts := WaitingAlong(read(here), here, path[1..], read);
        if name in entries {
          UnionExtended(inner, entries[name].invalidations, parts);
        } else {
          assert [] + parts == parts;
          NothingExtended(inner);
        }
      }
    } else if name in entries && entries[name].MissingNode? {
      UnionExtended(Dependents({}), entries[name].invalidations, []);
      assert Extend(Dependents({}), entries[name].invalidations) == entries[name].invalidations by {
        NothingBefore(entries[name].invalidations);
      }
      assert [entries[name].invalidations] + [] == [entries[name].invalidations];
    }
  }

  lemma NothingExtended(a: Invalidations)
    ensures Extend(a, Dependents({})) == a
  {
    if a.Dependents? {
      assert a.files + {} == a.files;
    }
  }

  lemma NothingBefore(a: Invalidations)
    ensures Extend(Dependents({}), a) == a
  {
    if a.Dependents? {
      assert {} + a.files == a.files;
    }
  }
}
