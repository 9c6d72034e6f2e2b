/** The virtual file system: files and the entries they belong to, buffers open
    in an editor, and what happens to all of them when something changes. */
module Vfs {
  import opened Rules
  import opened Invalidation

  // ----- what one invalidation does

  function Forget(file: FileState, original: Option<nat>): FileState {
    if file.file.Some? then file.(file := Some(file.file.value.(forgotten := file.file.value.forgotten + {original})))
    else file
  }

  /** The files of `r` have been told to forget the original; others are as they were. */
  ghost predicate Forgotten(files: seq<FileState>, original: Option<nat>, r: set<nat>, files': seq<FileState>) {
    && |files'| == |files|
    && forall f :: 0 <= f < |files| ==> files'[f] == if f in r then Forget(files[f], original) else files[f]
  }

  /** The open files of `r` are among the paths told of. */
  ghost predicate Told(files: seq<FileState>, inMemory: map<string, nat>, r: set<nat>, notified: set<string>,
                       notified': set<string>)
  {
    && notified <= notified'
    && (forall f :: f in r && f < |files| && files[f].path in inMemory ==> files[f].path in notified')
    && forall p :: p in notified' && p !in notified ==>
      p in inMemory && exists f :: f in r && f < |files| && files[f].path == p
  }

  ghost predicate Invalidated(entries: seq<Entry>, files: seq<FileState>, inMemory: map<string, nat>,
                              notified: set<string>,
                              original: Option<nat>, r: set<nat>,
                              entries': seq<Entry>, files': seq<FileState>, notified': set<string>) {
    && NoDb(entries, Owners(files), r) && Emptied(entries, Owners(files), r, entries')
    && Forgotten(files, original, r, files') && Told(files, inMemory, r, notified, notified')
  }

  /** One file is another now, and what depends on it has been told to forget it:
      exactly the files of `reached`, which with the file itself are all that can be
      reached from it. */
  ghost predicate Swapped(entries: seq<Entry>, files: seq<FileState>, inMemory: map<string, nat>, notified: set<string>,
                          i: nat, file: FileState, reached: set<nat>,
                          entries': seq<Entry>, files': seq<FileState>, notified': set<string>)
  {
    && IsReach(entries, Owners(files), {i}, {i} + reached) && NoDb(entries, Owners(files), {i} + reached)
    && Emptied(entries, Owners(files), {i} + reached, entries')
    && FileSwapped(files, i, file, reached, files') && Told(files, inMemory, reached, notified, notified')
  }

  ghost predicate FileSwapped(files: seq<FileState>, i: nat, file: FileState, reached: set<nat>,
                              files': seq<FileState>) {
    && i < |files| && |files'| == |files| && files'[i] == file
    && forall f :: 0 <= f < |files| && f != i ==>
         files'[f] == if f in reached then Forget(files[f], Some(i)) else files[f]
  }

  lemma SwappedAgain(entries: seq<Entry>, files: seq<FileState>, inMemory: map<string, nat>, notified: set<string>,
                     i: nat, file: FileState, reached: set<nat>,
                     entries': seq<Entry>, files': seq<FileState>, notified': set<string>, other: FileState)
    requires Swapped(entries, files, inMemory, notified, i, file, reached, entries', files', notified')
    ensures i < |files'|
    ensures Swapped(entries, files, inMemory, notified, i, other, reached, entries', files'[i := other], notified')
  {
  }

  lemma UnloadedIsSwapped(files: seq<FileState>, inMemory: map<string, nat>, n: set<string>, i: nat, more: set<nat>,
                          files': seq<FileState>, n': set<string>)
    requires i < |files|
    requires var unloaded := files[i := files[i].(file := None)];
             Forgotten(unloaded, Some(i), more, files') && Told(unloaded, inMemory, more, n, n')
    ensures FileSwapped(files, i, files[i].(file := None), more, files') && Told(files, inMemory, more, n, n')
  {
    var unloaded := files[i := files[i].(file := None)];
    assert forall f :: 0 <= f < |files| ==> unloaded[f].path == files[f].path;
    forall p | p in n' && p !in n
      ensures p in inMemory && exists f :: f in more && f < |files| && files[f].path == p
    {
      var f :| f in more && f < |unloaded| && unloaded[f].path == p;
      assert files[f].path == p;
    }
  }

  /** Paths, entries and codes stay. */
  ghost predicate SameFiles(files: seq<FileState>, files': seq<FileState>) {
    && |files'| == |files|
    && forall f :: 0 <= f < |files| ==> SameFile(files[f], files'[f])
  }

  ghost predicate SameFile(a: FileState, b: FileState) {
    && b.path == a.path && b.entry == a.entry && b.file.Some? == a.file.Some?
    && (a.file.Some? ==> b.file.value.code == a.file.value.code)
  }

  lemma SameOwners(files: seq<FileState>, files': seq<FileState>)
    requires SameFiles(files, files')
    ensures Owners(files') == Owners(files)
  {
    forall f | 0 <= f < |files|
      ensures files'[f].entry == files[f].entry
    {
      assert SameFile(files[f], files'[f]);
    }
  }

  lemma NothingInvalidated(entries: seq<Entry>, files: seq<FileState>, inMemory: map<string, nat>,
                           notified: set<string>,
                           original: Option<nat>)
    ensures Invalidated(entries, files, inMemory, notified, original, {}, entries, files, notified)
  {
    NothingReached(entries, Owners(files));
  }

  lemma ForgottenMore(files: seq<FileState>, original: Option<nat>, r: set<nat>, files': seq<FileState>, r': set<nat>,
                      files'': seq<FileState>)
    requires Forgotten(files, original, r, files') && Forgotten(files', original, r', files'')
    ensures Forgotten(files, original, r + r', files'')
  {
    forall f | 0 <= f < |files|
      ensures files''[f] == if f in r + r' then Forget(files[f], original) else files[f]
    {
      assert Forget(Forget(files[f], original), original) == Forget(files[f], original) by {
        if files[f].file.Some? {
          var once := files[f].file.value.forgotten + {original};
          assert once + {original} == once;
        }
      }
    }
  }

  lemma ToldMore(files: seq<FileState>, files': seq<FileState>, inMemory: map<string, nat>, r: set<nat>, r': set<nat>,
                 n: set<string>, n': set<string>, n'': set<string>)
    requires SameFiles(files, files') && Told(files, inMemory, r, n, n') && Told(files', inMemory, r', n', n'')
    ensures Told(files, inMemory, r + r', n, n'')
  {
    forall f | f in r + r' && f < |files| && files[f].path in inMemory
      ensures files[f].path in n''
    {
      assert SameFile(files[f], files'[f]);
    }
    forall p | p in n'' && p !in n
      ensures p in inMemory && exists f :: f in r + r' && f < |files| && files[f].path == p
    {
      if p in n' {
        var f :| f in r && f < |files| && files[f].path == p;
        assert f in r + r';
      } else {
        var f :| f in r' && f < |files'| && files'[f].path == p;
        assert f in r + r' && SameFile(files[f], files'[f]);
      }
    }
  }

  lemma InvalidatedMore(entries: seq<Entry>, files: seq<FileState>, inMemory: map<string, nat>, n: set<string>,
                        original: Option<nat>,
                        r: set<nat>, entries': seq<Entry>, files': seq<FileState>, n': set<string>,
                        r': set<nat>, entries'': seq<Entry>, files'': seq<FileState>, n'': set<string>)
    requires SameFiles(files, files')
    requires Invalidated(entries, files, inMemory, n, original, r, entries', files', n')
    requires Invalidated(entries', files', inMemory, n', original, r', entries'', files'', n'')
    ensures Invalidated(entries, files, inMemory, n, original, r + r', entries'', files'', n'')
  {
    SameOwners(files, files');
    EmptiedMore(entries, Owners(files), r, entries', r', entries'');
    ForgottenMore(files, original, r, files', r', files'');
    ToldMore(files, files', inMemory, r, r', n, n', n'');
  }

  lemma SameFilesMore(files: seq<FileState>, files': seq<FileState>, files'': seq<FileState>)
    requires SameFiles(files, files') && SameFiles(files', files'')
    ensures SameFiles(files, files'')
  {
    forall f | 0 <= f < |files|
      ensures SameFile(files[f], files''[f])
    {
      assert SameFile(files[f], files'[f]) && SameFile(files'[f], files''[f]);
    }
  }

  lemma OneForgotten(files: seq<FileState>, original: Option<nat>, f: nat)
    requires f < |files|
    ensures Forgotten(files, original, {f}, files[f := Forget(files[f], original)])
    ensures SameFiles(files, files[f := Forget(files[f], original)])
  {
  }

  /** A file's entry, taken. */
  lemma OneEmptied(entries: seq<Entry>, owners: seq<nat>, f: nat)
    requires f < |owners| && owners[f] < |entries| && entries[owners[f]].invalidations.Dependents?
    ensures var entries' := entries[owners[f] := entries[owners[f]].(invalidations := Dependents({}))];
            Emptied(entries, owners, {f}, entries') && NoDb(entries, owners, {f})
  {
    forall e | 0 <= e < |entries|
      ensures OwnedBy(owners, {f}, e) <==> e == owners[f]
    {
      if e == owners[f] {
        assert f in {f} && f < |owners| && owners[f] == e;
      }
    }
  }

  /** A file's dependents are told before the file's own buffer is. */
  lemma ToldLast(files: seq<FileState>, files': seq<FileState>, inMemory: map<string, nat>, f: nat, r: set<nat>,
                 n: set<string>, n': set<string>)
    requires SameFiles(files, files') && f < |files| && Told(files', inMemory, r, n, n')
    ensures Told(files, inMemory, {f} + r, n, if files[f].path in inMemory then n' + {files[f].path} else n')
  {
    var n'' := if files[f].path in inMemory then n' + {files[f].path} else n';
    forall x | x in {f} + r && x < |files| && files[x].path in inMemory
      ensures files[x].path in n''
    {
      assert SameFile(files[x], files'[x]);
    }
    forall p | p in n'' && p !in n
      ensures p in inMemory && exists x :: x in {f} + r && x < |files| && files[x].path == p
    {
      if p in n' {
        var x :| x in r && x < |files'| && files'[x].path == p;
        assert x in {f} + r && SameFile(files[x], files'[x]);
      } else {
        assert f in {f} + r && files[f].path == p;
      }
    }
  }

  lemma FinishedFile(entries: seq<Entry>, files: seq<FileState>, inMemory: map<string, nat>, n: set<string>,
                     original: Option<nat>,
                     f: nat, entries': seq<Entry>, files': seq<FileState>,
                     r: set<nat>, entries'': seq<Entry>, files'': seq<FileState>, n': set<string>)
    requires f < |files| && files' == files[f := Forget(files[f], original)]
    requires Emptied(entries, Owners(files), {f}, entries') && NoDb(entries, Owners(files), {f})
    requires Invalidated(entries', files', inMemory, n, original, r, entries'', files'', n')
    ensures Invalidated(entries, files, inMemory, n, original, {f} + r, entries'', files'',
                        if files[f].path in inMemory then n' + {files[f].path} else n')
  {
    OneForgotten(files, original, f);
    SameOwners(files, files');
    EmptiedMore(entries, Owners(files), {f}, entries', r, entries'');
    ForgottenMore(files, original, {f}, files', r, files'');
    ToldLast(files, files', inMemory, f, r, n, n');
  }

  /** Paths and indexes stay. */
  ghost predicate SameEntries(entries: seq<Entry>, entries': seq<Entry>) {
    && |entries'| == |entries|
    && forall e :: 0 <= e < |entries| ==>
      entries'[e].path == entries[e].path && entries'[e].fileIndex == entries[e].fileIndex
  }

  /** What holds on every way out of an invalidation. */
  ghost predicate Kept(entries: seq<Entry>, files: seq<FileState>, entries': seq<Entry>, files': seq<FileState>) {
    && ValidGraph(entries', Owners(files')) && SameFiles(files, files') && SameEntries(entries, entries')
    && Total(entries') <= Total(entries)
  }

  /** What holds when the files `done` have been invalidated. */
  ghost predicate Walked(entries: seq<Entry>, files: seq<FileState>, inMemory: map<string, nat>, n: set<string>,
                         original: Option<nat>,
                         done: set<nat>, r: set<nat>, entries': seq<Entry>, files': seq<FileState>, n': set<string>) {
    && Kept(entries, files, entries', files') && IsReach(entries, Owners(files), done, r)
    && Invalidated(entries, files, inMemory, n, original, r, entries', files', n')
  }

  /** Files as they were, except that those of `gone` have been unloaded. */
  ghost predicate OnlyUnloaded(files: seq<FileState>, gone: set<nat>, files': seq<FileState>) {
    && |files'| == |files|
    && forall f :: 0 <= f < |files| ==> SameFile(if f in gone then files[f].(file := None) else files[f], files'[f])
  }

  lemma UnloadedMore(files: seq<FileState>, gone: set<nat>, files': seq<FileState>, more: set<nat>,
                     files'': seq<FileState>)
    requires OnlyUnloaded(files, gone, files') && OnlyUnloaded(files', more, files'')
    ensures OnlyUnloaded(files, gone + more, files'')
  {
    forall f | 0 <= f < |files|
      ensures SameFile(if f in gone + more then files[f].(file := None) else files[f], files''[f])
    {
      assert SameFile(if f in gone then files[f].(file := None) else files[f], files'[f]);
      assert SameFile(if f in more then files'[f].(file := None) else files'[f], files''[f]);
    }
  }

  lemma SameIsNotUnloaded(files: seq<FileState>, gone: set<nat>, files': seq<FileState>, files'': seq<FileState>)
    requires OnlyUnloaded(files, gone, files') && SameFiles(files', files'')
    ensures OnlyUnloaded(files, gone, files'')
  {
    assert OnlyUnloaded(files', {}, files'');
    UnloadedMore(files, gone, files', {}, files'');
    assert gone + {} == gone;
  }

  // ----- the tree and the buffers

  /** What the tree has at a path: a file's entry, or only a note of who would be
      affected if something appeared there. */
  datatype Node = FileAt(entry: nat) | Missing(invalidations: Invalidations)

  ghost predicate WellIndexed(entries: seq<Entry>, files: seq<FileState>) {
    && ValidGraph(entries, Owners(files))
    && forall e :: 0 <= e < |entries| && entries[e].fileIndex.Some? ==>
         entries[e].fileIndex.value < |files| && files[entries[e].fileIndex.value].path == entries[e].path
  }

  ghost predicate TreeOk(tree: map<string, Node>, entries: seq<Entry>, count: nat) {
    forall p :: p in tree ==>
      match tree[p]
      case FileAt(e) => e < |entries| && entries[e].path == p
      case Missing(invalidations) => ValidInvalidations(invalidations, count)
  }

  /** Open buffers win: each has a loaded file, with the text last stored for it. */
  ghost predicate BuffersWin(inMemory: map<string, nat>, files: seq<FileState>, stored: map<string, string>) {
    && stored.Keys == inMemory.Keys
    && forall p :: p in inMemory ==> BufferWins(files, p, inMemory[p], stored[p])
  }

  ghost predicate BufferWins(files: seq<FileState>, p: string, i: nat, text: string) {
    i < |files| && files[i].path == p && files[i].file.Some? && files[i].file.value.code == text
  }

  /** The tree leads to the files of the buffers. */
  ghost predicate BuffersPlaced(inMemory: map<string, nat>, tree: map<string, Node>, entries: seq<Entry>) {
    forall p :: p in inMemory ==> Placed(tree, entries, p, inMemory[p])
  }

  ghost predicate Placed(tree: map<string, Node>, entries: seq<Entry>, p: string, i: nat) {
    p in tree && tree[p].FileAt? && tree[p].entry < |entries| && entries[tree[p].entry].fileIndex == Some(i)
  }

  lemma KeptIndexes(entries: seq<Entry>, files: seq<FileState>, entries': seq<Entry>, files': seq<FileState>)
    requires WellIndexed(entries, files) && Kept(entries, files, entries', files')
    ensures WellIndexed(entries', files')
  {
    forall e | 0 <= e < |entries'| && entries'[e].fileIndex.Some?
      ensures files'[entries'[e].fileIndex.value].path == entries'[e].path
    {
      var i := entries[e].fileIndex.value;
      assert SameFile(files[i], files'[i]);
    }
  }

  lemma KeptBuffers(inMemory: map<string, nat>, files: seq<FileState>, files': seq<FileState>,
                    stored: map<string, string>)
    requires BuffersWin(inMemory, files, stored) && SameFiles(files, files')
    ensures BuffersWin(inMemory, files', stored)
  {
    forall p | p in inMemory
      ensures BufferWins(files', p, inMemory[p], stored[p])
    {
      assert BufferWins(files, p, inMemory[p], stored[p]) && SameFile(files[inMemory[p]], files'[inMemory[p]]);
    }
  }

  /** Files and entries as they were, except that one file has been unloaded. */
  ghost predicate Unloaded(entries: seq<Entry>, files: seq<FileState>, i: nat, entries': seq<Entry>,
                           files': seq<FileState>)
    requires i < |files|
  {
    Kept(entries, files[i := files[i].(file := None)], entries', files')
  }

  lemma UnloadIndexes(entries: seq<Entry>, files: seq<FileState>, i: nat, entries': seq<Entry>, files': seq<FileState>)
    requires WellIndexed(entries, files) && i < |files| && Unloaded(entries, files, i, entries', files')
    ensures WellIndexed(entries', files') && |entries'| == |entries| && |files'| == |files|
            && files'[i].path == files[i].path
  {
    var files1 := files[i := files[i].(file := None)];
    assert Owners(files1) == Owners(files);
    KeptIndexes(entries, files1, entries', files');
    assert SameFile(files1[i], files'[i]);
  }

  /** Unloading a file that is no buffer leaves the buffers alone. */
  lemma UnloadKeepsBuffers(inMemory: map<string, nat>, stored: map<string, string>,
                           entries: seq<Entry>, files: seq<FileState>, i: nat, entries': seq<Entry>,
                           files': seq<FileState>)
    requires i < |files| && Unloaded(entries, files, i, entries', files') && i !in inMemory.Values
    requires BuffersWin(inMemory, files, stored)
    ensures BuffersWin(inMemory, files', stored)
  {
    var files1 := files[i := files[i].(file := None)];
    forall p | p in inMemory
      ensures BufferWins(files1, p, inMemory[p], stored[p])
    {
      assert BufferWins(files, p, inMemory[p], stored[p]) && inMemory[p] in inMemory.Values;
    }
    KeptBuffers(inMemory, files1, files', stored);
  }

  lemma SameEntriesPlaced(inMemory: map<string, nat>, tree: map<string, Node>, entries: seq<Entry>,
                          entries': seq<Entry>, count: nat)
    requires SameEntries(entries, entries')
    ensures BuffersPlaced(inMemory, tree, entries) ==> BuffersPlaced(inMemory, tree, entries')
    ensures TreeOk(tree, entries, count) ==> TreeOk(tree, entries', count)
  {
    if BuffersPlaced(inMemory, tree, entries) {
      forall p | p in inMemory
        ensures Placed(tree, entries', p, inMemory[p])
      {
        assert Placed(tree, entries, p, inMemory[p]);
      }
    }
    if TreeOk(tree, entries, count) {
      assert forall p :: p in tree && tree[p].FileAt? ==>
               tree[p].entry < |entries| && entries'[tree[p].entry].path == p;
    }
  }

  lemma StillPlaced(inMemory: map<string, nat>, tree: map<string, Node>, entries: seq<Entry>,
                    tree': map<string, Node>, entries': seq<Entry>)
    requires BuffersPlaced(inMemory, tree, entries)
    requires forall p, i :: Placed(tree, entries, p, i) ==> Placed(tree', entries', p, i)
    ensures BuffersPlaced(inMemory, tree', entries')
  {
    forall p | p in inMemory
      ensures Placed(tree', entries', p, inMemory[p])
    {
      assert Placed(tree, entries, p, inMemory[p]);
    }
  }

  lemma FewerPlaced(inMemory: map<string, nat>, tree: map<string, Node>, entries: seq<Entry>, gone: set<string>)
    requires BuffersPlaced(inMemory, tree, entries)
    ensures BuffersPlaced(inMemory - gone, tree, entries)
  {
    forall p | p in inMemory - gone
      ensures Placed(tree, entries, p, (inMemory - gone)[p])
    {
      assert Placed(tree, entries, p, inMemory[p]);
    }
  }

  lemma RemovedPlaced(inMemory: map<string, nat>, tree: map<string, Node>, entries: seq<Entry>, path: string)
    requires BuffersPlaced(inMemory, tree, entries) && path !in inMemory
    ensures BuffersPlaced(inMemory, tree - {path}, entries)
  {
    forall p | p in inMemory
      ensures Placed(tree - {path}, entries, p, inMemory[p])
    {
      assert Placed(tree, entries, p, inMemory[p]);
    }
  }

  // ----- what storing and closing a buffer does

  /** The entry at a path, and its file, if there are any. */
  function EntryOf(tree: map<string, Node>, path: string): nat {
    if path in tree && tree[path].FileAt? then tree[path].entry else 0
  }

  function FileOf(tree: map<string, Node>, entries: seq<Entry>, path: string): Option<nat> {
    if path in tree && tree[path].FileAt? && tree[path].entry < |entries| then entries[tree[path].entry].fileIndex
    else None
  }

  predicate HasText(files: seq<FileState>, i: nat, code: string) {
    i < |files| && files[i].file.Some? && files[i].file.value.code == code
  }

  /** The file has another text, and everything has to go if and only if that can be
      reached from the file. */
  ghost predicate TextReplaced(entries: seq<Entry>, files: seq<FileState>, inMemory: map<string, nat>, n: set<string>,
                               path: string, e: nat, i: nat, code: string, all: bool, reached: set<nat>,
                               entries': seq<Entry>, files': seq<FileState>, n': set<string>) {
    && (all <==> DbReached(entries, Owners(files), {i}))
    && (!all ==> Swapped(entries, files, inMemory, n, i, FileState(path, e, Some(Loaded(code, {}))), reached, entries',
                         files', n'))
    && (all ==> e < |entries'| && entries'[e].invalidations.InvalidatesDb? && inMemory.Keys <= n')
  }

  ghost predicate TextPut(entries: seq<Entry>, files: seq<FileState>, inMemory: map<string, nat>, n: set<string>,
                          path: string, e: nat, i: nat, code: string, all: bool, reached: set<nat>,
                          entries': seq<Entry>, files': seq<FileState>, n': set<string>) {
    if HasText(files, i, code) then !all && entries' == entries && files' == files && n' == n
    else TextReplaced(entries, files, inMemory, n, path, e, i, code, all, reached, entries', files', n')
  }

  /** The entries with the one at a path, which has got a new file. */
  function NewEntries(tree: map<string, Node>, entries: seq<Entry>, path: string, i: nat): seq<Entry> {
    var e := EntryOf(tree, path);
    if path in tree && tree[path].FileAt? && e < |entries|
    then entries[e := Entry(path, Some(i), entries[e].invalidations)]
    else entries + [Entry(path, Some(i), Dependents({}))]
  }

  /** Who waited for something to appear at a path. */
  function Waiting(tree: map<string, Node>, path: string): Invalidations {
    if path in tree && tree[path].Missing? then tree[path].invalidations else Dependents({})
  }

  /** There is a new file, and those who waited for the path have been told. */
  ghost predicate FileAdded(tree: map<string, Node>, entries: seq<Entry>, files: seq<FileState>,
                            inMemory: map<string, nat>, n: set<string>, path: string, code: string, all: bool,
                            reached: set<nat>, entries': seq<Entry>, files': seq<FileState>, n': set<string>) {
    var i := |files|;
    var e := if path in tree && tree[path].FileAt? then tree[path].entry else |entries|;
    var entries1, files1 := NewEntries(tree, entries, path, i), files + [FileState(path, e, Some(Loaded(code, {})))];
    WaitersTold(entries1, files1, inMemory, n, i, Waiting(tree, path), all, reached, entries', files', n')
  }

  /** Everything has to go if and only if that can be reached from those who waited;
      otherwise they are told, and just those whom they reach. */
  ghost predicate WaitersTold(entries: seq<Entry>, files: seq<FileState>, inMemory: map<string, nat>, n: set<string>,
                              i: nat, waiting: Invalidations, all: bool, reached: set<nat>,
                              entries': seq<Entry>, files': seq<FileState>, n': set<string>) {
    && (all <==> waiting.InvalidatesDb? || DbReached(entries, Owners(files), waiting.files))
    && (all ==> inMemory.Keys <= n')
    && (!all ==> IsReach(entries, Owners(files), waiting.files, reached)
                 && Invalidated(entries, files, inMemory, n, Some(i), reached, entries', files', n'))
  }

  lemma AddedAt(tree: map<string, Node>, entries: seq<Entry>, path: string, e: nat, entries1: seq<Entry>, i: nat)
    requires if path in tree && tree[path].FileAt? then e == tree[path].entry && e < |entries| && entries1 == entries
             else e == |entries| && entries1 == entries + [Entry(path, None, Dependents({}))]
    ensures NewEntries(tree, entries, path, i) == entries1[e := Entry(path, Some(i), entries1[e].invalidations)]
  {
  }

  lemma NothingReachedFromNone(entries: seq<Entry>, owners: seq<nat>)
    ensures !DbReached(entries, owners, {}) && forall r :: IsReach(entries, owners, {}, r) ==> r == {}
  {
    assert Closed(entries, owners, {});
    forall x
      ensures !Reached(entries, owners, {}, x)
    {
      assert x !in {};
    }
  }

  /** If nobody waits, nobody is told. */
  lemma NothingTold(entries: seq<Entry>, files: seq<FileState>, inMemory: map<string, nat>, n: set<string>,
                    original: Option<nat>, r: set<nat>,
                    entries': seq<Entry>, files': seq<FileState>, n': set<string>, all: bool)
    requires all <==> DbReached(entries, Owners(files), {})
    requires !all ==> IsReach(entries, Owners(files), {}, r)
                      && Invalidated(entries, files, inMemory, n, original, r, entries', files', n')
    ensures !all && entries' == entries && files' == files && n' == n
  {
    NothingReachedFromNone(entries, Owners(files));
    assert r == {};
    assert forall e :: !OwnedBy(Owners(files), {}, e);
  }

  /** A closed buffer's file is as the disk has it. */
  ghost predicate Closes(entries: seq<Entry>, files: seq<FileState>, inMemory: map<string, nat>, n: set<string>, i: nat,
                         disk: Option<string>, all: bool, reached: set<nat>,
                         entries': seq<Entry>, files': seq<FileState>, n': set<string>)
    requires i < |files|
  {
    if disk.Some? && HasText(files, i, disk.value) then !all && entries' == entries && files' == files && n' == n
    else
      var file := files[i].(file := if disk.Some? then Some(Loaded(disk.value, {})) else None);
      && (all <==> DbReached(entries, Owners(files), {i})) && (all ==> inMemory.Keys <= n')
      && (!all ==> Swapped(entries, files, inMemory, n, i, file, reached, entries', files', n'))
  }

  /** The file is what the file system has: its text, or nothing, not even in the tree. */
  ghost predicate OnDisk(files: seq<FileState>, tree: map<string, Node>, path: string, i: nat, disk: Option<string>) {
    && i < |files| && files[i].path == path
    && match disk
       case Some(code) => files[i].file.Some? && files[i].file.value.code == code
       case None => files[i].file.None? && path !in tree
  }

  // ----- file system events

  /** What reading a changed path again brings up: the part of the tree below it
      that is replaced, and the files that are there now. */
  datatype Change = Unchanged | Changed(walked: set<string>, appeared: set<string>)

  /** What the walk through the replaced part gathers. */
  datatype Affected = Affected(all: bool, unloads: set<nat>, invalidations: set<nat>, back: map<string, nat>)

  ghost predicate AffectedOk(inMemory: map<string, nat>, count: nat, walked: set<string>, a: Affected) {
    && (forall i :: i in a.unloads ==> i < count && i !in inMemory.Values)
    && (forall i :: i in a.invalidations ==> i < count)
    && (forall p :: p in a.back ==> p in walked && p in inMemory && a.back[p] == inMemory[p])
    && forall p :: p in walked && p in inMemory ==> p in a.back
  }

  /** The file at the path is none of a buffer's. */
  ghost predicate UnloadsAt(inMemory: map<string, nat>, tree: map<string, Node>, entries: seq<Entry>, p: string, i: nat)
  {
    i !in inMemory.Values && Placed(tree, entries, p, i)
  }

  /** The files at these paths that are none of a buffer's. */
  ghost predicate IsUnloads(inMemory: map<string, nat>, tree: map<string, Node>, entries: seq<Entry>,
                            paths: set<string>,
                            unloads: set<nat>) {
    forall i: nat :: i in unloads <==> exists p :: p in paths && UnloadsAt(inMemory, tree, entries, p, i)
  }

  lemma OneUnloadsMore(inMemory: map<string, nat>, tree: map<string, Node>, entries: seq<Entry>, paths: set<string>,
                       unloads: set<nat>, p: string, unloads': set<nat>)
    requires IsUnloads(inMemory, tree, entries, paths, unloads)
    requires forall i: nat :: i in unloads' <==> i in unloads || UnloadsAt(inMemory, tree, entries, p, i)
    ensures IsUnloads(inMemory, tree, entries, paths + {p}, unloads')
  {
    forall i: nat
      ensures i in unloads' <==> exists q :: q in paths + {p} && UnloadsAt(inMemory, tree, entries, q, i)
    {
      if UnloadsAt(inMemory, tree, entries, p, i) {
        assert p in paths + {p};
      } else if i in unloads {
        var q :| q in paths && UnloadsAt(inMemory, tree, entries, q, i);
        assert q in paths + {p};
      }
    }
  }

  /** Somebody who waits at the path needs everything to go. */
  predicate NeedsAll(tree: map<string, Node>, p: string) {
    p in tree && tree[p].Missing? && tree[p].invalidations.InvalidatesDb?
  }

  /** The path is free for the file of a buffer. */
  ghost predicate Vacant(tree: map<string, Node>, entries: seq<Entry>, p: string) {
    p !in tree || (tree[p].FileAt? && tree[p].entry < |entries| && entries[tree[p].entry].fileIndex.None?)
  }

  lemma BackIsVacant(inMemory: map<string, nat>, tree: map<string, Node>, entries: seq<Entry>, entries': seq<Entry>,
                     count: nat,
                     walked: set<string>, a: Affected)
    requires AffectedOk(inMemory, count, walked, a) && SameEntries(entries, entries')
    requires BuffersPlaced(inMemory - walked, tree, entries) && forall p :: p in walked ==> Vacant(tree, entries, p)
    ensures BuffersPlaced(inMemory - a.back.Keys, tree, entries') && forall p :: p in a.back ==>
              Vacant(tree, entries', p)
  {
    forall p | p in inMemory - a.back.Keys
      ensures Placed(tree, entries', p, inMemory[p])
    {
      assert p in inMemory - walked && Placed(tree, entries, p, (inMemory - walked)[p]);
    }
    forall p | p in a.back
      ensures Vacant(tree, entries', p)
    {
      assert Vacant(tree, entries, p);
    }
  }

  /** What can happen. Events that do not apply are skipped. */
  datatype Event =
    | Store(path: string, code: string)
    | Close(path: string, disk: Option<string>)
    | Loads(entry: nat, disk: Option<string>, wanted: bool, invalidatesDb: bool)
    | Disk(path: string, change: Change)

  /** The buffers that are open after some events, with their texts. */
  function Opened(texts: map<string, string>, events: seq<Event>): map<string, string>
    decreases |events|
  {
    if events == [] then texts
    else
      var before := Opened(texts, events[..|events| - 1]);
      match events[|events| - 1]
      case Store(path, code) => before[path := code]
      case Close(path, _) => before - {path}
      case _ => before
  }

  /** The buffers without one. */
  lemma OtherBuffers(inMemory: map<string, nat>, files: seq<FileState>, stored: map<string, string>, path: string,
                     i: nat)
    requires BuffersWin(inMemory, files, stored) && i < |files| && files[i].path == path
    ensures BuffersWin(inMemory - {path}, files, stored - {path}) && i !in (inMemory - {path}).Values
  {
    forall p | p in inMemory - {path}
      ensures BufferWins(files, p, inMemory[p], stored[p]) && inMemory[p] != i
    {
      assert BufferWins(files, p, inMemory[p], stored[p]);
    }
  }

  lemma OneMoreBuffer(inMemory: map<string, nat>, files: seq<FileState>, stored: map<string, string>, path: string,
                      i: nat, code: string)
    requires BuffersWin(inMemory - {path}, files, stored - {path}) && BufferWins(files, path, i, code)
    ensures BuffersWin(inMemory[path := i], files, stored[path := code])
  {
    var more, texts := inMemory[path := i], stored[path := code];
    forall p
      ensures p in texts <==> p in more
    {
      assert p != path ==> (p in stored - {path} <==> p in inMemory - {path});
    }
    assert texts.Keys == more.Keys;
    forall p | p in more
      ensures BufferWins(files, p, more[p], texts[p])
    {
      if p != path {
        assert p in inMemory - {path};
      }
    }
  }

  /** A file replaced by one for the same path, with the entry that the path has. */
  lemma FileReplaced(inMemory: map<string, nat>, stored: map<string, string>, tree: map<string, Node>,
                     entries: seq<Entry>, files: seq<FileState>, path: string, e: nat, i: nat, code: string)
    requires WellIndexed(entries, files) && i < |files| && files[i].path == path && e < |entries|
    requires BuffersWin(inMemory - {path}, files, stored - {path}) && BuffersPlaced(inMemory, tree, entries)
    requires path in tree && tree[path] == FileAt(e) && entries[e].fileIndex == Some(i)
    ensures var files' := files[i := FileState(path, e, Some(Loaded(code, {})))];
            WellIndexed(entries, files') && BuffersWin(inMemory[path := i], files', stored[path := code])
    ensures BuffersPlaced(inMemory[path := i], tree, entries)
  {
    var files' := files[i := FileState(path, e, Some(Loaded(code, {})))];
    OtherBuffers(inMemory - {path}, files, stored - {path}, path, i);
    forall p | p in inMemory - {path}
      ensures BufferWins(files', p, (inMemory - {path})[p], (stored - {path})[p])
    {
      assert BufferWins(files, p, (inMemory - {path})[p], (stored - {path})[p]);
    }
    OneMoreBuffer(inMemory, files', stored, path, i, code);
    var more := inMemory[path := i];
    forall p | p in more
      ensures Placed(tree, entries, p, more[p])
    {
      if p != path {
        assert Placed(tree, entries, p, inMemory[p]);
      }
    }
  }

  lemma NothingWalked(entries: seq<Entry>, files: seq<FileState>, inMemory: map<string, nat>, n: set<string>,
                      original: Option<nat>)
    requires ValidGraph(entries, Owners(files))
    ensures Walked(entries, files, inMemory, n, original, {}, {}, entries, files, n)
  {
    NothingReached(entries, Owners(files));
    NothingInvalidated(entries, files, inMemory, n, original);
  }

  class Vfs {
    var entries: seq<Entry>
    var files: seq<FileState>
    var inMemory: map<string, nat>
    var notified: set<string>
    var tree: map<string, Node>
    ghost var stored: map<string, string>

    ghost predicate Valid()
      reads this
    {
      && WellIndexed(entries, files) && TreeOk(tree, entries, |files|)
      && BuffersWin(inMemory, files, stored) && BuffersPlaced(inMemory, tree, entries)
    }

    constructor ()
      ensures Valid() && stored == map[] && files == []
    {
      entries, files, inMemory, notified, tree, stored := [], [], map[], {}, map[], map[];
    }

    /** Invalidates files and all that depends on them. The result says whether
        everything has to go; otherwise exactly what can be reached has been told
        to forget the original, and its entries have been emptied. */
    method InvalidateFiles(original: Option<nat>, invalidations: Invalidations)
      returns (all: bool, ghost reached: set<nat>)
      requires ValidGraph(entries, Owners(files)) && ValidInvalidations(invalidations, |files|)
      modifies this`entries, this`files, this`notified
      ensures Kept(old(entries), old(files), entries, files)
      ensures all <==> invalidations.InvalidatesDb? || DbReached(old(entries), Owners(old(files)), invalidations.files)
      ensures all ==> inMemory.Keys <= notified
      ensures !all ==> IsReach(old(entries), Owners(old(files)), invalidations.files, reached)
      ensures !all ==>
                Invalidated(old(entries), old(files), inMemory, old(notified), original, reached, entries, files,
                            notified)
      decreases 2 * (Total(entries) + Count(invalidations)), 2
    {
      if invalidations.InvalidatesDb? {
        notified := notified + inMemory.Keys;
        return true, {};
      }
      ghost var entries0, files0 := entries, files;
      all, reached := WalkFiles(original, invalidations.files);
      if !all {
        NoDbReached(entries0, Owners(files0), invalidations.files, reached);
      }
    }

    /** One file after the other, until everything has to go. */
    method WalkFiles(original: Option<nat>, s: set<nat>) returns (all: bool, ghost reached: set<nat>)
      requires ValidGraph(entries, Owners(files)) && ValidInvalidations(Dependents(s), |files|)
      modifies this`entries, this`files, this`notified
      ensures all ==> Kept(old(entries), old(files), entries, files) && DbReached(old(entries), Owners(old(files)), s)
                      && inMemory.Keys <= notified
      ensures !all ==>
                Walked(old(entries), old(files), inMemory, old(notified), original, s, reached, entries, files,
                       notified)
      decreases 2 * (Total(entries) + Count(Dependents(s))), 1
    {
      ghost var entries0, files0, notified0 := entries, files, notified;
      var pending := s;
      ghost var done: set<nat> := {};
      reached := {};
      NothingWalked(entries, files, inMemory, notified, original);
      while pending != {}
        invariant pending <= s && done == s - pending
        invariant Walked(entries0, files0, inMemory, notified0, original, done, reached, entries, files, notified)
        decreases pending
      {
        var f :| f in pending;
        assert Total(entries) <= Total(entries0) && |s| > 0;
        all, reached := InvalidateOneMore(original, f, s, done, reached, entries0, files0, notified0);
        if all {
          return true, {};
        }
        pending, done := pending - {f}, done + {f};
      }
      assert done == s;
      all := false;
    }

    /** One more file, after some have been invalidated. */
    method InvalidateOneMore(original: Option<nat>, f: nat, ghost s: set<nat>, ghost done: set<nat>,
                             ghost reached: set<nat>,
                             ghost entries0: seq<Entry>, ghost files0: seq<FileState>, ghost notified0: set<string>)
      returns (all: bool, ghost reached': set<nat>)
      requires Walked(entries0, files0, inMemory, notified0, original, done, reached, entries, files, notified)
      requires f < |files| && f in s
      modifies this`entries, this`files, this`notified
      ensures all ==>
                Kept(entries0, files0, entries, files) && DbReached(entries0, Owners(files0), s)
                && inMemory.Keys <= notified
      ensures !all ==>
                Walked(entries0, files0, inMemory, notified0, original, done + {f}, reached', entries, files, notified)
      decreases 2 * Total(entries) + 2, 0
    {
      ghost var entries1, files1, notified1 := entries, files, notified;
      SameOwners(files0, files1);
      ghost var more;
      all, more := InvalidateFileByIndex(original, f);
      SameFilesMore(files0, files1, files);
      if all {
        DbFound(entries0, Owners(files0), reached, entries1, f, s);
        return true, {};
      }
      ReachMore(entries0, Owners(files0), done, reached, entries1, f, more);
      InvalidatedMore(entries0, files0, inMemory, notified0, original, reached, entries1, files1, notified1,
                      more, entries, files, notified);
      reached' := reached + more;
    }

    /** The same for one file. */
    method InvalidateFileByIndex(original: Option<nat>, f: nat) returns (all: bool, ghost reached: set<nat>)
      requires ValidGraph(entries, Owners(files)) && f < |files|
      modifies this`entries, this`files, this`notified
      ensures Kept(old(entries), old(files), entries, files)
      ensures all <==> DbReached(old(entries), Owners(old(files)), {f})
      ensures all ==> inMemory.Keys <= notified
      ensures !all ==> IsReach(old(entries), Owners(old(files)), {f}, reached)
      ensures !all ==>
                Invalidated(old(entries), old(files), inMemory, old(notified), original, reached, entries, files,
                            notified)
      decreases 2 * Total(entries) + 1, 0
    {
      ghost var entries0, files0, notified0, owners := entries, files, notified, Owners(files);
      var e := files[f].entry;
      var taken := Take(e);
      files := files[f := Forget(files[f], original)];
      ghost var entries1, files1 := entries, files;
      OneForgotten(files0, original, f);
      SameOwners(files0, files1);
      ghost var more;
      all, more := InvalidateFiles(original, taken);
      SameFilesMore(files0, files1, files);
      if all {
        if taken.InvalidatesDb? {
          DbHere(entries0, owners, f);
        } else {
          OneEmptied(entries0, owners, f);
          DbFoundThrough(entries0, owners, f, entries1);
        }
        return true, {};
      }
      ghost var notified1 := notified;
      var path := files[f].path;
      if path in inMemory {
        notified := notified + {path};
      }
      reached := {f} + more;
      assert SameFile(files0[f], files[f]);
      OneEmptied(entries0, owners, f);
      FinishedFile(entries0, files0, inMemory, notified0, original, f, entries1, files1, more, entries, files,
                   notified1);
      ReachThrough(entries0, owners, f, entries1, more);
      assert more + {f} == reached;
      NoDbReached(entries0, owners, {f}, reached);
      all := false;
    }

    /** The dependents of an entry, which forgets them unless they are all. */
    method Take(e: nat) returns (taken: Invalidations)
      requires e < |entries|
      modifies this`entries
      ensures taken == old(entries)[e].invalidations
      ensures entries == if taken.InvalidatesDb? then old(entries)
                         else old(entries)[e := old(entries)[e].(invalidations := Dependents({}))]
      ensures Total(entries) + Count(taken) == Total(old(entries))
    {
      taken := entries[e].invalidations;
      TotalTaken(entries, e);
      if taken.Dependents? {
        entries := entries[e := entries[e].(invalidations := Dependents({}))];
      }
    }

    // ----- loading and unloading

    /** Unloads a file and invalidates all that depends on it. */
    method InvalidateAndUnloadFile(i: nat) returns (all: bool, ghost reached: set<nat>)
      requires ValidGraph(entries, Owners(files)) && i < |files|
      modifies this`entries, this`files, this`notified
      ensures Unloaded(old(entries), old(files), i, entries, files)
      ensures all <==> DbReached(old(entries), Owners(old(files)), {i})
      ensures all ==> inMemory.Keys <= notified
      ensures !all ==> Swapped(old(entries), old(files), inMemory, old(notified), i, old(files)[i].(file := None),
                               reached, entries, files, notified)
    {
      ghost var entries0, files0, notified0, owners := entries, files, notified, Owners(files);
      files := files[i := files[i].(file := None)];
      assert Owners(files) == owners;
      var taken := Take(files[i].entry);
      ghost var entries1 := entries;
      all, reached := InvalidateFiles(Some(i), taken);
      if taken.InvalidatesDb? {
        DbHere(entries0, owners, i);
      } else {
        OneEmptied(entries0, owners, i);
        if all {
          DbFoundThrough(entries0, owners, i, entries1);
        } else {
          EmptiedMore(entries0, owners, {i}, entries1, reached, entries);
          ReachThrough(entries0, owners, i, entries1, reached);
          assert reached + {i} == {i} + reached;
          NoDbReached(entries0, owners, {i}, {i} + reached);
          UnloadedIsSwapped(files0, inMemory, notified0, i, reached, files, notified);
        }
      }
    }

    /** The entry at a path, made if there was none, and who is affected by that. */
    method EnsureFile(path: string) returns (e: nat, invalidations: Invalidations)
      requires WellIndexed(entries, files) && TreeOk(tree, entries, |files|)
      modifies this`entries, this`tree
      ensures WellIndexed(entries, files) && TreeOk(tree, entries, |files|)
      ensures forall p, i :: Placed(old(tree), old(entries), p, i) ==> Placed(tree, entries, p, i)
      ensures |old(entries)| <= |entries| && entries[..|old(entries)|] == old(entries)
      ensures path in tree && tree[path] == FileAt(e) && e < |entries| && entries[e].path == path
      ensures tree == old(tree)[path := FileAt(e)] && ValidInvalidations(invalidations, |files|)
      ensures if path in old(tree) && old(tree)[path].FileAt? then entries == old(entries) && tree == old(tree)
              else e == |old(entries)| && entries == old(entries) + [Entry(path, None, Dependents({}))]
      ensures invalidations == if path in old(tree) && old(tree)[path].Missing? then old(tree)[path].invalidations
              else Dependents({})
    {
      invalidations := Dependents({});
      if path in tree {
        match tree[path] {
          case FileAt(found) => return found, invalidations;
          case Missing(affected) => invalidations := affected;
        }
      }
      e := |entries|;
      entries := entries + [Entry(path, None, Dependents({}))];
      tree := tree[path := FileAt(e)];
    }

    /** A new file for an entry that has none. */
    method AddFile(e: nat, code: string, invalidatesDb: bool) returns (i: nat)
      requires WellIndexed(entries, files) && TreeOk(tree, entries, |files|) && BuffersPlaced(inMemory, tree, entries)
      requires BuffersWin(inMemory, files, stored) && e < |entries| && entries[e].fileIndex.None?
      modifies this`entries, this`files
      ensures WellIndexed(entries, files) && TreeOk(tree, entries, |files|) && BuffersPlaced(inMemory, tree, entries)
      ensures BuffersWin(inMemory, files, stored)
      ensures i == |old(files)| && files == old(files) + [FileState(old(entries)[e].path, e, Some(Loaded(code, {})))]
      ensures |entries| == |old(entries)| && entries[e].path == old(entries)[e].path && entries[e].fileIndex == Some(i)
      ensures entries[e].invalidations == if invalidatesDb then InvalidatesDb else old(entries)[e].invalidations
      ensures forall k :: 0 <= k < |entries| && k != e ==> entries[k] == old(entries)[k]
    {
      i := |files|;
      files := files + [FileState(entries[e].path, e, Some(Loaded(code, {})))];
      var invalidations := if invalidatesDb then InvalidatesDb else entries[e].invalidations;
      entries := entries[e := Entry(entries[e].path, Some(i), invalidations)];
      forall p | p in inMemory
        ensures BufferWins(files, p, inMemory[p], stored[p]) && Placed(tree, entries, p, inMemory[p])
      {
        assert BufferWins(old(files), p, inMemory[p], stored[p]) && Placed(tree, old(entries), p, inMemory[p]);
      }
    }

    /** The entry has a file that is loaded. */
    static ghost predicate IsLoaded(entries: seq<Entry>, files: seq<FileState>, e: nat) {
      && e < |entries| && entries[e].fileIndex.Some? && entries[e].fileIndex.value < |files|
      && files[entries[e].fileIndex.value].file.Some?
    }

    /** Loads the file of an entry, whether or not the tree still has the entry. A
        file that is loaded already, and so every open buffer, is left as it is. */
    method Load(e: nat, disk: Option<string>, wanted: bool, invalidatesDb: bool) returns (i: Option<nat>)
      requires Valid() && e < |entries|
      modifies this`entries, this`files
      ensures Valid() && |entries| == |old(entries)| && |old(files)| <= |files|
      ensures i.Some? <==> IsLoaded(old(entries), old(files), e) || (disk.Some? && wanted)
      ensures i.None? || IsLoaded(old(entries), old(files), e) ==> files == old(files) && entries == old(entries)
      ensures i.Some? ==> entries[e].fileIndex == i && i.value < |files| && files[i.value].path == entries[e].path
      ensures i.Some? && !IsLoaded(old(entries), old(files), e) && old(entries)[e].fileIndex.Some? ==>
                i == old(entries)[e].fileIndex && i.value < |old(files)| && entries == old(entries)
                && files == old(files)[i.value := old(files)[i.value].(file := Some(Loaded(disk.value, {})))]
      ensures i.Some? && old(entries)[e].fileIndex.None? ==>
                && i.value == |old(files)|
                && files == old(files) + [FileState(old(entries)[e].path, e, Some(Loaded(disk.value, {})))]
                && var invalidations := if invalidatesDb then InvalidatesDb else old(entries)[e].invalidations;
                   entries == old(entries)[e := Entry(old(entries)[e].path, i, invalidations)]
    {
      if entries[e].fileIndex.Some? {
        var f := entries[e].fileIndex.value;
        if files[f].file.Some? {
          return Some(f);
        }
        if disk.None? || !wanted {
          return None;
        }
        files := files[f := files[f].(file := Some(Loaded(disk.value, {})))];
        assert Owners(files) == Owners(old(files));
        forall p | p in inMemory
          ensures BufferWins(files, p, inMemory[p], stored[p])
        {
          assert BufferWins(old(files), p, inMemory[p], stored[p]);
        }
        return Some(f);
      }
      if disk.None? || !wanted {
        return None;
      }
      var f := AddFile(e, disk.value, invalidatesDb);
      return Some(f);
    }

    // ----- buffers

    /** An editor opens or changes a buffer. If there is a file at the path, it gets
        the text, and what depends on it is told, unless it has that text; otherwise
        there is a new file, and those who waited for the path are told. */
    method StoreInMemoryFile(path: string, code: string) returns (i: nat, all: bool, ghost reached: set<nat>)
      requires Valid()
      modifies this
      ensures Valid() && stored == old(stored)[path := code]
      ensures inMemory == old(inMemory)[path := i]
      ensures var found := FileOf(old(tree), old(entries), path);
              found.Some? ==>
                i == found.value && i < |old(files)|
                && TextPut(old(entries), old(files), old(inMemory), old(notified) + {path}, path,
                           EntryOf(old(tree), path), i, code, all, reached, entries, files, notified)
      ensures FileOf(old(tree), old(entries), path).None? ==>
                i == |old(files)|
                && FileAdded(old(tree), old(entries), old(files), inMemory, old(notified) + {path}, path, code, all,
                             reached, entries, files, notified)
    {
      var e, affected := EnsureFile(path);
      StillPlaced(inMemory, old(tree), old(entries), tree, entries);
      assert path in old(inMemory) ==> Placed(old(tree), old(entries), path, old(inMemory)[path]);
      notified := notified + {path};
      AddedAt(old(tree), old(entries), path, e, entries, |files|);
      i, all, reached := StoreAt(path, e, code, affected);
    }

    /** The same when the path has an entry. */
    method StoreAt(path: string, e: nat, code: string, affected: Invalidations)
      returns (i: nat, all: bool, ghost reached: set<nat>)
      requires Valid() && path in tree && tree[path] == FileAt(e) && ValidInvalidations(affected, |files|)
      requires path in inMemory ==> entries[e].fileIndex == Some(inMemory[path])
      requires entries[e].fileIndex.Some? ==> affected == Dependents({})
      modifies this`entries, this`files, this`notified, this`inMemory, this`stored
      ensures Valid() && stored == old(stored)[path := code]
      ensures inMemory == old(inMemory)[path := i]
      ensures old(entries)[e].fileIndex.Some? ==>
                && i == old(entries)[e].fileIndex.value && i < |old(files)|
                && TextPut(old(entries), old(files), old(inMemory), old(notified), path, e, i, code, all, reached,
                           entries, files, notified)
      ensures old(entries)[e].fileIndex.None? ==>
                && i == |old(files)|
                && WaitersTold(old(entries)[e := Entry(path, Some(i), old(entries)[e].invalidations)],
                               old(files) + [FileState(path, e, Some(Loaded(code, {})))], inMemory, old(notified), i,
                               affected, all, reached, entries, files, notified)
    {
      ghost var hadFile := entries[e].fileIndex.Some?;
      var same;
      i, all, same, reached := PutText(path, e, code);
      inMemory, stored := inMemory[path := i], stored[path := code];
      if !same {
        ghost var entries1, files1, notified1 := entries, files, notified;
        var more;
        ghost var waiting;
        more, waiting := InvalidateAffected(i, affected);
        if hadFile {
          NothingTold(entries1, files1, inMemory, notified1, Some(i), waiting, entries, files, notified, more);
        } else {
          reached := waiting;
        }
        all := all || more;
      }
    }

    /** The text of a buffer goes to the file of its entry, an old one or a new
        one. Nothing happens to a file that has the text already. */
    method PutText(path: string, e: nat, code: string)
      returns (i: nat, all: bool, same: bool, ghost reached: set<nat>)
      requires Valid() && path in tree && tree[path] == FileAt(e)
      requires path in inMemory ==> entries[e].fileIndex == Some(inMemory[path])
      modifies this`entries, this`files, this`notified
      ensures WellIndexed(entries, files) && TreeOk(tree, entries, |files|) && |old(files)| <= |files|
      ensures BuffersWin(inMemory[path := i], files, stored[path := code])
      ensures BuffersPlaced(inMemory[path := i], tree, entries)
      ensures old(entries)[e].fileIndex.Some? ==>
                && i == old(entries)[e].fileIndex.value && i < |old(files)|
                && same == HasText(old(files), i, code)
                && TextPut(old(entries), old(files), inMemory, old(notified), path, e, i, code, all, reached, entries,
                           files, notified)
      ensures old(entries)[e].fileIndex.None? ==>
                && !all && !same && notified == old(notified) && i == |old(files)|
                && files == old(files) + [FileState(path, e, Some(Loaded(code, {})))]
                && entries == old(entries)[e := Entry(path, Some(i), old(entries)[e].invalidations)]
    {
      all, same, reached := false, false, {};
      if entries[e].fileIndex.Some? {
        i := entries[e].fileIndex.value;
        if files[i].file.Some? && files[i].file.value.code == code {
          OtherBuffers(inMemory, files, stored, path, i);
          OneMoreBuffer(inMemory, files, stored, path, i, code);
          same := true;
        } else {
          all, reached := ReplaceFile(path, e, i, code);
        }
      } else {
        i := AddFile(e, code, false);
        OtherBuffers(inMemory, files, stored, path, i);
        OneMoreBuffer(inMemory, files, stored, path, i, code);
      }
    }

    /** Files that had been waiting for a path to appear are invalidated. */
    method InvalidateAffected(i: nat, affected: Invalidations) returns (all: bool, ghost reached: set<nat>)
      requires Valid() && ValidInvalidations(affected, |files|)
      modifies this`entries, this`files, this`notified
      ensures Valid() && Kept(old(entries), old(files), entries, files)
      ensures all <==> affected.InvalidatesDb? || DbReached(old(entries), Owners(old(files)), affected.files)
      ensures all ==> inMemory.Keys <= notified
      ensures !all ==> IsReach(old(entries), Owners(old(files)), affected.files, reached)
      ensures !all ==>
                Invalidated(old(entries), old(files), inMemory, old(notified), Some(i), reached, entries, files,
                            notified)
    {
      ghost var entries1, files1 := entries, files;
      all, reached := InvalidateFiles(Some(i), affected);
      KeptIndexes(entries1, files1, entries, files);
      KeptBuffers(inMemory, files1, files, stored);
      SameEntriesPlaced(inMemory, tree, entries1, entries, |files|);
    }

    /** The file of a buffer gets another text. */
    method ReplaceFile(path: string, e: nat, i: nat, code: string) returns (all: bool, ghost reached: set<nat>)
      requires WellIndexed(entries, files) && TreeOk(tree, entries, |files|)
      requires BuffersWin(inMemory, files, stored) && BuffersPlaced(inMemory, tree, entries)
      requires path in tree && tree[path] == FileAt(e) && entries[e].fileIndex == Some(i)
      modifies this`entries, this`files, this`notified
      ensures WellIndexed(entries, files) && TreeOk(tree, entries, |files|) && |files| == |old(files)|
      ensures BuffersWin(inMemory[path := i], files, stored[path := code])
              && BuffersPlaced(inMemory[path := i], tree, entries)
      ensures TextReplaced(old(entries), old(files), inMemory, old(notified), path, e, i, code, all, reached, entries,
                           files, notified)
    {
      ghost var entries0, files0, notified0 := entries, files, notified;
      OtherBuffers(inMemory, files, stored, path, i);
      all, reached := UnloadBuffer(path, i);
      if !all {
        SwappedAgain(entries0, files0, inMemory, notified0, i, files0[i].(file := None), reached, entries, files,
                     notified, FileState(path, e, Some(Loaded(code, {}))));
      }
      PutFile(path, e, i, code, all);
    }

    method PutFile(path: string, e: nat, i: nat, code: string, invalidatesDb: bool)
      requires WellIndexed(entries, files) && TreeOk(tree, entries, |files|)
      requires BuffersWin(inMemory - {path}, files, stored - {path}) && BuffersPlaced(inMemory, tree, entries)
      requires path in tree && tree[path] == FileAt(e) && entries[e].fileIndex == Some(i)
      requires i < |files| && files[i].path == path
      modifies this`entries, this`files
      ensures WellIndexed(entries, files) && TreeOk(tree, entries, |files|)
      ensures BuffersWin(inMemory[path := i], files, stored[path := code])
              && BuffersPlaced(inMemory[path := i], tree, entries)
      ensures files == old(files)[i := FileState(path, e, Some(Loaded(code, {})))]
      ensures entries == if invalidatesDb then old(entries)[e := old(entries)[e].(invalidations := InvalidatesDb)]
                         else old(entries)
    {
      ghost var entries1 := entries;
      FileReplaced(inMemory, stored, tree, entries, files, path, e, i, code);
      files := files[i := FileState(path, e, Some(Loaded(code, {})))];
      if invalidatesDb {
        entries := entries[e := entries[e].(invalidations := InvalidatesDb)];
        SameEntriesPlaced(inMemory[path := i], tree, entries1, entries, |files|);
      }
    }

    /** The file of a buffer is unloaded, other buffers stay. */
    method UnloadBuffer(path: string, i: nat) returns (all: bool, ghost reached: set<nat>)
      requires WellIndexed(entries, files) && TreeOk(tree, entries, |files|) && i < |files|
      requires BuffersWin(inMemory - {path}, files, stored - {path}) && BuffersPlaced(inMemory, tree, entries)
      requires i !in (inMemory - {path}).Values
      modifies this`entries, this`files, this`notified
      ensures WellIndexed(entries, files) && TreeOk(tree, entries, |files|) && |files| == |old(files)|
      ensures BuffersWin(inMemory - {path}, files, stored - {path}) && BuffersPlaced(inMemory, tree, entries)
      ensures SameEntries(old(entries), entries) && files[i].path == old(files)[i].path
      ensures all <==> DbReached(old(entries), Owners(old(files)), {i})
      ensures all ==> inMemory.Keys <= notified
      ensures !all ==> Swapped(old(entries), old(files), inMemory, old(notified), i, old(files)[i].(file := None),
                               reached, entries, files, notified)
    {
      ghost var entries0, files0 := entries, files;
      all, reached := InvalidateAndUnloadFile(i);
      UnloadIndexes(entries0, files0, i, entries, files);
      UnloadKeepsBuffers(inMemory - {path}, stored - {path}, entries0, files0, i, entries, files);
      SameEntriesPlaced(inMemory, tree, entries0, entries, |files|);
    }

    /** A buffer is closed: from now on the file system has its say again. */
    method CloseInMemoryFile(path: string, disk: Option<string>) returns (all: Option<bool>, ghost reached: set<nat>)
      requires Valid()
      modifies this
      ensures Valid() && stored == old(stored) - {path} && inMemory == old(inMemory) - {path}
      ensures all.None? <==> path !in old(inMemory)
      ensures all.None? ==> files == old(files) && entries == old(entries) && tree == old(tree)
      ensures all.Some? ==> OnDisk(files, tree, path, old(inMemory)[path], disk)
      ensures all.Some? ==>
                var i := old(inMemory)[path];
                i < |old(files)| && Closes(old(entries), old(files), inMemory, old(notified), i, disk, all.value,
                                           reached, entries, files, notified)
    {
      if path !in inMemory {
        assert inMemory - {path} == inMemory && stored - {path} == stored;
        return None, {};
      }
      var i := inMemory[path];
      assert BufferWins(files, path, i, stored[path]) && Placed(tree, entries, path, i);
      OtherBuffers(inMemory, files, stored, path, i);
      FewerPlaced(inMemory, tree, entries, {path});
      inMemory, stored := inMemory - {path}, stored - {path};
      var more;
      more, reached := BackToDisk(path, i, disk);
      all := Some(more);
    }

    /** A file that was a buffer gets the text of the file system, or is unloaded. */
    method BackToDisk(path: string, i: nat, disk: Option<string>) returns (all: bool, ghost reached: set<nat>)
      requires Valid() && path !in inMemory && i < |files| && files[i].path == path && files[i].file.Some?
               && i !in inMemory.Values
      modifies this`entries, this`files, this`notified, this`tree
      ensures Valid() && OnDisk(files, tree, path, i, disk)
      ensures Closes(old(entries), old(files), inMemory, old(notified), i, disk, all, reached, entries, files, notified)
    {
      if disk.Some? {
        if files[i].file.value.code == disk.value {
          return false, {};
        }
        all, reached := UpdateFile(i, disk.value);
        return;
      }
      RemovedPlaced(inMemory, tree, entries, path);
      tree := tree - {path};
      all, reached := UnloadOther(i);
    }

    /** A file that is no buffer is unloaded. */
    method UnloadOther(i: nat) returns (all: bool, ghost reached: set<nat>)
      requires WellIndexed(entries, files) && TreeOk(tree, entries, |files|) && i < |files| && i !in inMemory.Values
      requires BuffersWin(inMemory, files, stored)
      modifies this`entries, this`files, this`notified
      ensures WellIndexed(entries, files) && TreeOk(tree, entries, |files|) && |files| == |old(files)|
      ensures SameEntries(old(entries), entries) && BuffersWin(inMemory, files, stored)
      ensures forall f :: 0 <= f < |files| ==> files[f].path == old(files)[f].path
      ensures files[i].file.None? && (all <==> DbReached(old(entries), Owners(old(files)), {i}))
      ensures BuffersPlaced(inMemory, tree, old(entries)) ==> BuffersPlaced(inMemory, tree, entries)
      ensures OnlyUnloaded(old(files), {i}, files)
      ensures all ==> inMemory.Keys <= notified
      ensures !all ==> Swapped(old(entries), old(files), inMemory, old(notified), i, old(files)[i].(file := None),
                               reached, entries, files, notified)
    {
      ghost var entries0, files0 := entries, files;
      all, reached := InvalidateAndUnloadFile(i);
      ghost var files1 := files0[i := files0[i].(file := None)];
      UnloadIndexes(entries0, files0, i, entries, files);
      UnloadKeepsBuffers(inMemory, stored, entries0, files0, i, entries, files);
      SameEntriesPlaced(inMemory, tree, entries0, entries, |files|);
      forall f | 0 <= f < |files|
        ensures files[f].path == files0[f].path && (f == i ==> files[f].file.None?)
      {
        assert SameFile(files1[f], files[f]);
      }
    }

    method UpdateFile(i: nat, code: string) returns (all: bool, ghost reached: set<nat>)
      requires Valid() && i < |files| && i !in inMemory.Values
      modifies this`entries, this`files, this`notified
      ensures Valid() && |files| == |old(files)|
      ensures files[i].path == old(files)[i].path && files[i].file == Some(Loaded(code, {}))
      ensures (all <==> DbReached(old(entries), Owners(old(files)), {i})) && (all ==> inMemory.Keys <= notified)
      ensures !all ==> Swapped(old(entries), old(files), inMemory, old(notified), i,
                               old(files)[i].(file := Some(Loaded(code, {}))), reached, entries, files, notified)
    {
      ghost var entries0, files0, notified0 := entries, files, notified;
      all, reached := UnloadOther(i);
      ghost var files1 := files;
      if !all {
        SwappedAgain(entries0, files0, inMemory, notified0, i, files0[i].(file := None), reached, entries, files,
                     notified, files0[i].(file := Some(Loaded(code, {}))));
      }
      files := files[i := files[i].(file := Some(Loaded(code, {})))];
      assert Owners(files) == Owners(files1);
      forall p | p in inMemory
        ensures BufferWins(files, p, inMemory[p], stored[p])
      {
        assert BufferWins(files1, p, inMemory[p], stored[p]) && inMemory[p] in inMemory.Values;
      }
    }

    /** A file goes back if it has a buffer, and is unloaded if it has none. */
    method GatherFile(p: string, i: nat, a: Affected, ghost done: set<string>) returns (a': Affected)
      requires BuffersWin(inMemory, files, stored) && i < |files| && files[i].path == p
      requires (p in inMemory ==> inMemory[p] == i) && AffectedOk(inMemory, |files|, done, a)
      ensures AffectedOk(inMemory, |files|, done + {p}, a') && a'.all == a.all
      ensures a'.unloads == if i in inMemory.Values then a.unloads else a.unloads + {i}
    {
      if i in inMemory.Values {
        var q :| q in inMemory && inMemory[q] == i;
        assert BufferWins(files, q, i, stored[q]) && q == p;
        a' := a.(back := a.back[q := i], invalidations := a.invalidations + {i});
      } else {
        a' := a.(unloads := a.unloads + {i});
      }
    }

    /** One path of the replaced part. */
    method GatherOne(p: string, a: Affected, ghost done: set<string>) returns (a': Affected)
      requires Valid() && p in tree && AffectedOk(inMemory, |files|, done, a)
      ensures AffectedOk(inMemory, |files|, done + {p}, a') && a'.all == (a.all || NeedsAll(tree, p))
      ensures forall i: nat :: i in a'.unloads <==> i in a.unloads || UnloadsAt(inMemory, tree, entries, p, i)
    {
      assert p in inMemory ==> Placed(tree, entries, p, inMemory[p]);
      a' := a;
      match tree[p] {
        case FileAt(e) =>
          match entries[e].fileIndex {
            case None =>
            case Some(i) => a' := GatherFile(p, i, a, done);
          }
        case Missing(InvalidatesDb) => a' := a.(all := true);
        case Missing(Dependents(dependents)) => a' := a.(invalidations := a.invalidations + dependents);
      }
    }

    /** Goes through the replaced part of the tree. */
    method Gather(walked: set<string>) returns (a: Affected)
      requires Valid() && walked <= tree.Keys
      ensures AffectedOk(inMemory, |files|, walked, a) && (a.all <==> exists p :: p in walked && NeedsAll(tree, p))
      ensures IsUnloads(inMemory, tree, entries, walked, a.unloads)
    {
      a := Affected(false, {}, {}, map[]);
      var rest := walked;
      while rest != {}
        invariant rest <= walked && AffectedOk(inMemory, |files|, walked - rest, a)
        invariant a.all <==> exists p :: p in walked - rest && NeedsAll(tree, p)
        invariant IsUnloads(inMemory, tree, entries, walked - rest, a.unloads)
        decreases rest
      {
        var p :| p in rest;
        ghost var unloads := a.unloads;
        a := GatherOne(p, a, walked - rest);
        OneUnloadsMore(inMemory, tree, entries, walked - rest, unloads, p, a.unloads);
        assert walked - (rest - {p}) == walked - rest + {p};
        rest := rest - {p};
      }
      assert walked - rest == walked;
    }

    /** The tree without the replaced part, with entries for what is there now. */
    method Replace(walked: set<string>, appeared: set<string>)
      requires Valid() && walked <= tree.Keys && appeared !! tree.Keys - walked
      modifies this`tree, this`entries
      ensures WellIndexed(entries, files) && TreeOk(tree, entries, |files|)
      ensures tree.Keys == old(tree).Keys - walked + appeared
      ensures BuffersPlaced(inMemory - walked, tree, entries)
      ensures forall p :: p in walked ==> Vacant(tree, entries, p)
    {
      FewerPlaced(inMemory, tree, entries, walked);
      tree := tree - walked;
      forall p | p in inMemory - walked
        ensures Placed(tree, entries, p, (inMemory - walked)[p])
      {
        assert Placed(old(tree), entries, p, inMemory[p]);
      }
      var rest := appeared;
      while rest != {}
        invariant rest <= appeared && WellIndexed(entries, files) && TreeOk(tree, entries, |files|)
        invariant tree.Keys == old(tree).Keys - walked + (appeared - rest)
        invariant BuffersPlaced(inMemory - walked, tree, entries)
        invariant forall p :: p in walked ==> Vacant(tree, entries, p)
        decreases rest
      {
        var p :| p in rest;
        ghost var tree1, entries1 := tree, entries;
        var e, affected := EnsureFile(p);
        StillPlaced(inMemory - walked, tree1, entries1, tree, entries);
        forall q | q in walked
          ensures Vacant(tree, entries, q)
        {
          assert Vacant(tree1, entries1, q);
        }
        rest := rest - {p};
      }
    }

    /** Buffers whose place in the tree was replaced get one again. */
    method PutBack(back: map<string, nat>)
      requires WellIndexed(entries, files) && TreeOk(tree, entries, |files|) && BuffersWin(inMemory, files, stored)
      requires forall p :: p in back ==> p in inMemory && back[p] == inMemory[p] && Vacant(tree, entries, p)
      requires BuffersPlaced(inMemory - back.Keys, tree, entries)
      modifies this`tree, this`entries, this`notified
      ensures Valid()
    {
      var rest := back.Keys;
      while rest != {}
        invariant rest <= back.Keys && WellIndexed(entries, files) && TreeOk(tree, entries, |files|)
        invariant forall p :: p in rest ==> Vacant(tree, entries, p)
        invariant BuffersPlaced(inMemory - rest, tree, entries)
        decreases rest
      {
        var p :| p in rest;
        assert BufferWins(files, p, inMemory[p], stored[p]);
        PutOneBack(p, back[p], rest);
        notified := notified + {p};
        rest := rest - {p};
      }
      assert inMemory - {} == inMemory;
    }

    method PutOneBack(p: string, i: nat, ghost rest: set<string>)
      requires WellIndexed(entries, files) && TreeOk(tree, entries, |files|) && p in rest
      requires i < |files| && files[i].path == p && p in inMemory && inMemory[p] == i
      requires forall q :: q in rest ==> Vacant(tree, entries, q)
      requires BuffersPlaced(inMemory - rest, tree, entries)
      modifies this`tree, this`entries
      ensures WellIndexed(entries, files) && TreeOk(tree, entries, |files|)
      ensures forall q :: q in rest - {p} ==> Vacant(tree, entries, q)
      ensures BuffersPlaced(inMemory - (rest - {p}), tree, entries)
    {
      ghost var tree0, entries0 := tree, entries;
      assert Vacant(tree, entries, p);
      var e, affected := EnsureFile(p);
      ghost var entries1 := entries;
      // The index is set only once.
      if entries[e].fileIndex.None? {
        entries := entries[e := entries[e].(fileIndex := Some(i))];
      }
      forall q | q in rest - {p}
        ensures Vacant(tree, entries, q)
      {
        assert Vacant(tree0, entries0, q);
      }
      forall q | q in inMemory - (rest - {p})
        ensures Placed(tree, entries, q, inMemory[q])
      {
        if q != p {
          assert q in inMemory - rest && Placed(tree0, entries0, q, inMemory[q])
                 && Placed(tree, entries1, q, inMemory[q]);
        }
      }
    }

    /** The file system tells that something changed at a path. Buffers are not
        touched by that, and unless everything has to go their files keep their
        places in the tree, and just the other files below the path are unloaded. */
    method InvalidatePath(path: string, change: Change) returns (all: bool, ghost unloads: set<nat>)
      requires Valid()
      requires change.Changed? ==> change.walked <= tree.Keys && change.appeared !! tree.Keys - change.walked
      modifies this`files, this`entries, this`tree, this`notified
      ensures BuffersWin(inMemory, files, stored)
      ensures !all ==> Valid()
      ensures path in inMemory || change.Unchanged? ==>
                !all && files == old(files) && entries == old(entries) && tree == old(tree)
      ensures path !in inMemory && change.Changed? ==>
                IsUnloads(inMemory, old(tree), old(entries), change.walked, unloads)
                && (!all ==> OnlyUnloaded(old(files), unloads, files))
    {
      unloads := {};
      if path in inMemory || change.Unchanged? {
        all := false;
        return;
      }
      var a := Gather(change.walked);
      unloads := a.unloads;
      Replace(change.walked, change.appeared);
      if a.all {
        all := true;
        return;
      }
      ghost var entries1 := entries;
      all := InvalidateAll(a.unloads, a.invalidations);
      if all {
        return;
      }
      BackIsVacant(inMemory, tree, entries1, entries, |files|, change.walked, a);
      PutBack(a.back);
    }

    /** The files are unloaded, then the others invalidated, until everything has to go. */
    method InvalidateAll(unloads: set<nat>, invalidations: set<nat>) returns (all: bool)
      requires WellIndexed(entries, files) && TreeOk(tree, entries, |files|) && BuffersWin(inMemory, files, stored)
      requires forall i :: i in unloads ==> i < |files| && i !in inMemory.Values
      requires forall i :: i in invalidations ==> i < |files|
      modifies this`files, this`entries, this`notified
      ensures BuffersWin(inMemory, files, stored) && WellIndexed(entries, files) && TreeOk(tree, entries, |files|)
      ensures SameEntries(old(entries), entries) && |files| == |old(files)|
      ensures !all ==> OnlyUnloaded(old(files), unloads, files)
    {
      all := UnloadAll(unloads);
      if !all {
        ghost var files1 := files;
        all := InvalidateEach(invalidations);
        SameIsNotUnloaded(old(files), unloads, files1, files);
      }
    }

    method UnloadAll(unloads: set<nat>) returns (all: bool)
      requires WellIndexed(entries, files) && TreeOk(tree, entries, |files|) && BuffersWin(inMemory, files, stored)
      requires forall i :: i in unloads ==> i < |files| && i !in inMemory.Values
      modifies this`files, this`entries, this`notified
      ensures BuffersWin(inMemory, files, stored) && WellIndexed(entries, files) && TreeOk(tree, entries, |files|)
      ensures SameEntries(old(entries), entries) && |files| == |old(files)|
      ensures !all ==> OnlyUnloaded(old(files), unloads, files)
    {
      all := false;
      var rest := unloads;
      ghost var gone: set<nat> := {};
      while rest != {}
        invariant gone + rest == unloads && WellIndexed(entries, files) && TreeOk(tree, entries, |files|)
        invariant BuffersWin(inMemory, files, stored) && SameEntries(old(entries), entries) && |files| == |old(files)|
        invariant OnlyUnloaded(old(files), gone, files)
        decreases rest
      {
        var i :| i in rest;
        rest := rest - {i};
        ghost var files1 := files;
        ghost var reached;
        all, reached := UnloadOther(i);
        if all {
          return;
        }
        UnloadedMore(old(files), gone, files1, {i}, files);
        gone := gone + {i};
      }
      assert gone == unloads;
    }

    method InvalidateEach(invalidations: set<nat>) returns (all: bool)
      requires WellIndexed(entries, files) && TreeOk(tree, entries, |files|) && BuffersWin(inMemory, files, stored)
      requires forall i :: i in invalidations ==> i < |files|
      modifies this`files, this`entries, this`notified
      ensures BuffersWin(inMemory, files, stored) && WellIndexed(entries, files) && TreeOk(tree, entries, |files|)
      ensures SameEntries(old(entries), entries) && SameFiles(old(files), files)
    {
      all := false;
      var rest := invalidations;
      while rest != {}
        invariant rest <= invalidations && WellIndexed(entries, files) && TreeOk(tree, entries, |files|)
        invariant BuffersWin(inMemory, files, stored) && SameEntries(old(entries), entries)
        invariant SameFiles(old(files), files)
        decreases rest
      {
        var i :| i in rest;
        rest := rest - {i};
        ghost var entries1, files1 := entries, files;
        ghost var reached;
        all, reached := InvalidateFileByIndex(None, i);
        KeptIndexes(entries1, files1, entries, files);
        KeptBuffers(inMemory, files1, files, stored);
        SameEntriesPlaced(inMemory, tree, entries1, entries, |files|);
        SameFilesMore(old(files), files1, files);
        if all {
          return;
        }
      }
    }

    method Happen(event: Event) returns (all: bool)
      requires Valid()
      modifies this
      ensures BuffersWin(inMemory, files, stored) && (!all ==> Valid())
      ensures stored == match event
                        case Store(path, code) => old(stored)[path := code]
                        case Close(path, _) => old(stored) - {path}
                        case _ => old(stored)
    {
      all := false;
      match event {
        case Store(path, code) =>
          var i;
          ghost var reached;
          i, all, reached := StoreInMemoryFile(path, code);
        case Close(path, disk) =>
          var closed;
          ghost var reached;
          closed, reached := CloseInMemoryFile(path, disk);
          all := closed == Some(true);
        case Loads(e, disk, wanted, invalidatesDb) =>
          if e < |entries| {
            var i := Load(e, disk, wanted, invalidatesDb);
          }
        case Disk(path, change) =>
          if change.Changed? && change.walked <= tree.Keys && change.appeared !! tree.Keys - change.walked {
            ghost var unloads;
            all, unloads := InvalidatePath(path, change);
          }
      }
    }

    /** Whatever happens, up to the first event after which everything has to go,
        the open buffers are those that were stored and not closed since, each
        with a loaded file that has the text last stored. */
    method Perform(events: seq<Event>) returns (done: nat, all: bool)
      requires Valid()
      modifies this
      ensures done <= |events| && (all || done == |events|)
      ensures inMemory.Keys == Opened(old(stored), events[..done]).Keys
      ensures BuffersWin(inMemory, files, Opened(old(stored), events[..done]))
    {
      done, all := 0, false;
      assert events[..0] == [];
      while done < |events|
        invariant done <= |events| && Valid() && !all && stored == Opened(old(stored), events[..done])
      {
        ghost var before := events[..done];
        all := Happen(events[done]);
        done := done + 1;
        assert events[..done][..done - 1] == before && events[..done][done - 1] == events[done - 1];
        if all {
          return;
        }
      }
    }
  }
}
