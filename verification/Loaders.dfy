/** Many threads that load files at once. Each goes through the steps of loading
    one entry's file, in any interleaving with the others; what happens under
    one lock is one step. */
module Loaders {
  import opened Rules

  /** A place in the table of files. Sub-files share the entry of another file. */
  datatype Slot = Slot(entry: nat, isSubFile: bool, content: Option<string>)

  /** Where a thread stands: it has looked the index up, has read the text, or has
      got an index for it. */
  datatype Progress =
    | Begin
    | Known(index: nat)
    | Unknown
    | ReadKnown(index: nat, text: string)
    | ReadUnknown(text: string)
    | Indexed(index: nat, text: string)
    | Finished(index: nat)
    | NotFound

  datatype Thread = Thread(entry: nat, progress: Progress)

  datatype State = State(indexes: map<nat, nat>, slots: seq<Slot>, threads: seq<Thread>)

  /** What the scheduler picks: the next step of a thread, which may read the
      disk, or a sub-file of a file that is there. */
  datatype Choice = Move(thread: nat, disk: Option<string>) | AddSubFile(of: nat, text: string)

  /** Sets the content of a slot unless it has one. */
  function Fill(s: State, i: nat, text: string): State
    requires i < |s.slots|
  {
    if s.slots[i].content.Some? then s else s.(slots := s.slots[i := s.slots[i].(content := Some(text))])
  }

  function Goes(s: State, t: nat, progress: Progress): State
    requires t < |s.threads|
  {
    s.(threads := s.threads[t := s.threads[t].(progress := progress)])
  }

  function StepThread(s: State, t: nat, disk: Option<string>): State
    requires t < |s.threads|
  {
    var e := s.threads[t].entry;
    match s.threads[t].progress
    case Begin => Goes(s, t, if e in s.indexes then Known(s.indexes[e]) else Unknown)
    case Known(i) =>
      if i < |s.slots| && s.slots[i].content.Some? then Goes(s, t, Finished(i))
      else if disk.None? then Goes(s, t, NotFound)
      else Goes(s, t, ReadKnown(i, disk.value))
    case Unknown => if disk.None? then Goes(s, t, NotFound) else Goes(s, t, ReadUnknown(disk.value))
    case ReadKnown(i, text) => if i < |s.slots| then Goes(Fill(s, i, text), t, Finished(i)) else s
    case ReadUnknown(text) =>
      // Under the lock of the entry: a new slot, unless another thread was first.
      if e in s.indexes then Goes(s, t, Indexed(s.indexes[e], text))
      else
        var i := |s.slots|;
        Goes(s.(indexes := s.indexes[e := i], slots := s.slots + [Slot(e, false, None)]), t, Indexed(i, text))
    case Indexed(i, text) => if i < |s.slots| then Goes(Fill(s, i, text), t, Finished(i)) else s
    case Finished(_) => s
    case NotFound => s
  }

  function Step(s: State, c: Choice): State {
    match c
    case Move(t, disk) => if t < |s.threads| then StepThread(s, t, disk) else s
    case AddSubFile(i, text) =>
      if i < |s.slots| then s.(slots := s.slots + [Slot(s.slots[i].entry, true, Some(text))]) else s
  }

  function Run(s: State, choices: seq<Choice>): State
    decreases |choices|
  {
    if choices == [] then s else Run(Step(s, choices[0]), choices[1..])
  }

  /** The index a thread has for its entry, if it has one. */
  function IndexOf(progress: Progress): Option<nat> {
    match progress
    case Known(i) => Some(i)
    case ReadKnown(i, _) => Some(i)
    case Indexed(i, _) => Some(i)
    case Finished(i) => Some(i)
    case _ => None
  }

  ghost predicate ThreadOk(s: State, t: Thread) {
    var i := IndexOf(t.progress);
    && (i.Some? ==> t.entry in s.indexes && s.indexes[t.entry] == i.value)
    && (t.progress.Finished? ==> i.value < |s.slots| && s.slots[i.value].content.Some?)
  }

  /** The index of an entry and the slot for it that is not a sub-file's belong
      together, one to one. */
  ghost predicate SlotsOk(s: State) {
    && (forall e :: e in s.indexes ==>
          s.indexes[e] < |s.slots| && s.slots[s.indexes[e]].entry == e && !s.slots[s.indexes[e]].isSubFile)
    && (forall i :: 0 <= i < |s.slots| && !s.slots[i].isSubFile ==>
          s.slots[i].entry in s.indexes && s.indexes[s.slots[i].entry] == i)
  }

  ghost predicate Valid(s: State) {
    SlotsOk(s) && forall t :: 0 <= t < |s.threads| ==> ThreadOk(s, s.threads[t])
  }

  /** Indexes, slots and contents that are there stay. */
  ghost predicate Later(s: State, s': State) {
    && (forall e :: e in s.indexes ==> e in s'.indexes && s'.indexes[e] == s.indexes[e])
    && |s.slots| <= |s'.slots|
    && (forall i :: 0 <= i < |s.slots| ==> SlotKept(s.slots[i], s'.slots[i]))
    && |s'.threads| == |s.threads| && forall t :: 0 <= t < |s.threads| ==> s'.threads[t].entry == s.threads[t].entry
  }

  ghost predicate SlotKept(a: Slot, b: Slot) {
    b.entry == a.entry && b.isSubFile == a.isSubFile && (a.content.Some? ==> b.content == a.content)
  }

  lemma OthersOk(s: State, s': State, t: nat)
    requires Valid(s) && Later(s, s') && t < |s.threads|
    requires forall u :: 0 <= u < |s.threads| && u != t ==> s'.threads[u] == s.threads[u]
    requires ThreadOk(s', s'.threads[t]) && SlotsOk(s')
    ensures Valid(s')
  {
    forall u | 0 <= u < |s'.threads|
      ensures ThreadOk(s', s'.threads[u])
    {
      if u != t {
        assert ThreadOk(s, s.threads[u]);
        var i := IndexOf(s.threads[u].progress);
        if s.threads[u].progress.Finished? {
          assert SlotKept(s.slots[i.value], s'.slots[i.value]);
        }
      }
    }
  }

  lemma FillKeeps(s: State, t: nat, i: nat, text: string)
    requires Valid(s) && t < |s.threads| && i < |s.slots| && IndexOf(s.threads[t].progress) == Some(i)
    ensures var s' := Goes(Fill(s, i, text), t, Finished(i)); Valid(s') && Later(s, s')
  {
    assert ThreadOk(s, s.threads[t]);
    OthersOk(s, Goes(Fill(s, i, text), t, Finished(i)), t);
  }

  lemma NewSlotKeeps(s: State, t: nat, text: string)
    requires Valid(s) && t < |s.threads| && s.threads[t].entry !in s.indexes
    ensures var e, i := s.threads[t].entry, |s.slots|;
            var s' := Goes(s.(indexes := s.indexes[e := i], slots := s.slots + [Slot(e, false, None)]), t,
                           Indexed(i, text));
            Valid(s') && Later(s, s')
  {
    var e, i := s.threads[t].entry, |s.slots|;
    OthersOk(s, Goes(s.(indexes := s.indexes[e := i], slots := s.slots + [Slot(e, false, None)]), t, Indexed(i, text)),
             t);
  }

  lemma GoesKeeps(s: State, t: nat, progress: Progress)
    requires Valid(s) && t < |s.threads| && ThreadOk(s, s.threads[t].(progress := progress))
    ensures Valid(Goes(s, t, progress)) && Later(s, Goes(s, t, progress))
  {
    OthersOk(s, Goes(s, t, progress), t);
  }

  lemma MoveKeeps(s: State, t: nat, disk: Option<string>)
    requires Valid(s) && t < |s.threads|
    ensures Valid(StepThread(s, t, disk)) && Later(s, StepThread(s, t, disk))
  {
    var e := s.threads[t].entry;
    assert ThreadOk(s, s.threads[t]);
    match s.threads[t].progress
    case ReadKnown(i, text) => FillKeeps(s, t, i, text);
    case Indexed(i, text) => FillKeeps(s, t, i, text);
    case ReadUnknown(text) =>
      if e in s.indexes {
        GoesKeeps(s, t, Indexed(s.indexes[e], text));
      } else {
        NewSlotKeeps(s, t, text);
      }
    case _ =>
      var progress := StepThread(s, t, disk).threads[t].progress;
      GoesKeeps(s, t, progress);
      assert StepThread(s, t, disk) == Goes(s, t, progress);
  }

  lemma SubFileKeeps(s: State, i: nat, text: string)
    requires Valid(s) && i < |s.slots|
    ensures var s' := s.(slots := s.slots + [Slot(s.slots[i].entry, true, Some(text))]); Valid(s') && Later(s, s')
  {
    var s' := s.(slots := s.slots + [Slot(s.slots[i].entry, true, Some(text))]);
    forall t | 0 <= t < |s.threads|
      ensures ThreadOk(s', s'.threads[t])
    {
      assert ThreadOk(s, s.threads[t]);
    }
  }

  lemma StepKeeps(s: State, c: Choice)
    requires Valid(s)
    ensures Valid(Step(s, c)) && Later(s, Step(s, c))
  {
    match c
    case Move(t, disk) =>
      if t < |s.threads| {
        MoveKeeps(s, t, disk);
      }
    case AddSubFile(i, text) =>
      if i < |s.slots| {
        SubFileKeeps(s, i, text);
      }
  }

  lemma {:induction false} RunKeeps(s: State, choices: seq<Choice>)
    requires Valid(s)
    ensures Valid(Run(s, choices)) && Later(s, Run(s, choices))
    decreases |choices|
  {
    if choices == [] {
    } else {
      StepKeeps(s, choices[0]);
      RunKeeps(Step(s, choices[0]), choices[1..]);
      LaterThenLater(s, Step(s, choices[0]), Run(s, choices));
    }
  }

  lemma LaterThenLater(a: State, b: State, c: State)
    requires Later(a, b) && Later(b, c)
    ensures Later(a, c)
  {
    forall i | 0 <= i < |a.slots|
      ensures SlotKept(a.slots[i], c.slots[i])
    {
      assert SlotKept(a.slots[i], b.slots[i]) && SlotKept(b.slots[i], c.slots[i]);
    }
  }

  /** An entry has at most one slot besides those of sub-files. */
  ghost predicate OneSlotEach(s: State) {
    forall i, j :: 0 <= i < |s.slots| && 0 <= j < |s.slots| && !s.slots[i].isSubFile && !s.slots[j].isSubFile ==>
      s.slots[i].entry == s.slots[j].entry ==> i == j
  }

  /** Threads that have loaded the same entry agree on its index. */
  ghost predicate Agree(s: State) {
    forall t, u ::
      0 <= t < |s.threads| && 0 <= u < |s.threads|
      && s.threads[t].progress.Finished? && s.threads[u].progress.Finished? ==>
      s.threads[t].entry == s.threads[u].entry ==> s.threads[t].progress.index == s.threads[u].progress.index
  }

  /** A thread that is finished has a slot of its own entry, with a content. */
  ghost predicate FinishedWell(s: State, t: Thread) {
    t.progress.Finished? ==>
      var i := t.progress.index;
      i < |s.slots| && s.slots[i].entry == t.entry && !s.slots[i].isSubFile && s.slots[i].content.Some?
  }

  // ----- where contents come from

  /** The thread is about to read the disk. */
  predicate Reads(s: State, t: nat) {
    t < |s.threads| &&
    match s.threads[t].progress
    case Known(i) => !(i < |s.slots| && s.slots[i].content.Some?)
    case Unknown => true
    case _ => false
  }

  /** At the n-th step a thread that loads the entry reads the text. */
  ghost predicate ReadAt(s0: State, choices: seq<Choice>, n: nat, entry: nat, text: string) {
    && n < |choices| && choices[n].Move? && choices[n].disk == Some(text)
    && Reads(Run(s0, choices[..n]), choices[n].thread)
    && Run(s0, choices[..n]).threads[choices[n].thread].entry == entry
  }

  ghost predicate WasRead(s0: State, choices: seq<Choice>, entry: nat, text: string) {
    exists n: nat :: ReadAt(s0, choices, n, entry, text)
  }

  /** At the n-th step a sub-file of a file of the entry comes with the text. */
  ghost predicate AddedAt(s0: State, choices: seq<Choice>, n: nat, entry: nat, text: string) {
    && n < |choices| && choices[n].AddSubFile? && choices[n].text == text
    && var s := Run(s0, choices[..n]);
       choices[n].of < |s.slots| && s.slots[choices[n].of].entry == entry
  }

  ghost predicate WasAdded(s0: State, choices: seq<Choice>, entry: nat, text: string) {
    exists n: nat :: AddedAt(s0, choices, n, entry, text)
  }

  /** The text that a thread carries. */
  function Carries(progress: Progress): Option<string> {
    match progress
    case ReadKnown(_, text) => Some(text)
    case ReadUnknown(text) => Some(text)
    case Indexed(_, text) => Some(text)
    case _ => None
  }

  ghost predicate ThreadRead(s0: State, choices: seq<Choice>, t: Thread) {
    Carries(t.progress).Some? ==> WasRead(s0, choices, t.entry, Carries(t.progress).value)
  }

  /** The content is a text read for the slot's entry, or that of the sub-file. */
  ghost predicate SlotRead(s0: State, choices: seq<Choice>, slot: Slot) {
    slot.content.Some? ==>
      if slot.isSubFile then WasAdded(s0, choices, slot.entry, slot.content.value)
      else WasRead(s0, choices, slot.entry, slot.content.value)
  }

  ghost predicate AllRead(s0: State, choices: seq<Choice>, s: State) {
    && (forall t :: 0 <= t < |s.threads| ==> ThreadRead(s0, choices, s.threads[t]))
    && (forall i :: 0 <= i < |s.slots| ==> SlotRead(s0, choices, s.slots[i]))
  }

  lemma {:induction false} RunSnoc(s: State, choices: seq<Choice>, c: Choice)
    ensures Run(s, choices + [c]) == Step(Run(s, choices), c)
    decreases |choices|
  {
    var all := choices + [c];
    if choices == [] {
      assert all[1..] == [];
    } else {
      assert all[0] == choices[0] && all[1..] == choices[1..] + [c];
      RunSnoc(Step(s, choices[0]), choices[1..], c);
    }
  }

  lemma ReadStays(s0: State, choices: seq<Choice>, c: Choice, entry: nat, text: string)
    ensures WasRead(s0, choices, entry, text) ==> WasRead(s0, choices + [c], entry, text)
    ensures WasAdded(s0, choices, entry, text) ==> WasAdded(s0, choices + [c], entry, text)
  {
    var more := choices + [c];
    if n: nat :| ReadAt(s0, choices, n, entry, text) {
      assert more[..n] == choices[..n] && ReadAt(s0, more, n, entry, text);
    }
    if n: nat :| AddedAt(s0, choices, n, entry, text) {
      assert more[..n] == choices[..n] && AddedAt(s0, more, n, entry, text);
    }
  }

  lemma AllReadStays(s0: State, choices: seq<Choice>, c: Choice, s: State)
    requires AllRead(s0, choices, s)
    ensures AllRead(s0, choices + [c], s)
  {
    forall t | 0 <= t < |s.threads|
      ensures ThreadRead(s0, choices + [c], s.threads[t])
    {
      if Carries(s.threads[t].progress).Some? {
        ReadStays(s0, choices, c, s.threads[t].entry, Carries(s.threads[t].progress).value);
      }
    }
    forall i | 0 <= i < |s.slots|
      ensures SlotRead(s0, choices + [c], s.slots[i])
    {
      if s.slots[i].content.Some? {
        ReadStays(s0, choices, c, s.slots[i].entry, s.slots[i].content.value);
      }
    }
  }

  /** A thread goes on with a text that was read for its entry, or without one. */
  lemma GoesRead(s0: State, choices: seq<Choice>, s: State, t: nat, progress: Progress)
    requires AllRead(s0, choices, s) && t < |s.threads|
    requires ThreadRead(s0, choices, s.threads[t].(progress := progress))
    ensures AllRead(s0, choices, Goes(s, t, progress))
  {
  }

  lemma FillRead(s0: State, choices: seq<Choice>, s: State, t: nat, i: nat)
    requires AllRead(s0, choices, s) && Valid(s) && t < |s.threads| && i < |s.slots|
    requires Carries(s.threads[t].progress).Some? && IndexOf(s.threads[t].progress) == Some(i)
    ensures AllRead(s0, choices, Fill(s, i, Carries(s.threads[t].progress).value))
  {
    assert ThreadOk(s, s.threads[t]) && ThreadRead(s0, choices, s.threads[t]);
  }

  lemma StepReads(s0: State, choices: seq<Choice>, s: State, t: nat, disk: Option<string>)
    requires s == Run(s0, choices) && Valid(s) && t < |s.threads| && AllRead(s0, choices + [Move(t, disk)], s)
    ensures AllRead(s0, choices + [Move(t, disk)], StepThread(s, t, disk))
  {
    var seen, e := choices + [Move(t, disk)], s.threads[t].entry;
    assert ThreadOk(s, s.threads[t]) && ThreadRead(s0, seen, s.threads[t]);
    assert seen[..|choices|] == choices;
    if Reads(s, t) && disk.Some? {
      assert ReadAt(s0, seen, |choices|, e, disk.value);
    }
    match s.threads[t].progress
    case ReadKnown(i, text) => FillsRead(s0, seen, s, t, i, text);
    case Indexed(i, text) => FillsRead(s0, seen, s, t, i, text);
    case ReadUnknown(text) => IndexRead(s0, seen, s, t, text);
    case _ =>
      var progress := StepThread(s, t, disk).threads[t].progress;
      GoesRead(s0, seen, s, t, progress);
      assert StepThread(s, t, disk) == Goes(s, t, progress);
  }

  lemma FillsRead(s0: State, seen: seq<Choice>, s: State, t: nat, i: nat, text: string)
    requires AllRead(s0, seen, s) && Valid(s) && t < |s.threads|
    requires Carries(s.threads[t].progress) == Some(text) && IndexOf(s.threads[t].progress) == Some(i)
    ensures AllRead(s0, seen, if i < |s.slots| then Goes(Fill(s, i, text), t, Finished(i)) else s)
  {
    if i < |s.slots| {
      FillRead(s0, seen, s, t, i);
      GoesRead(s0, seen, Fill(s, i, text), t, Finished(i));
    }
  }

  lemma IndexRead(s0: State, seen: seq<Choice>, s: State, t: nat, text: string)
    requires AllRead(s0, seen, s) && t < |s.threads| && s.threads[t].progress == ReadUnknown(text)
    ensures AllRead(s0, seen, StepThread(s, t, None))
  {
    var e, i := s.threads[t].entry, |s.slots|;
    assert ThreadRead(s0, seen, s.threads[t]);
    if e in s.indexes {
      GoesRead(s0, seen, s, t, Indexed(s.indexes[e], text));
    } else {
      var grown := s.(indexes := s.indexes[e := i], slots := s.slots + [Slot(e, false, None)]);
      assert AllRead(s0, seen, grown);
      GoesRead(s0, seen, grown, t, Indexed(i, text));
    }
  }

  lemma {:induction false} RunReads(s0: State, choices: seq<Choice>)
    requires Valid(s0) && AllRead(s0, [], s0)
    ensures AllRead(s0, choices, Run(s0, choices))
    decreases |choices|
  {
    if choices != [] {
      var before, c := choices[..|choices| - 1], choices[|choices| - 1];
      assert choices == before + [c];
      RunReads(s0, before);
      RunKeeps(s0, before);
      RunSnoc(s0, before, c);
      var s := Run(s0, before);
      AllReadStays(s0, before, c, s);
      match c
      case Move(t, disk) =>
        if t < |s.threads| {
          StepReads(s0, before, s, t, disk);
        }
      case AddSubFile(i, text) =>
        if i < |s.slots| {
          assert choices[..|before|] == before && AddedAt(s0, choices, |before|, s.slots[i].entry, text);
        }
    }
  }

  /** In every interleaving an entry has at most one slot besides those of
      sub-files, all threads that load it come to the same index, that slot
      points back to the entry and has a content. A content is a text that some
      thread read for the entry, or a sub-file's own, and once set it is never
      replaced. */
  lemma LoadersAgree(threads: seq<Thread>, first: seq<Choice>, more: seq<Choice>)
    requires forall t :: 0 <= t < |threads| ==> threads[t].progress == Begin
    ensures var s := Run(State(map[], [], threads), first);
            var s' := Run(s, more);
            && OneSlotEach(s') && Agree(s') && (forall t :: 0 <= t < |s'.threads| ==> FinishedWell(s', s'.threads[t]))
            && forall i :: 0 <= i < |s.slots| && s.slots[i].content.Some? ==>
                 i < |s'.slots| && s'.slots[i].content == s.slots[i].content
    ensures var s0 := State(map[], [], threads);
            forall i :: 0 <= i < |Run(s0, first).slots| ==> SlotRead(s0, first, Run(s0, first).slots[i])
  {
    var s0 := State(map[], [], threads);
    RunKeeps(s0, first);
    RunReads(s0, first);
    var s := Run(s0, first);
    RunKeeps(s, more);
    var s' := Run(s, more);
    forall t | 0 <= t < |s'.threads|
      ensures ThreadOk(s', s'.threads[t]) && FinishedWell(s', s'.threads[t])
    {
      assert ThreadOk(s', s'.threads[t]);
    }
    forall i | 0 <= i < |s.slots| && s.slots[i].content.Some?
      ensures i < |s'.slots| && s'.slots[i].content == s.slots[i].content
    {
      assert SlotKept(s.slots[i], s'.slots[i]);
    }
  }
}
