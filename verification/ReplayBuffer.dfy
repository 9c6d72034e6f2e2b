/** The token source of the parser: it can record what it hands out, so that a
    failed attempt can be replayed. */
module ReplayBuffer {
  import opened Rules

  /** A token with the type that the parser looks transitions up by. */
  datatype Token = Token(startIndex: nat, length: nat, transition: nat) {
    function EndIndex(): nat {
      startIndex + length
    }
  }

  /** The lengths of the tokens are 32-bit numbers. */
  ghost predicate Short(tokens: seq<Token>) {
    forall i :: 0 <= i < |tokens| ==> tokens[i].length < 0x1_0000_0000
  }

  /** What is left of the underlying tokenizer, the recorded tokens, and where
      in the record the reader stands. */
  datatype Buffer = Buffer(rest: seq<Token>, tokens: seq<Token>, nextIndex: nat, isRecording: bool)

  function Fresh(all: seq<Token>): Buffer {
    Buffer(all, [], 0, false)
  }

  function NextOf(b: Buffer): (Buffer, Option<Token>) {
    var fetched := if b.rest == [] then None else Some(b.rest[0]);
    var rest := if b.rest == [] then [] else b.rest[1..];
    if b.tokens == [] then (b.(rest := rest), fetched)
    else if b.nextIndex < |b.tokens| then (b.(nextIndex := b.nextIndex + 1), Some(b.tokens[b.nextIndex]))
    else if b.isRecording then
      (Buffer(rest, if fetched.Some? then b.tokens + [fetched.value] else b.tokens, b.nextIndex + 1, true), fetched)
    else (Buffer(rest, [], 0, false), fetched)
  }

  /** Begins to record, `token` being the last one handed out; the result says
      where to reset to so that `token` comes again. */
  function StartOf(b: Buffer, token: Token): (Buffer, nat)
    requires b.tokens == [] || b.nextIndex > 0
  {
    if b.tokens == [] then (Buffer(b.rest, [token], 1, true), 0)
    else (b.(isRecording := true), b.nextIndex - 1)
  }

  function ResetOf(b: Buffer, tokenIndex: nat): Buffer {
    b.(nextIndex := tokenIndex)
  }

  function StopOf(b: Buffer): Buffer {
    b.(isRecording := false)
  }

  class BacktrackingTokenizer {
    var tokenizer: seq<Token>
    var tokens: seq<Token>
    var nextIndex: nat
    var isRecording: bool

    ghost function State(): Buffer
      reads this
    {
      Buffer(tokenizer, tokens, nextIndex, isRecording)
    }

    constructor (all: seq<Token>)
      ensures State() == Fresh(all)
    {
      tokenizer, tokens, nextIndex, isRecording := all, [], 0, false;
    }

    method Start(token: Token) returns (tokenIndex: nat)
      requires tokens == [] || nextIndex > 0
      modifies this
      ensures (State(), tokenIndex) == StartOf(old(State()), token)
    {
      isRecording := true;
      if tokens == [] {
        tokens := [token];
        nextIndex := 1;
        tokenIndex := 0;
      } else {
        tokenIndex := nextIndex - 1;
      }
    }

    method Reset(tokenIndex: nat)
      modifies this
      ensures State() == ResetOf(old(State()), tokenIndex)
    {
      nextIndex := tokenIndex;
    }

    method Stop()
      modifies this
      ensures State() == StopOf(old(State()))
    {
      isRecording := false;
    }

    /** Goes to right after the last recorded token at the place of a leaf;
        false stands for the panic when there is none. */
    method ResetToLastLeaf(startIndex: nat, length: nat) returns (found: bool)
      modifies this
      ensures found <==> exists k :: 0 <= k < |tokens| && IsAt(tokens[k], startIndex, length)
      ensures tokens == old(tokens) && tokenizer == old(tokenizer) && isRecording == old(isRecording)
      ensures found ==> 0 < nextIndex <= |tokens| && IsAt(tokens[nextIndex - 1], startIndex, length)
                        && forall k :: nextIndex <= k < |tokens| ==> !IsAt(tokens[k], startIndex, length)
      ensures !found ==> nextIndex == old(nextIndex)
    {
      var i := |tokens|;
      while i > 0
        invariant State() == old(State()) && 0 <= i <= |tokens|
        invariant forall k :: i <= k < |tokens| ==> !IsAt(tokens[k], startIndex, length)
      {
        i := i - 1;
        if tokens[i].startIndex == startIndex && tokens[i].length == length {
          nextIndex := i + 1;
          assert IsAt(tokens[i], startIndex, length);
          return true;
        }
      }
      return false;
    }

    method FetchNext() returns (token: Option<Token>)
      modifies this`tokenizer
      ensures token == if old(tokenizer) == [] then None else Some(old(tokenizer)[0])
      ensures tokenizer == if old(tokenizer) == [] then [] else old(tokenizer)[1..]
    {
      if tokenizer == [] {
        return None;
      }
      token := Some(tokenizer[0]);
      tokenizer := tokenizer[1..];
    }

    method Next() returns (token: Option<Token>)
      modifies this
      ensures (State(), token) == NextOf(old(State()))
    {
      if tokens != [] {
        if nextIndex >= |tokens| {
          token := FetchNext();
          if isRecording {
            nextIndex := nextIndex + 1;
            if token.Some? {
              tokens := tokens + [token.value];
            }
          } else {
            nextIndex := 0;
            tokens := [];
          }
        } else {
          nextIndex := nextIndex + 1;
          token := Some(tokens[nextIndex - 1]);
        }
      } else {
        token := FetchNext();
      }
    }
  }

  predicate IsAt(token: Token, startIndex: nat, length: nat) {
    token.startIndex == startIndex && token.length == length
  }

  // ----- the buffer is a cursor in the whole token list

  /** Where the recorded tokens begin in the whole list. */
  function Base(all: seq<Token>, b: Buffer): int {
    |all| - |b.rest| - |b.tokens|
  }

  /** The record is the piece of the list right before what is left of it. The
      index runs past the record only when the list is exhausted. */
  ghost predicate Consistent(all: seq<Token>, b: Buffer) {
    && 0 <= Base(all, b)
    && b.rest == all[|all| - |b.rest|..]
    && b.tokens == all[Base(all, b)..|all| - |b.rest|]
    && (b.nextIndex <= |b.tokens| || b.rest == [])
    && (b.tokens == [] ==> b.nextIndex == 0 && !b.isRecording)
  }

  function Cursor(all: seq<Token>, b: Buffer): int {
    Base(all, b) + if b.nextIndex <= |b.tokens| then b.nextIndex else |b.tokens|
  }

  /** What the last call of `next` handed out can be marked. */
  ghost predicate CanMark(all: seq<Token>, b: Buffer, token: Token) {
    && 0 < Cursor(all, b) && token == all[Cursor(all, b) - 1]
    && (b.tokens != [] ==> 0 < b.nextIndex <= |b.tokens|)
  }

  /** A token that is in the record already. */
  lemma NextInRecord(all: seq<Token>, b: Buffer)
    requires Consistent(all, b) && b.nextIndex < |b.tokens|
    ensures Consistent(all, NextOf(b).0) && Cursor(all, NextOf(b).0) == Cursor(all, b) + 1 <= |all|
    ensures NextOf(b).1 == Some(all[Cursor(all, b)])
  {
    assert b.tokens[b.nextIndex] == all[Base(all, b) + b.nextIndex];
  }

  lemma RestBegins(all: seq<Token>, rest: seq<Token>)
    requires rest != [] && |rest| <= |all| && rest == all[|all| - |rest|..]
    ensures rest[0] == all[|all| - |rest|] && rest[1..] == all[|all| - |rest| + 1..]
  {
  }

  /** A token from behind the record, which it becomes part of. */
  lemma NextRecorded(all: seq<Token>, b: Buffer)
    requires Consistent(all, b) && b.nextIndex >= |b.tokens| && b.isRecording && b.rest != []
    ensures Consistent(all, NextOf(b).0) && Cursor(all, NextOf(b).0) == Cursor(all, b) + 1 <= |all|
    ensures NextOf(b).1 == Some(all[Cursor(all, b)])
  {
    RestBegins(all, b.rest);
    AppendNext(all, Base(all, b), |all| - |b.rest|);
  }

  /** A token from behind the record, which is given up. */
  lemma NextUnrecorded(all: seq<Token>, b: Buffer)
    requires Consistent(all, b) && b.nextIndex >= |b.tokens| && !b.isRecording && b.rest != []
    ensures Consistent(all, NextOf(b).0) && Cursor(all, NextOf(b).0) == Cursor(all, b) + 1 <= |all|
    ensures NextOf(b).1 == Some(all[Cursor(all, b)])
  {
    RestBegins(all, b.rest);
    var b' := NextOf(b).0;
    assert b' == Buffer(b.rest[1..], [], 0, false);
    assert b'.tokens == all[Base(all, b')..|all| - |b'.rest|];
  }

  lemma NothingNext(all: seq<Token>, b: Buffer)
    requires Consistent(all, b) && b.nextIndex >= |b.tokens| && b.rest == []
    ensures Consistent(all, NextOf(b).0) && NextOf(b).1 == None && Cursor(all, b) == Cursor(all, NextOf(b).0) == |all|
  {
  }

  lemma NextAtCursor(all: seq<Token>, b: Buffer)
    requires Consistent(all, b)
    ensures Consistent(all, NextOf(b).0)
    ensures 0 <= Cursor(all, b) <= |all|
    ensures if Cursor(all, b) < |all|
            then NextOf(b).1 == Some(all[Cursor(all, b)]) && Cursor(all, NextOf(b).0) == Cursor(all, b) + 1
                 && CanMark(all, NextOf(b).0, NextOf(b).1.value)
            else NextOf(b).1 == None && Cursor(all, NextOf(b).0) == |all|
  {
    if b.nextIndex < |b.tokens| {
      NextInRecord(all, b);
    } else if b.rest == [] {
      NothingNext(all, b);
    } else if b.isRecording {
      NextRecorded(all, b);
    } else {
      NextUnrecorded(all, b);
    }
  }

  /** While recording goes on, indexes into the record keep their meaning. */
  lemma NextKeepsRecord(all: seq<Token>, b: Buffer)
    requires Consistent(all, b) && b.isRecording
    ensures NextOf(b).0.isRecording && Base(all, NextOf(b).0) == Base(all, b) && b.tokens <= NextOf(b).0.tokens
  {
  }

  lemma AppendNext(all: seq<Token>, i: nat, j: nat)
    requires i <= j < |all|
    ensures all[i..j] + [all[j]] == all[i..j + 1]
  {
  }

  lemma StartAtCursor(all: seq<Token>, b: Buffer, token: Token)
    requires Consistent(all, b) && CanMark(all, b, token)
    ensures var (b', mark) := StartOf(b, token);
            Consistent(all, b') && b'.isRecording && mark < |b'.tokens|
            && Cursor(all, b') == Cursor(all, b) && Base(all, b') + mark == Cursor(all, b) - 1
            && (b.isRecording ==> Base(all, b') == Base(all, b) && b'.tokens == b.tokens)
  {
    if b.tokens == [] {
      assert [token] == all[Cursor(all, b) - 1..Cursor(all, b)];
    }
  }

  lemma ResetToMark(all: seq<Token>, b: Buffer, mark: nat)
    requires Consistent(all, b) && mark < |b.tokens|
    ensures Consistent(all, ResetOf(b, mark)) && Cursor(all, ResetOf(b, mark)) == Base(all, b) + mark
    ensures Base(all, ResetOf(b, mark)) == Base(all, b)
  {
  }

  // ----- whole runs

  datatype Op = ReadNext | Mark | StopRecording | GoBack(k: nat)

  /** The reference: a position in the token list and the positions marked since
      recording was last stopped. */
  datatype Reference = Reference(pos: nat, marks: seq<nat>, justRead: bool)

  /** A mark may be set right after a token was read; one goes back to marks of
      the recording that is still going on. */
  predicate Legal(s: Reference, op: Op) {
    match op
    case ReadNext => true
    case Mark => s.justRead && s.pos > 0
    case StopRecording => true
    case GoBack(k) => k < |s.marks|
  }

  function ReferenceStep(all: seq<Token>, s: Reference, op: Op): (Reference, Option<Token>)
    requires Legal(s, op)
  {
    match op
    case ReadNext =>
      if s.pos < |all| then (Reference(s.pos + 1, s.marks, true), Some(all[s.pos])) else (s.(justRead := false), None)
    case Mark => (s.(marks := s.marks + [s.pos - 1]), None)
    case StopRecording => (s.(marks := []), None)
    case GoBack(k) => (s.(pos := s.marks[k], justRead := false), None)
  }

  /** The buffer with the indexes its user has saved, and the last token. */
  datatype Session = Session(buffer: Buffer, marks: seq<nat>, last: Option<Token>)

  ghost predicate Simulates(all: seq<Token>, c: Session, s: Reference) {
    && Consistent(all, c.buffer) && Cursor(all, c.buffer) == s.pos
    && |c.marks| == |s.marks|
    && (c.marks != [] ==> c.buffer.isRecording)
    && (forall k :: 0 <= k < |c.marks| ==>
          c.marks[k] < |c.buffer.tokens| && Base(all, c.buffer) + c.marks[k] == s.marks[k])
    && (s.justRead ==> c.last.Some? && CanMark(all, c.buffer, c.last.value))
  }

  function SessionStep(c: Session, op: Op): (Session, Option<Token>)
    requires op.Mark? ==> c.last.Some? && (c.buffer.tokens == [] || c.buffer.nextIndex > 0)
    requires op.GoBack? ==> op.k < |c.marks|
  {
    match op
    case ReadNext =>
      var (buffer, token) := NextOf(c.buffer);
      (Session(buffer, c.marks, token), token)
    case Mark =>
      var (buffer, mark) := StartOf(c.buffer, c.last.value);
      (Session(buffer, c.marks + [mark], c.last), None)
    case StopRecording => (c.(buffer := StopOf(c.buffer), marks := []), None)
    case GoBack(k) => (c.(buffer := ResetOf(c.buffer, c.marks[k])), None)
  }

  lemma ReadSimulates(all: seq<Token>, c: Session, s: Reference)
    requires Simulates(all, c, s)
    ensures SessionStep(c, ReadNext).1 == ReferenceStep(all, s, ReadNext).1
    ensures Simulates(all, SessionStep(c, ReadNext).0, ReferenceStep(all, s, ReadNext).0)
  {
    NextAtCursor(all, c.buffer);
    if c.buffer.isRecording {
      NextKeepsRecord(all, c.buffer);
    }
  }

  lemma MarkSimulates(all: seq<Token>, c: Session, s: Reference)
    requires Simulates(all, c, s) && Legal(s, Mark)
    ensures Simulates(all, SessionStep(c, Mark).0, ReferenceStep(all, s, Mark).0)
  {
    StartAtCursor(all, c.buffer, c.last.value);
  }

  lemma StepSimulates(all: seq<Token>, c: Session, s: Reference, op: Op)
    requires Simulates(all, c, s) && Legal(s, op)
    ensures SessionStep(c, op).1 == ReferenceStep(all, s, op).1
    ensures Simulates(all, SessionStep(c, op).0, ReferenceStep(all, s, op).0)
  {
    match op
    case ReadNext => ReadSimulates(all, c, s);
    case Mark => MarkSimulates(all, c, s);
    case StopRecording =>
    case GoBack(k) => ResetToMark(all, c.buffer, c.marks[k]);
  }

  /** What the calls of a run hand out, by the reference; `None` at the end if a
      call is not legal. */
  function ReferenceRun(all: seq<Token>, s: Reference, ops: seq<Op>): Option<seq<Option<Token>>>
    decreases |ops|
  {
    if ops == [] then Some([])
    else if !Legal(s, ops[0]) then None
    else
      var (s', token) := ReferenceStep(all, s, ops[0]);
      match ReferenceRun(all, s', ops[1..])
      case None => None
      case Some(tokens) => Some([token] + tokens)
  }

  function SessionRun(c: Session, ops: seq<Op>): seq<Option<Token>>
    decreases |ops|
  {
    if ops == [] then []
    else if (ops[0].Mark? && (c.last.None? || (c.buffer.tokens != [] && c.buffer.nextIndex == 0)))
            || (ops[0].GoBack? && ops[0].k >= |c.marks|) then []
    else
      var (c', token) := SessionStep(c, ops[0]);
      [token] + SessionRun(c', ops[1..])
  }

  lemma {:induction false} RunSimulates(all: seq<Token>, c: Session, s: Reference, ops: seq<Op>)
    requires Simulates(all, c, s) && ReferenceRun(all, s, ops).Some?
    ensures Some(SessionRun(c, ops)) == ReferenceRun(all, s, ops)
    decreases |ops|
  {
    if ops != [] {
      StepSimulates(all, c, s, ops[0]);
      RunSimulates(all, SessionStep(c, ops[0]).0, ReferenceStep(all, s, ops[0]).0, ops[1..]);
    }
  }

  /** The replay buffer refines a plain cursor: every legal run of reading,
      marking, going back and stopping hands out the same tokens. */
  lemma BufferIsCursor(all: seq<Token>, ops: seq<Op>)
    requires ReferenceRun(all, Reference(0, [], false), ops).Some?
    ensures Some(SessionRun(Session(Fresh(all), [], None), ops)) == ReferenceRun(all, Reference(0, [], false), ops)
  {
    RunSimulates(all, Session(Fresh(all), [], None), Reference(0, [], false), ops);
  }
}
