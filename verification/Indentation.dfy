/** Indentation in the Python tokenizer: a stack of the levels that lines are
    indented to, and the tokens that tell when it changes. What lies at the
    tokenizer's place is taken as given; see section 2.1.8 of The Python
    Language Reference 3.12. */
module Indentation {
  import opened Rules

  datatype TokenType = Indent | Dedent | ErrorDedent | Newline | Endmarker | OtherToken

  /** What comes after the whitespace. A word that breaks off brackets knows its
      column if only whitespace is before it on its line. */
  datatype What =
    | EndOfFile
    | LineEnd
    | Opening
    | Closing
    | BreakOff(column: Option<nat>)
    | FStringBegins
    | Text

  /** A part of a format string, after which `depth` of them are still open; or
      whitespace of some width and what comes after it. */
  datatype Ahead = InFString(depth: nat) | Ahead(indentation: nat, what: What)

  datatype State = State(levels: seq<nat>, parentheses: nat, fStrings: nat, afterNewline: bool, ended: bool)

  function Fresh(): State {
    State([0], 0, 0, true, false)
  }

  /** From the outermost level, 0, each is deeper than the one before. */
  predicate LevelsOk(levels: seq<nat>) {
    levels != [] && levels[0] == 0 && forall i, j :: 0 <= i < j < |levels| ==> levels[i] < levels[j]
  }

  function Top(levels: seq<nat>): nat
    requires levels != []
  {
    levels[|levels| - 1]
  }

  /** The levels and the token when a line is indented less than the last one. */
  function DedentOf(levels: seq<nat>, k: nat): (seq<nat>, Option<TokenType>)
    requires LevelsOk(levels)
  {
    if k >= Top(levels) then (levels, None)
    else if k > levels[|levels| - 2] then (levels[|levels| - 1 := k], Some(ErrorDedent))
    else (levels[..|levels| - 1], Some(Dedent))
  }

  function BreakOf(s: State, column: Option<nat>): (State, Option<TokenType>)
    requires LevelsOk(s.levels)
  {
    if s.parentheses == 0 && s.fStrings == 0 then (s, None)
    else
      var closed := s.(parentheses := 0, fStrings := 0);
      if column.None? then (closed, None)
      else
        var (levels, token) := DedentOf(s.levels, column.value);
        (closed.(levels := levels), token)
  }

  /** The change of indentation at the beginning of a line. */
  function AtLineStart(s: State, k: nat, what: What): (State, Option<TokenType>)
    requires LevelsOk(s.levels)
  {
    if !s.afterNewline || what.EndOfFile? || what.LineEnd? || s.parentheses != 0 || s.fStrings != 0
    then (s.(afterNewline := false), None)
    else if k > Top(s.levels) then (s.(levels := s.levels + [k], afterNewline := false), Some(Indent))
    else
      var (levels, token) := DedentOf(s.levels, k);
      if token.Some? then (s.(levels := levels), token) else (s.(afterNewline := false), None)
  }

  /** What comes after the indentation has been dealt with; no token if a line
      end is passed over. */
  function InLine(s: State, what: What): (State, Option<TokenType>)
    requires LevelsOk(s.levels)
  {
    match what
    case EndOfFile =>
      if |s.levels| != 1 then (s.(levels := s.levels[..|s.levels| - 1]), Some(Dedent))
      else (s.(ended := true), Some(Endmarker))
    case LineEnd =>
      if s.parentheses == 0 && s.fStrings == 0 then (s.(afterNewline := true), Some(Newline)) else (s, None)
    case Opening => (if s.fStrings == 0 then s.(parentheses := s.parentheses + 1) else s, Some(OtherToken))
    case Closing =>
      (if s.fStrings == 0 && s.parentheses > 0 then s.(parentheses := s.parentheses - 1) else s, Some(OtherToken))
    case BreakOff(column) =>
      var (broken, token) := BreakOf(s, column);
      (broken, if token.Some? then token else Some(OtherToken))
    case FStringBegins => (s.(fStrings := s.fStrings + 1), Some(OtherToken))
    case Text => (s, Some(OtherToken))
  }

  function NextOf(s: State, ahead: Ahead): (State, Option<TokenType>)
    requires LevelsOk(s.levels)
  {
    if s.ended then (s, None)
    else
      match ahead
      case InFString(depth) =>
        if depth <= s.fStrings && s.fStrings > 0 then (s.(fStrings := depth), Some(OtherToken)) else (s, None)
      case Ahead(k, what) =>
        var (started, token) := AtLineStart(s, k, what);
        if token.Some? then (started, token) else InLine(started, what)
  }

  class Tokenizer {
    var indentStack: seq<nat>
    var parenthesesLevel: nat
    var fStringStack: nat
    var previousTokenWasNewline: bool
    var ended: bool

    ghost function Snapshot(): State
      reads this
    {
      State(indentStack, parenthesesLevel, fStringStack, previousTokenWasNewline, ended)
    }

    constructor ()
      ensures Snapshot() == Fresh()
    {
      indentStack, parenthesesLevel, fStringStack, previousTokenWasNewline, ended := [0], 0, 0, true, false;
    }

    method DedentIfNecessary(k: nat) returns (token: Option<TokenType>)
      requires LevelsOk(indentStack)
      modifies this`indentStack
      ensures (indentStack, token) == DedentOf(old(indentStack), k)
    {
      var last := |indentStack| - 1;
      if k < indentStack[last] {
        if k > indentStack[last - 1] {
          indentStack := indentStack[last := k];
          return Some(ErrorDedent);
        }
        indentStack := indentStack[..last];
        return Some(Dedent);
      }
      return None;
    }

    method EncounteredBreakToken(column: Option<nat>) returns (token: Option<TokenType>)
      requires LevelsOk(indentStack)
      modifies this
      ensures (Snapshot(), token) == BreakOf(old(Snapshot()), column)
    {
      token := None;
      if parenthesesLevel != 0 || fStringStack != 0 {
        parenthesesLevel, fStringStack := 0, 0;
        if column.Some? {
          token := DedentIfNecessary(column.value);
        }
      }
    }

    method NextToken(ahead: Ahead) returns (token: Option<TokenType>)
      requires LevelsOk(indentStack)
      modifies this
      ensures (Snapshot(), token) == NextOf(old(Snapshot()), ahead)
    {
      if ended {
        return None;
      }
      match ahead {
        case InFString(depth) =>
          if depth <= fStringStack && fStringStack > 0 {
            fStringStack := depth;
            return Some(OtherToken);
          }
          return None;
        case Ahead(indentation, what) =>
          if previousTokenWasNewline {
            if what != EndOfFile && what != LineEnd && parenthesesLevel == 0 && fStringStack == 0 {
              if indentation > indentStack[|indentStack| - 1] {
                indentStack := indentStack + [indentation];
                previousTokenWasNewline := false;
                return Some(Indent);
              }
              token := DedentIfNecessary(indentation);
              if token.Some? {
                return;
              }
            }
            previousTokenWasNewline := false;
          }
          token := NextInLine(what);
      }
    }

    method NextInLine(what: What) returns (token: Option<TokenType>)
      requires LevelsOk(indentStack)
      modifies this
      ensures (Snapshot(), token) == InLine(old(Snapshot()), what)
    {
      match what {
        case EndOfFile =>
          if |indentStack| != 1 {
            indentStack := indentStack[..|indentStack| - 1];
            return Some(Dedent);
          }
          ended := true;
          return Some(Endmarker);
        case LineEnd =>
          if parenthesesLevel == 0 && fStringStack == 0 {
            previousTokenWasNewline := true;
            return Some(Newline);
          }
          return None;
        case Opening =>
          if fStringStack == 0 {
            parenthesesLevel := parenthesesLevel + 1;
          }
        case Closing =>
          if fStringStack == 0 && parenthesesLevel > 0 {
            parenthesesLevel := parenthesesLevel - 1;
          }
        case BreakOff(column) =>
          token := EncounteredBreakToken(column);
          if token.Some? {
            return;
          }
        case FStringBegins =>
          fStringStack := fStringStack + 1;
        case Text =>
      }
      return Some(OtherToken);
    }
  }

  // ----- whole runs

  function Run(s: State, aheads: seq<Ahead>): (State, seq<TokenType>)
    requires LevelsOk(s.levels)
    decreases |aheads|
  {
    if aheads == [] then (s, [])
    else
      NextKeepsLevels(s, aheads[0]);
      var (s1, token) := NextOf(s, aheads[0]);
      var (s2, tokens) := Run(s1, aheads[1..]);
      (s2, (if token.Some? then [token.value] else []) + tokens)
  }

  function Balance(tokens: seq<TokenType>): int {
    if tokens == [] then 0 else Weight(tokens[0]) + Balance(tokens[1..])
  }

  function Weight(token: TokenType): int {
    if token == Indent then 1 else if token == Dedent then -1 else 0
  }

  lemma DedentKeepsLevels(levels: seq<nat>, k: nat)
    requires LevelsOk(levels)
    ensures var (levels', token) := DedentOf(levels, k);
            LevelsOk(levels') && |levels'| - |levels| == (if token.Some? then Weight(token.value) else 0)
            && token != Some(Endmarker) && token != Some(Indent)
  {
  }

  /** A level change, and what it does to the balance. */
  ghost predicate Shifted(s: State, s': State, token: Option<TokenType>) {
    && LevelsOk(s'.levels)
    && |s'.levels| - |s.levels| == (if token.Some? then Weight(token.value) else 0)
    && (token == Some(Endmarker) ==> |s'.levels| == 1)
    && (s'.ended ==> s.ended || token == Some(Endmarker))
  }

  lemma StartKeepsLevels(s: State, k: nat, what: What)
    requires LevelsOk(s.levels)
    ensures var (s', token) := AtLineStart(s, k, what); Shifted(s, s', token)
  {
    DedentKeepsLevels(s.levels, k);
  }

  lemma InLineKeepsLevels(s: State, what: What)
    requires LevelsOk(s.levels)
    ensures var (s', token) := InLine(s, what); Shifted(s, s', token)
  {
    if what.BreakOff? && what.column.Some? {
      DedentKeepsLevels(s.levels, what.column.value);
    }
  }

  lemma NextKeepsLevels(s: State, ahead: Ahead)
    requires LevelsOk(s.levels)
    ensures var (s', token) := NextOf(s, ahead); Shifted(s, s', token)
  {
    if ahead.Ahead? {
      StartKeepsLevels(s, ahead.indentation, ahead.what);
      InLineKeepsLevels(AtLineStart(s, ahead.indentation, ahead.what).0, ahead.what);
    }
  }

  lemma {:induction false} RunKeepsLevels(s: State, aheads: seq<Ahead>)
    requires LevelsOk(s.levels)
    ensures var (s', tokens) := Run(s, aheads);
            LevelsOk(s'.levels) && |s'.levels| - |s.levels| == Balance(tokens)
            && (s'.ended && !s.ended ==> |s'.levels| == 1)
            && (s.ended ==> s' == s && tokens == [])
    decreases |aheads|
  {
    if aheads != [] {
      NextKeepsLevels(s, aheads[0]);
      var (s1, token) := NextOf(s, aheads[0]);
      RunKeepsLevels(s1, aheads[1..]);
      var (s2, rest) := Run(s1, aheads[1..]);
      var (_, tokens) := Run(s, aheads);
      if token.Some? {
        assert tokens == [token.value] + rest && tokens[1..] == rest;
      } else {
        assert tokens == [] + rest == rest;
      }
    }
  }

  /** On every run the levels begin with 0 and strictly increase, indents are one
      fewer than the levels ahead of dedents, and at the end they are even. */
  lemma IndentsAndDedentsBalance(aheads: seq<Ahead>)
    ensures var (s, tokens) := Run(Fresh(), aheads);
            LevelsOk(s.levels) && Balance(tokens) == |s.levels| - 1 && (s.ended ==> Balance(tokens) == 0)
  {
    RunKeepsLevels(Fresh(), aheads);
  }

  // ----- one line

  /** The levels up to `k`. */
  function Kept(levels: seq<nat>, k: nat): nat {
    if levels == [] then 0 else if Top(levels) <= k then |levels| else Kept(levels[..|levels| - 1], k)
  }

  lemma {:induction false} KeptExactly(levels: seq<nat>, k: nat)
    requires LevelsOk(levels)
    ensures 1 <= Kept(levels, k) <= |levels|
    ensures forall i :: 0 <= i < |levels| ==> (levels[i] <= k <==> i < Kept(levels, k))
  {
    if Top(levels) > k {
      assert |levels| > 1;
      KeptExactly(levels[..|levels| - 1], k);
    }
  }

  function Dedents(n: nat): seq<TokenType> {
    if n == 0 then [] else [Dedent] + Dedents(n - 1)
  }

  /** The levels after a line at `k`, and the tokens that lead there: every level
      above `k` ends with a dedent, except that the last of them becomes `k`, with
      an error, if `k` is no level; a greater `k` is a new level. */
  function LineLevels(levels: seq<nat>, k: nat): (seq<nat>, seq<TokenType>)
    requires LevelsOk(levels)
  {
    KeptExactly(levels, k);
    var h := Kept(levels, k);
    if k > Top(levels) then (levels + [k], [Indent])
    else if k in levels then (levels[..h], Dedents(|levels| - h))
    else (levels[..h] + [k], Dedents(|levels| - h - 1) + [ErrorDedent])
  }

  /** The tokenizer stays at the line while only the levels change. */
  function Repeat(ahead: Ahead, n: nat): seq<Ahead> {
    if n == 0 then [] else [ahead] + Repeat(ahead, n - 1)
  }

  lemma KeptPops(levels: seq<nat>, k: nat)
    requires LevelsOk(levels) && k < Top(levels)
    ensures |levels| > 1 && Kept(levels, k) == Kept(levels[..|levels| - 1], k) <= |levels| - 1
  {
    KeptExactly(levels[..|levels| - 1], k);
  }

  lemma InShorter(levels: seq<nat>, k: nat)
    requires LevelsOk(levels) && k < Top(levels)
    ensures k in levels <==> k in levels[..|levels| - 1]
  {
    assert levels == levels[..|levels| - 1] + [Top(levels)];
  }

  /** A level above `k` ends. */
  lemma LinePops(levels: seq<nat>, k: nat)
    requires LevelsOk(levels) && k < Top(levels) && DedentOf(levels, k).1 == Some(Dedent)
    ensures var shorter := levels[..|levels| - 1];
            LevelsOk(shorter)
            && LineLevels(levels, k) == (LineLevels(shorter, k).0, [Dedent] + LineLevels(shorter, k).1)
  {
    KeptExactly(levels, k);
    KeptPops(levels, k);
    InShorter(levels, k);
    var n, h, shorter := |levels|, Kept(levels, k), levels[..|levels| - 1];
    KeptExactly(shorter, k);
    assert shorter[..h] == levels[..h] && k <= Top(shorter);
    if k in levels {
      assert Dedents(n - h) == [Dedent] + Dedents(n - 1 - h);
    } else {
      assert Dedents(n - h - 1) == [Dedent] + Dedents(n - 1 - h - 1);
      JoinTokens(Dedents(n - 1 - h - 1), ErrorDedent);
    }
  }

  /** The last level above `k` becomes `k`. */
  lemma LineErrs(levels: seq<nat>, k: nat)
    requires LevelsOk(levels) && k < Top(levels) && DedentOf(levels, k).1 == Some(ErrorDedent)
    ensures var changed := levels[|levels| - 1 := k];
            LevelsOk(changed) && LineLevels(levels, k) == (changed, [ErrorDedent])
            && LineLevels(changed, k) == (changed, [])
  {
    KeptExactly(levels, k);
    KeptPops(levels, k);
    InShorter(levels, k);
    var n, h, changed := |levels|, Kept(levels, k), levels[|levels| - 1 := k];
    assert h == n - 1 && changed == levels[..h] + [k];
    assert forall i :: 0 <= i < n - 1 ==> levels[i] < k;
    assert k !in levels && Dedents(0) + [ErrorDedent] == [ErrorDedent];
    assert Top(changed) == k && changed[n - 1] == k && Kept(changed, k) == n && changed[..n] == changed;
  }

  /** One step on the way to `k`. */
  lemma LineDedents(levels: seq<nat>, k: nat)
    requires LevelsOk(levels) && k < Top(levels)
    ensures var (levels', token) := DedentOf(levels, k);
            && LevelsOk(levels') && token.Some?
            && LineLevels(levels, k) == (LineLevels(levels', k).0, [token.value] + LineLevels(levels', k).1)
  {
    if DedentOf(levels, k).1 == Some(Dedent) {
      LinePops(levels, k);
    } else {
      LineErrs(levels, k);
      assert [ErrorDedent] + [] == [ErrorDedent];
    }
  }

  lemma JoinTokens(a: seq<TokenType>, t: TokenType)
    ensures [Dedent] + a + [t] == [Dedent] + (a + [t])
  {
  }

  lemma RunFirst(s: State, ahead: Ahead, n: nat, s1: State, token: TokenType)
    requires LevelsOk(s.levels) && NextOf(s, ahead) == (s1, Some(token)) && LevelsOk(s1.levels)
    ensures Run(s, Repeat(ahead, n + 1)) == (Run(s1, Repeat(ahead, n)).0, [token] + Run(s1, Repeat(ahead, n)).1)
  {
    var aheads := Repeat(ahead, n + 1);
    assert aheads[0] == ahead && aheads[1..] == Repeat(ahead, n);
  }

  /** The levels are as they should be, and the next call is for what is in the line. */
  ghost predicate Settled(s: State, s': State, levels: seq<nat>, k: nat, what: What) {
    && s'.(afterNewline := false) == s.(levels := levels, afterNewline := false)
    && LevelsOk(s'.levels) && AtLineStart(s', k, what) == (s'.(afterNewline := false), None)
  }

  lemma LineStep(s: State, k: nat, what: What)
    requires LevelsOk(s.levels) && s.afterNewline && s.parentheses == 0 && s.fStrings == 0 && !s.ended
    requires !what.EndOfFile? && !what.LineEnd? && k < Top(s.levels)
    ensures var (s1, token) := AtLineStart(s, k, what);
            && token.Some? && LevelsOk(s1.levels) && NextOf(s, Ahead(k, what)) == (s1, token)
               && s1 == s.(levels := s1.levels)
            && LineLevels(s.levels, k) == (LineLevels(s1.levels, k).0, [token.value] + LineLevels(s1.levels, k).1)
            && k <= Top(s1.levels) && |s1.levels| <= |s.levels| && (|s1.levels| == |s.levels| ==> k == Top(s1.levels))
  {
    LineDedents(s.levels, k);
  }

  lemma LineStays(s: State, k: nat, what: What)
    requires LevelsOk(s.levels) && s.afterNewline && k == Top(s.levels)
    ensures LineLevels(s.levels, k) == (s.levels, []) && Settled(s, s, s.levels, k, what)
  {
    KeptExactly(s.levels, k);
    assert s.levels[|s.levels| - 1] == k && s.levels[..|s.levels|] == s.levels;
  }

  /** Calling the tokenizer at a line gives exactly the tokens that the line's
      indentation demands, one by one. */
  ghost predicate LineDone(s: State, k: nat, what: What)
    requires LevelsOk(s.levels)
  {
    var (levels, tokens) := LineLevels(s.levels, k);
    var (s', got) := Run(s, Repeat(Ahead(k, what), |tokens|));
    got == tokens && Settled(s, s', levels, k, what)
  }

  lemma LineChained(s: State, k: nat, what: What, s1: State, token: TokenType)
    requires LevelsOk(s.levels) && LevelsOk(s1.levels) && LineDone(s1, k, what) && s1 == s.(levels := s1.levels)
    requires NextOf(s, Ahead(k, what)) == (s1, Some(token))
    requires LineLevels(s.levels, k) == (LineLevels(s1.levels, k).0, [token] + LineLevels(s1.levels, k).1)
    ensures LineDone(s, k, what)
  {
    RunFirst(s, Ahead(k, what), |LineLevels(s1.levels, k).1|, s1, token);
  }

  lemma LineGrows(s: State, k: nat, what: What)
    requires LevelsOk(s.levels) && s.afterNewline && s.parentheses == 0 && s.fStrings == 0 && !s.ended
    requires !what.EndOfFile? && !what.LineEnd? && k > Top(s.levels)
    ensures LineDone(s, k, what)
  {
    var s1 := AtLineStart(s, k, what).0;
    RunFirst(s, Ahead(k, what), 0, s1, Indent);
    assert Run(s1, Repeat(Ahead(k, what), 0)) == (s1, []);
    assert [Indent] + [] == [Indent];
  }

  /** Outside brackets and format strings, a line makes exactly the levels that its
      indentation demands, and the next call is then for what is in the line. */
  lemma {:induction false} LineExactly(s: State, k: nat, what: What)
    requires LevelsOk(s.levels) && s.afterNewline && s.parentheses == 0 && s.fStrings == 0 && !s.ended
    requires !what.EndOfFile? && !what.LineEnd?
    ensures LineDone(s, k, what)
    decreases |s.levels|, if k < Top(s.levels) then 1 else 0
  {
    if k < Top(s.levels) {
      LineStep(s, k, what);
      var (s1, token) := AtLineStart(s, k, what);
      LineExactly(s1, k, what);
      LineChained(s, k, what, s1, token.value);
    } else if k > Top(s.levels) {
      LineGrows(s, k, what);
    } else {
      LineStays(s, k, what);
    }
  }

  // ----- brackets and format strings

  /** One call of the tokenizer: what was ahead, and the token, if there was one. */
  datatype Call = Call(ahead: Ahead, token: Option<TokenType>)

  function Trace(s: State, aheads: seq<Ahead>): (trace: seq<Call>)
    requires LevelsOk(s.levels)
    ensures |trace| == |aheads|
    decreases |aheads|
  {
    if aheads == [] then []
    else
      NextKeepsLevels(s, aheads[0]);
      var (s1, token) := NextOf(s, aheads[0]);
      [Call(aheads[0], token)] + Trace(s1, aheads[1..])
  }

  function TokensOf(trace: seq<Call>): seq<TokenType> {
    if trace == [] then []
    else (if trace[0].token.Some? then [trace[0].token.value] else []) + TokensOf(trace[1..])
  }

  /** How many brackets and how many format strings are open. */
  datatype Depth = Depth(brackets: nat, strings: nat)

  const NOTHING_OPEN := Depth(0, 0)

  /** What a call does to the depth: brackets count outside format strings only, and
      a closing one only if one is open; breaking off closes everything. */
  function Counted(depth: Depth, c: Call): Depth {
    match c.ahead
    case InFString(open) => if c.token.Some? then depth.(strings := open) else depth
    case Ahead(_, what) =>
      if what.BreakOff? && c.token.Some? then NOTHING_OPEN
      else if c.token != Some(OtherToken) then depth
      else if what.FStringBegins? then depth.(strings := depth.strings + 1)
      else if what.Opening? && depth.strings == 0 then depth.(brackets := depth.brackets + 1)
      else if what.Closing? && depth.strings == 0 && depth.brackets > 0 then depth.(brackets := depth.brackets - 1)
      else depth
  }

  function DepthAfter(depth: Depth, trace: seq<Call>): Depth
    decreases |trace|
  {
    if trace == [] then depth else DepthAfter(Counted(depth, trace[0]), trace[1..])
  }

  predicate HasEnded(trace: seq<Call>) {
    exists i :: 0 <= i < |trace| && trace[i].token == Some(Endmarker)
  }

  /** What a token may be, by what is open. A line end is a newline if and only if
      nothing is; while something is, no level changes at the start of a line, but
      only when the input ends or a word on a new line breaks everything off. */
  predicate TokenFits(depth: Depth, ended: bool, c: Call) {
    if ended then c.token.None?
    else
      match c.ahead
      case InFString(open) => c.token == if open <= depth.strings && depth.strings > 0 then Some(OtherToken) else None
      case Ahead(_, what) =>
        && (what.LineEnd? ==> c.token == if depth == NOTHING_OPEN then Some(Newline) else None)
        && (c.token == Some(Newline) ==> what.LineEnd?)
        && (depth != NOTHING_OPEN ==>
              && (what.Opening? || what.Closing? || what.FStringBegins? || what.Text? ==> c.token == Some(OtherToken))
              && c.token != Some(Indent)
              && (c.token == Some(Dedent) ==> what.EndOfFile? || (what.BreakOff? && what.column.Some?))
              && (c.token == Some(ErrorDedent) ==> what.BreakOff? && what.column.Some?))
  }

  function DepthOf(s: State): Depth {
    Depth(s.parentheses, s.fStrings)
  }

  lemma CallFits(s: State, ahead: Ahead)
    requires LevelsOk(s.levels)
    ensures var (s', token) := NextOf(s, ahead);
            && TokenFits(DepthOf(s), s.ended, Call(ahead, token))
               && DepthOf(s') == Counted(DepthOf(s), Call(ahead, token))
            && (s'.ended <==> s.ended || token == Some(Endmarker))
  {
    if ahead.Ahead? {
      DedentKeepsLevels(s.levels, ahead.indentation);
    }
  }

  lemma {:induction false} TraceFits(s: State, aheads: seq<Ahead>, j: nat)
    requires LevelsOk(s.levels) && j < |aheads|
    ensures var trace := Trace(s, aheads);
            TokenFits(DepthAfter(DepthOf(s), trace[..j]), s.ended || HasEnded(trace[..j]), trace[j])
    decreases j
  {
    CallFits(s, aheads[0]);
    NextKeepsLevels(s, aheads[0]);
    var (s1, token) := NextOf(s, aheads[0]);
    var trace := Trace(s, aheads);
    if j > 0 {
      var rest := Trace(s1, aheads[1..]);
      TraceFits(s1, aheads[1..], j - 1);
      assert trace[..j] == [trace[0]] + rest[..j - 1] && trace[..j][1..] == rest[..j - 1];
      EndedSplit(trace[0], rest[..j - 1]);
    }
  }

  lemma EndedSplit(c: Call, rest: seq<Call>)
    ensures HasEnded([c] + rest) <==> c.token == Some(Endmarker) || HasEnded(rest)
  {
    var all := [c] + rest;
    assert all[0] == c;
    if i :| 0 <= i < |rest| && rest[i].token == Some(Endmarker) {
      assert all[i + 1] == rest[i];
    }
  }

  lemma {:induction false} TraceIsRun(s: State, aheads: seq<Ahead>)
    requires LevelsOk(s.levels)
    ensures var (s', tokens) := Run(s, aheads);
            TokensOf(Trace(s, aheads)) == tokens && DepthAfter(DepthOf(s), Trace(s, aheads)) == DepthOf(s')
    decreases |aheads|
  {
    if aheads != [] {
      CallFits(s, aheads[0]);
      NextKeepsLevels(s, aheads[0]);
      TraceIsRun(NextOf(s, aheads[0]).0, aheads[1..]);
    }
  }

  /** On every run each token fits what is open at that point, by the brackets and
      format strings of the calls before. */
  lemma BracketsDecide(aheads: seq<Ahead>, j: nat)
    requires j < |aheads|
    ensures var trace := Trace(Fresh(), aheads);
            && TokenFits(DepthAfter(NOTHING_OPEN, trace[..j]), HasEnded(trace[..j]), trace[j])
            && TokensOf(trace) == Run(Fresh(), aheads).1
            && DepthAfter(NOTHING_OPEN, trace) == DepthOf(Run(Fresh(), aheads).0)
  {
    TraceFits(Fresh(), aheads, j);
    TraceIsRun(Fresh(), aheads);
  }

  // ----- the depth of brackets in closed form

  /** Openings less closings. */
  function Net(trace: seq<Call>): int {
    if trace == [] then 0 else NetOf(trace[0]) + Net(trace[1..])
  }

  function NetOf(c: Call): int {
    if c.ahead.InFString? || c.token != Some(OtherToken) then 0
    else if c.ahead.what.Opening? then 1
    else if c.ahead.what.Closing? then -1
    else 0
  }

  /** No format string and nothing that breaks off. */
  predicate Plain(trace: seq<Call>) {
    forall i :: 0 <= i < |trace| ==>
      trace[i].ahead.Ahead? && !trace[i].ahead.what.BreakOff? && !trace[i].ahead.what.FStringBegins?
  }

  /** Where the depth was last as low as it could be: all that was opened since then
      and not closed is open. */
  ghost predicate OpenSince(trace: seq<Call>, depth: nat, k: nat) {
    k <= |trace| && depth == Net(trace[k..])
  }

  /** As long as there are only brackets, the depth is the largest surplus of openings
      over closings in any last part of the run. */
  lemma {:induction false} DepthIsSurplus(trace: seq<Call>, b: nat) returns (k: nat)
    requires Plain(trace)
    ensures var d := DepthAfter(Depth(b, 0), trace);
            && d.strings == 0 && d.brackets >= b + Net(trace)
               && (forall i :: 0 <= i <= |trace| ==> d.brackets >= Net(trace[i..]))
            && k <= |trace| && (d.brackets == b + Net(trace) || OpenSince(trace, d.brackets, k))
    decreases |trace|
  {
    k := 0;
    if trace != [] {
      var rest, first := trace[1..], Counted(Depth(b, 0), trace[0]);
      k := DepthIsSurplus(rest, first.brackets);
      forall i | 0 <= i <= |trace|
        ensures DepthAfter(first, rest).brackets >= Net(trace[i..])
      {
        if i == 0 {
          assert trace[0..] == trace;
        } else {
          assert trace[i..] == rest[i - 1..];
        }
      }
      k := k + 1;
      assert trace[k..] == rest[k - 1..];
      if DepthAfter(first, rest).brackets == first.brackets + Net(rest) && first.brackets != b + NetOf(trace[0]) {
        k := 1;
      }
    }
  }
}
