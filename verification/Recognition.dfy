/** Which text is recognised as a batch of tool calls, however it is cut into deltas, stated
    over its characters (text_tool_fallback.go, text_tool_fallback_parse.go). */
module Recognition {
  import opened Prelude
  import opened Chunks
  import opened Transducer
  import opened ToolFallback
  import Text

  function TextDeltas(deltas: seq<string>): seq<Read> {
    seq(|deltas|, i requires 0 <= i < |deltas| => Got(TextChunk(deltas[i])))
  }

  predicate Blanks(s: string) {
    forall i :: 0 <= i < |s| ==> s[i] == ' ' || s[i] == '\t' || s[i] == '\r' || s[i] == '\n'
  }

  /** What may follow the marker and blanks: an array, or a fence around one. */
  predicate OpensBatch(rest: string) {
    rest != "" && (rest[0] == '[' || rest[0] == '`')
  }

  /** What follows the marker and blanks, and is none of them, rules a batch out. */
  predicate OpensOther(rest: string) {
    rest != "" && rest[0] != '[' && rest[0] != '`' && !Blanks(rest[..1])
  }

  /** Non-empty deltas none of whose proper concatenated prefixes parses. */
  ghost predicate Unparsed(parse: Parser, deltas: seq<string>) {
    && (forall i :: 0 <= i < |deltas| ==> deltas[i] != "")
    && forall k: nat :: 0 < k < |deltas| ==> parse(Concat(deltas[..k])).None?
  }

  lemma {:induction false} TrimBlanks(s: string)
    requires Blanks(s)
    ensures Text.TrimLeft(s, IsCutSpace) == ""
  {
    if s != "" {
      TrimBlanks(s[1..]);
    }
  }

  /** The buffer matches the marker as long as it is part of such a text. */
  lemma Matches(buf: string, blanks: string, rest: string)
    requires Blanks(blanks) && (rest == "" || OpensBatch(rest))
    requires |buf| >= |PREFIX| && buf <= PREFIX + (blanks + rest)
    ensures BufferMatchesPrefix(buf)
  {
    var after := buf[|PREFIX|..];
    assert after <= blanks + rest by {
      assert after == (PREFIX + (blanks + rest))[|PREFIX|..][..|after|];
    }
    if |after| <= |blanks| {
      assert after == blanks[..|after|];
      TrimBlanks(after);
    } else {
      assert after == blanks + rest[..|after| - |blanks|];
      Text.TrimLeftPad(blanks, rest[..|after| - |blanks|], IsCutSpace);
    }
  }

  lemma DoesNotMatch(blanks: string, rest: string)
    requires Blanks(blanks) && OpensOther(rest)
    ensures !BufferMatchesPrefix(PREFIX + (blanks + rest)) && !IsToolCallsPrefix(PREFIX + (blanks + rest))
  {
    var buf := PREFIX + (blanks + rest);
    assert buf[|PREFIX|..] == blanks + rest;
    Text.TrimLeftPad(blanks, rest, IsCutSpace);
  }

  lemma ConcatSnoc(deltas: seq<string>)
    requires deltas != []
    ensures Concat(deltas) == Concat(Front(deltas)) + Last(deltas)
    ensures TextDeltas(deltas) == TextDeltas(Front(deltas)) + [Got(TextChunk(Last(deltas)))]
  {}

  /** As long as it may become a batch, text is held: outside buffering until the marker is
      complete, buffered from there on. */
  lemma {:induction false} Accumulates(parse: Parser, deltas: seq<string>, blanks: string, rest: string)
    requires Unparsed(parse, deltas) && (deltas != [] ==> parse(Concat(deltas)).None?)
    requires Blanks(blanks) && (rest == "" || OpensBatch(rest))
    requires Concat(deltas) <= PREFIX + (blanks + rest) && |Concat(deltas)| <= MAX_BUFFER
    ensures var buf := Concat(deltas);
      Run(Stage(parse), START, TextDeltas(deltas)) == (State(if |buf| < |PREFIX| then Idle else Buffering, buf), [])
  {
    if deltas != [] {
      var before, d := Front(deltas), Last(deltas);
      ConcatSnoc(deltas);
      UnparsedFront(parse, deltas);
      Accumulates(parse, before, blanks, rest);
      var s := Run(Stage(parse), START, TextDeltas(before)).0;
      RunAppend(Stage(parse), START, TextDeltas(before), [Got(TextChunk(d))]);
      RunOne(Stage(parse), s, Got(TextChunk(d)));
      HoldsOn(parse, s, d, blanks, rest);
      assert d != "";
      hide Run, FeedText, Concat, TextDeltas, BufferMatchesPrefix;
    }
  }

  lemma UnparsedFront(parse: Parser, deltas: seq<string>)
    requires Unparsed(parse, deltas) && deltas != []
    ensures Unparsed(parse, Front(deltas)) && (Front(deltas) != [] ==> parse(Concat(Front(deltas))).None?)
  {
    var before := Front(deltas);
    forall k: nat | 0 < k < |before|
      ensures parse(Concat(before[..k])).None?
    {
      assert before[..k] == deltas[..k];
    }
    assert before == deltas[..|before|];
  }

  lemma HoldsOn(parse: Parser, s: State, d: string, blanks: string, rest: string)
    requires d != "" && s.mode == (if |s.buf| < |PREFIX| then Idle else Buffering)
    requires Blanks(blanks) && (rest == "" || OpensBatch(rest))
    requires s.buf + d <= PREFIX + (blanks + rest) && |s.buf + d| <= MAX_BUFFER && parse(s.buf + d).None?
    ensures var buf := s.buf + d;
      FeedText(parse, s, d) == (State(if |buf| < |PREFIX| then Idle else Buffering, buf), [])
  {
    var buf := s.buf + d;
    if |buf| >= |PREFIX| {
      Matches(buf, blanks, rest);
    } else {
      assert buf <= PREFIX;
    }
  }

  /** The marker, blanks and a text that opens with a bracket or a backtick are recognised as
      soon as the whole parses, into however many deltas they are cut: then exactly the
      chunks of the calls are delivered, and none of the text. */
  lemma BatchIsRecognised(parse: Parser, deltas: seq<string>, blanks: string, rest: string, calls: seq<ToolCall>)
    requires deltas != [] && Unparsed(parse, deltas) && parse(Concat(deltas)) == Some(calls)
    requires Concat(deltas) == PREFIX + (blanks + rest) && Blanks(blanks) && OpensBatch(rest)
    requires |Concat(deltas)| <= MAX_BUFFER
    ensures Run(Stage(parse), START, TextDeltas(deltas)) == (State(Emitted, ""), ToolChunks(calls))
  {
    var before, d := Front(deltas), Last(deltas);
    ConcatSnoc(deltas);
    UnparsedFront(parse, deltas);
    Accumulates(parse, before, blanks, rest);
    var s := Run(Stage(parse), START, TextDeltas(before)).0;
    RunAppend(Stage(parse), START, TextDeltas(before), [Got(TextChunk(d))]);
    RunOne(Stage(parse), s, Got(TextChunk(d)));
    assert d != "";
    hide Run, Concat, TextDeltas, BufferMatchesPrefix, ToolChunks;
    assert FeedText(parse, s, d) == (State(Emitted, ""), ToolChunks(calls));
    assert [] + ToolChunks(calls) == ToolChunks(calls);
  }

  /** The marker, blanks and anything else are released as text with the delta that brings
      the first other character, unless the whole parses. */
  lemma OtherIsReleased(parse: Parser, deltas: seq<string>, blanks: string, rest: string)
    requires deltas != [] && Unparsed(parse, deltas) && parse(Concat(deltas)).None?
    requires Concat(deltas) == PREFIX + (blanks + rest) && Blanks(blanks) && OpensOther(rest)
    requires |Concat(Front(deltas))| <= |PREFIX| + |blanks| && |Concat(Front(deltas))| <= MAX_BUFFER
    ensures Run(Stage(parse), START, TextDeltas(deltas)) == (START, [Got(TextChunk(Concat(deltas)))])
  {
    hide Run, Concat, TextDeltas, BufferMatchesPrefix, IsToolCallsPrefix, Unparsed;
    var before, d := Front(deltas), Last(deltas);
    ConcatSnoc(deltas);
    UnparsedFront(parse, deltas);
    CutBefore(Concat(before), d, blanks, rest);
    Accumulates(parse, before, blanks, "");
    var s := Run(Stage(parse), START, TextDeltas(before)).0;
    RunAppend(Stage(parse), START, TextDeltas(before), [Got(TextChunk(d))]);
    RunOne(Stage(parse), s, Got(TextChunk(d)));
    LastIsNotEmpty(parse, deltas);
    LetsGo(parse, s, d, blanks, rest);
    assert [] + [Got(TextChunk(Concat(deltas)))] == [Got(TextChunk(Concat(deltas)))];
  }

  lemma LastIsNotEmpty(parse: Parser, deltas: seq<string>)
    requires Unparsed(parse, deltas) && deltas != []
    ensures Last(deltas) != ""
  {}

  lemma CutBefore(a: string, d: string, blanks: string, rest: string)
    requires a + d == PREFIX + (blanks + rest) && |a| <= |PREFIX| + |blanks|
    ensures a <= PREFIX + (blanks + "")
  {
    assert a == (a + d)[..|a|];
    assert PREFIX + (blanks + rest) == PREFIX + (blanks + "") + rest;
  }

  lemma LetsGo(parse: Parser, s: State, d: string, blanks: string, rest: string)
    requires !s.mode.Emitted? && parse(s.buf + d).None?
    requires s.buf + d == PREFIX + (blanks + rest) && Blanks(blanks) && OpensOther(rest)
    ensures FeedText(parse, s, d) == (START, [Got(TextChunk(s.buf + d))])
  {
    hide BufferMatchesPrefix, IsToolCallsPrefix;
    DoesNotMatch(blanks, rest);
  }
}
