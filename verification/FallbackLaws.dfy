/** What the tool fallback promises, for every upstream stream and every parser:
    no text is lost or moved before tool mode, tool mode is for good, and the
    buffer is bounded. */
module FallbackLaws {
  import opened Prelude
  import opened Chunks
  import opened Transducer
  import opened ToolFallback
  import Text

  // ---- Conservation of text before tool mode ----

  lemma TextOfOne(r: Read)
    ensures TextOf([r]) == if IsText(r) then r.chunk.content else ""
    ensures Others([r]) == if IsText(r) then [] else [r]
  {
    assert [r][1..] == [];
  }

  lemma TextOfNone()
    ensures TextOf([]) == "" && Others([]) == []
  {}

  lemma TextThen(text: string, r: Read)
    requires text != "" && !IsText(r)
    ensures TextOf([Got(TextChunk(text)), r]) == text && Others([Got(TextChunk(text)), r]) == [r]
  {
    assert [Got(TextChunk(text)), r][1..] == [r];
    TextOfOne(r);
  }

  /** `out` carries all the text of `held` and `input` but for what is held after. */
  ghost predicate Conserves(held: string, input: seq<Read>, out: seq<Read>, after: string) {
    TextOf(out) + after == held + TextOf(input) && Others(out) == Others(input)
  }

  lemma TextConserves(parse: Parser, s: State, content: string)
    requires content != "" && !FeedText(parse, s, content).0.mode.Emitted?
    ensures !s.mode.Emitted?
    ensures var (s1, out) := FeedText(parse, s, content);
      TextOf(out) + s1.buf == s.buf + content && Others(out) == []
  {
    hide TextOf, Others, BufferMatchesPrefix, IsToolCallsPrefix;
    TextOfOne(Got(TextChunk(s.buf + content)));
    TextOfNone();
  }

  lemma FeedConserves(parse: Parser, s: State, r: Read)
    requires Held(parse, s) && !Feed(parse, s, r).0.mode.Emitted?
    ensures !s.mode.Emitted?
    ensures Conserves(s.buf, [r], Feed(parse, s, r).1, Feed(parse, s, r).0.buf)
  {
    TextOfOne(r);
    if IsText(r) {
      TextConserves(parse, s, r.chunk.content);
    } else if s.mode.Buffering? {
      BufferingHolds(parse, s);
      TextThen(s.buf, r);
    }
    hide TextOf, Others, FeedText;
  }

  lemma ConservesAppend(held: string, a: seq<Read>, outA: seq<Read>, mid: string, b: seq<Read>, outB: seq<Read>,
                        after: string)
    requires Conserves(held, a, outA, mid) && Conserves(mid, b, outB, after)
    ensures Conserves(held, a + b, outA + outB, after)
  {
    TextOfAppend(a, b);
    TextOfAppend(outA, outB);
    OthersAppend(a, b);
    OthersAppend(outA, outB);
    hide TextOf, Others;
    Associates(TextOf(outA), TextOf(outB), after);
    Associates(TextOf(outA), mid, TextOf(b));
    Associates(held, TextOf(a), TextOf(b));
  }

  /** In every state reached before tool mode, what was delivered followed by what
      is held is all the text read so far, and all other chunks, finish chunks
      included, were delivered unchanged and in order. */
  lemma {:induction false} Conservation(parse: Parser, s: State, input: seq<Read>)
    requires Held(parse, s) && !Run(Stage(parse), s, input).0.mode.Emitted?
    ensures !s.mode.Emitted?
    ensures Conserves(s.buf, input, Run(Stage(parse), s, input).1, Run(Stage(parse), s, input).0.buf)
    decreases |input|
  {
    hide Feed, Held;
    if input != [] {
      var (s1, out) := Stage(parse)(s, input[0]);
      var (last, rest) := Run(Stage(parse), s1, input[1..]);
      FeedHolds(parse, s, input[0]);
      Conservation(parse, s1, input[1..]);
      FeedConserves(parse, s, input[0]);
      assert input == [input[0]] + input[1..];
      ConservesAppend(s.buf, [input[0]], out, s1.buf, input[1..], rest, last.buf);
    }
  }

  /** A stream that never enters tool mode delivers all its text, except perhaps a
      proper prefix of the marker at the very end, and every other result as it
      came; held text that is flushed at the end is followed by end-of-stream. */
  lemma WholeStreamText(parse: Parser, input: seq<Read>)
    requires !Run(Stage(parse), START, UntilDone(input)).0.mode.Emitted?
    ensures var last := Run(Stage(parse), START, UntilDone(input)).0;
      var out := Outputs(parse, START, input);
      var withheld := if last.mode.Idle? then last.buf else "";
      && TextOf(out) + withheld == TextOf(UntilDone(input))
      && withheld <= PREFIX && |withheld| < |PREFIX|
      && Others(out) == Others(UntilDone(input)) + if last.mode.Buffering? then [Fail(EndOfStream)] else []
  {
    var (last, out) := Run(Stage(parse), START, UntilDone(input));
    HeldAlways(parse, UntilDone(input));
    assert Held(parse, START);
    Conservation(parse, START, UntilDone(input));
    if last.mode.Buffering? {
      BufferingHolds(parse, last);
      var tail := [Got(TextChunk(last.buf)), Fail(EndOfStream)];
      TextThen(last.buf, Fail(EndOfStream));
      TextOfAppend(out, tail);
      OthersAppend(out, tail);
    }
    hide TextOf, Others, Run, UntilDone, Held;
    assert "" + TextOf(UntilDone(input)) == TextOf(UntilDone(input));
  }

  /** At a finish chunk, done marker or error, text stays behind exactly if some is held
      and the handle is not buffering it. */
  lemma BoundaryWithholds(parse: Parser, s: State, r: Read)
    requires r.Fail? || IsDone(r) || IsFinish(r)
    ensures Feed(parse, s, r).0.buf != "" <==> !s.mode.Buffering? && s.buf != ""
    ensures Feed(parse, s, r).0.buf != "" ==> Feed(parse, s, r).0 == s && TextOf(Feed(parse, s, r).1) == ""
  {}

  /** Text that looks like the start of the marker to the very end is not delivered. */
  lemma PrefixIsWithheld(parse: Parser)
    requires parse("Too").None?
    ensures var input := [Got(TextChunk("Too")), Got(FinishChunk("stop")), Got(Done)];
      && Outputs(parse, START, input) == [Got(FinishChunk("stop")), Got(Done)]
      && TextOf(Outputs(parse, START, input)) == "" && TextOf(input) == "Too"
  {
    var input := [Got(TextChunk("Too")), Got(FinishChunk("stop")), Got(Done)];
    assert "" + "Too" == "Too" && "Too" <= PREFIX;
    assert FeedText(parse, START, "Too") == (State(Idle, "Too"), []);
    OutputsStep(parse, START, input);
    OutputsStep(parse, State(Idle, "Too"), input[1..]);
    OutputsStep(parse, State(Idle, "Too"), input[2..]);
    assert input[1..][1..] == [Got(Done)] && input[2..] == [Got(Done)];
    hide Outputs, Feed;
    assert TextOf([Got(FinishChunk("stop")), Got(Done)]) == "";
    assert TextOf([Got(Done)]) == "" && input[1..] == [Got(FinishChunk("stop")), Got(Done)];
  }

  predicate EndsIn(s: string, t: string) {
    |t| <= |s| && s[|s| - |t|..] == t
  }

  /** All text is delivered if it does not end in the start of the marker. */
  lemma AllDeliveredIf(parse: Parser, input: seq<Read>)
    requires !Run(Stage(parse), START, UntilDone(input)).0.mode.Emitted?
    requires forall k :: 0 < k < |PREFIX| ==> !EndsIn(TextOf(UntilDone(input)), PREFIX[..k])
    ensures TextOf(Outputs(parse, START, input)) == TextOf(UntilDone(input))
  {
    var last := Run(Stage(parse), START, UntilDone(input)).0;
    WholeStreamText(parse, input);
    hide Run, TextOf, UntilDone, Outputs;
    var withheld := if last.mode.Idle? then last.buf else "";
    assert withheld == PREFIX[..|withheld|];
    assert EndsIn(TextOf(UntilDone(input)), withheld);
  }

  /** The contents of the text chunks. */
  function Texts(s: seq<Read>): seq<string> {
    if s == [] then [] else Texts(Front(s)) + if IsText(Last(s)) then [Last(s).chunk.content] else []
  }

  /** What the deltas leave held: as long as they add up to the start of the marker, that;
      a delta that goes on differently leaves nothing. */
  function Residue(texts: seq<string>): string {
    if texts == [] then ""
    else Kept(Residue(Front(texts)) + Last(texts))
  }

  /** Text that starts the marker, but is not all of it. */
  function Kept(buf: string): string {
    if buf <= PREFIX && |buf| < |PREFIX| then buf else ""
  }

  /** As long as the marker does not occur, what is held follows from the deltas alone. */
  lemma {:induction false} HeldIsResidue(parse: Parser, input: seq<Read>)
    requires !Run(Stage(parse), START, input).0.mode.Emitted? && !Text.Contains(TextOf(input), PREFIX)
    ensures Run(Stage(parse), START, input).0 == State(Idle, Residue(Texts(input)))
  {
    hide Run, Feed, FeedText, Held, TextOf, Texts, Residue, Kept, Text.Contains, IsText;
    if input == [] {
      NothingHeld(parse);
      return;
    }
    var before, r := Front(input), Last(input);
    var (s, out) := Run(Stage(parse), START, before);
    LastRead(parse, input);
    HeldIsResidue(parse, before);
    ResidueStep(before, r);
    assert input == before + [r];
    if IsText(r) {
      assert r.Got? && r.chunk.Choice? && r.chunk.content != "" by {
        TextIsChoice(r);
      }
      NoMarkerStep(parse, s, r.chunk.content, TextOf(out));
    }
  }

  lemma NothingHeld(parse: Parser)
    ensures Run(Stage(parse), START, []).0 == State(Idle, Residue(Texts([])))
  {}

  /** What is known before the last read of such a stream, and what that read does. */
  lemma LastRead(parse: Parser, input: seq<Read>)
    requires input != [] && !Run(Stage(parse), START, input).0.mode.Emitted?
    requires !Text.Contains(TextOf(input), PREFIX)
    ensures var before, r := Front(input), Last(input);
      var (s, out) := Run(Stage(parse), START, before);
      && !s.mode.Emitted? && !Text.Contains(TextOf(before), PREFIX)
      && Run(Stage(parse), START, input).0 == Feed(parse, s, r).0
      && (IsText(r) ==>
            && !Text.Contains(TextOf(out) + s.buf + r.chunk.content, PREFIX)
            && Feed(parse, s, r).0 == FeedText(parse, s, r.chunk.content).0)
      && (!IsText(r) && s.mode.Idle? ==> Feed(parse, s, r).0 == s)
  {
    hide Run, Feed, FeedText, TextOf, Text.Contains;
    var before, r := Front(input), Last(input);
    var (s, out) := Run(Stage(parse), START, before);
    assert input == before + [r];
    RunAppend(Stage(parse), START, before, [r]);
    RunOne(Stage(parse), s, r);
    FeedIs(parse, s, r);
    TextOfAppend(before, [r]);
    TextOfOne(r);
    TextSoFar(parse, before);
    if Text.Contains(TextOf(before), PREFIX) {
      ContainsPart(TextOf(before), if IsText(r) then r.chunk.content else "", PREFIX);
    }
  }

  lemma FeedIs(parse: Parser, s: State, r: Read)
    ensures s.mode.Emitted? ==> Feed(parse, s, r).0.mode.Emitted?
    ensures IsText(r) ==> Feed(parse, s, r).0 == FeedText(parse, s, r.chunk.content).0
    ensures !IsText(r) && s.mode.Idle? && !Feed(parse, s, r).0.mode.Emitted? ==> Feed(parse, s, r).0 == s
  {}

  lemma TextIsChoice(r: Read)
    requires IsText(r)
    ensures r.Got? && r.chunk.Choice? && r.chunk.content != ""
  {}

  lemma TextSoFar(parse: Parser, input: seq<Read>)
    requires !Run(Stage(parse), START, input).0.mode.Emitted?
    ensures var (s, out) := Run(Stage(parse), START, input);
      TextOf(out) + s.buf == TextOf(input)
  {
    StartHolds(parse);
    Conservation(parse, START, input);
    hide Run, TextOf, Others;
    assert "" + TextOf(input) == TextOf(input);
  }

  lemma ResidueStep(before: seq<Read>, r: Read)
    ensures var input, held := before + [r], Residue(Texts(before));
      Residue(Texts(input)) ==
        if IsText(r) then Kept(held + r.chunk.content) else held
  {
    var input := before + [r];
    assert Front(input) == before && Last(input) == r;
    if IsText(r) {
      assert Front(Texts(input)) == Texts(before) && Last(Texts(input)) == r.chunk.content;
    } else {
      assert Texts(input) == Texts(before);
    }
  }

  lemma ContainsPart(a: string, b: string, pat: string)
    requires Text.Contains(a, pat)
    ensures Text.Contains(a + b, pat)
  {
    var p :| 0 <= p <= |a| && Text.OccursAt(a, pat, p);
    assert Text.OccursAt(a + b, pat, p);
  }

  /** A delta after which the text still lacks the marker. */
  lemma NoMarkerStep(parse: Parser, s: State, content: string, out: string)
    requires s.mode.Idle? && content != "" && !Text.Contains(out + s.buf + content, PREFIX)
    requires !FeedText(parse, s, content).0.mode.Emitted?
    ensures FeedText(parse, s, content).0 == State(Idle, Kept(s.buf + content))
  {
    var buf := s.buf + content;
    if PREFIX <= buf {
      assert out + s.buf + content == out + buf;
      assert Text.OccursAt(out + buf, PREFIX, |out|);
    }
  }

  /** A stream without the marker or tool calls delivers all its text but the residue of
      its deltas, so all of it exactly if that is empty. */
  lemma WithheldExactly(parse: Parser, input: seq<Read>)
    requires !Run(Stage(parse), START, UntilDone(input)).0.mode.Emitted?
    requires !Text.Contains(TextOf(UntilDone(input)), PREFIX)
    ensures TextOf(Outputs(parse, START, input)) + Residue(Texts(UntilDone(input))) == TextOf(UntilDone(input))
    ensures TextOf(Outputs(parse, START, input)) == TextOf(UntilDone(input)) <==> Residue(Texts(UntilDone(input))) == ""
  {
    WholeStreamText(parse, input);
    HeldIsResidue(parse, UntilDone(input));
    hide Run, TextOf, UntilDone, Outputs, Residue;
  }

  /** An error, done marker or finish chunk that interrupts buffering comes right
      after the flushed text, and by then all text read has been delivered. */
  lemma BoundaryFlush(parse: Parser, input: seq<Read>, r: Read)
    requires r.Fail? || IsDone(r) || IsFinish(r)
    requires Run(Stage(parse), START, input).0.mode.Buffering?
    ensures var (s, out) := Run(Stage(parse), START, input);
      && Run(Stage(parse), START, input + [r]) == (START, out + [Got(TextChunk(s.buf)), r])
      && TextOf(out) + s.buf == TextOf(input)
  {
    var (s, out) := Run(Stage(parse), START, input);
    RunAppend(Stage(parse), START, input, [r]);
    RunOne(Stage(parse), s, r);
    assert Feed(parse, s, r) == (START, [Got(TextChunk(s.buf)), r]);
    assert Held(parse, START);
    Conservation(parse, START, input);
    hide TextOf, Others, Run, Feed, Held;
    assert "" + TextOf(input) == TextOf(input);
  }

  // ---- Tool mode ----

  function Rewritten(s: seq<Read>): seq<Read> {
    if s == [] then [] else [RewriteFinish(s[0], "tool_calls")] + Rewritten(s[1..])
  }

  /** Neither text nor a finish reason other than tool_calls. */
  ghost predicate ToolOnly(s: seq<Read>) {
    forall j :: 0 <= j < |s| ==>
      !IsText(s[j]) && (IsFinish(s[j]) ==> s[j].chunk.finish == Some("tool_calls"))
  }

  ghost predicate NoTools(s: seq<Read>) {
    forall i :: 0 <= i < |s| ==> !IsTool(s[i])
  }

  /** Tool mode is entered on a native tool chunk, or on a text delta that completes
      a parse; one that overflows the buffer while buffering is not looked at. */
  lemma ToolModeEntry(parse: Parser, s: State, r: Read)
    requires !s.mode.Emitted?
    ensures Feed(parse, s, r).0.mode.Emitted? <==>
      || IsTool(r)
      || (IsText(r) && parse(s.buf + r.chunk.content).Some?
          && !(s.mode.Buffering? && |s.buf + r.chunk.content| > MAX_BUFFER))
    ensures Feed(parse, s, r).0.mode.Emitted? ==>
      Feed(parse, s, r).1 ==
        if IsTool(r) then [r] else ToolChunks(parse(s.buf + r.chunk.content).value)
  {
    hide BufferMatchesPrefix, IsToolCallsPrefix, ToolChunks;
  }

  /** A parsed batch is 1 to 128 chunks, one per call, indexed in order. */
  lemma BatchShape(parse: Parser, buf: string)
    requires parse(buf).Some?
    ensures var calls := parse(buf).value;
      var chunks := ToolChunks(calls);
      && 1 <= |chunks| == |calls| <= MAX_CALLS
      && ToolOnly(chunks)
      && forall i :: 0 <= i < |chunks| ==>
           && IsTool(chunks[i])
           && chunks[i].chunk.tools == [ToolDelta(i, calls[i].id, calls[i].name, calls[i].args)]
  {
    var chunks := ToolChunks(parse(buf).value);
    forall i | 0 <= i < |chunks|
      ensures chunks[i] == ToolChunk(parse(buf).value, i)
    {}
  }

  /** From tool mode on, text is discarded and everything else is passed on in
      order with its finish reason rewritten. */
  lemma {:induction false} ToolModeRun(parse: Parser, s: State, input: seq<Read>)
    requires s.mode.Emitted?
    ensures Run(Stage(parse), s, input) == (s, Rewritten(Others(input)))
    ensures ToolOnly(Rewritten(Others(input)))
    decreases |input|
  {
    if input != [] {
      var r := input[0];
      assert Stage(parse)(s, r) == (s, if IsText(r) then [] else [RewriteFinish(r, "tool_calls")]);
      RunCons(Stage(parse), s, input);
      ToolModeRun(parse, s, input[1..]);
      hide Feed, Run, Rewritten, RewriteFinish;
      OthersCons(input);
      RewrittenCons(Others(input));
    }
  }

  lemma OthersCons(s: seq<Read>)
    requires s != []
    ensures IsText(s[0]) ==> Others(s) == Others(s[1..])
    ensures !IsText(s[0]) ==> Others(s) != [] && Others(s)[0] == s[0] && Others(s)[1..] == Others(s[1..])
  {}

  lemma RewrittenCons(s: seq<Read>)
    ensures s != [] ==> Rewritten(s) == [RewriteFinish(s[0], "tool_calls")] + Rewritten(s[1..])
  {}

  /** The run enters tool mode at `n`: up to `n` it conserves text, at `n` it delivers
      the native tool chunk or the parsed batch, then only the rewritten rest. */
  ghost predicate EntersAt(parse: Parser, s: State, input: seq<Read>, n: nat) {
    && n < |input|
    && var (at, before) := Run(Stage(parse), s, input[..n]);
       var (entered, entry) := Feed(parse, at, input[n]);
       && !at.mode.Emitted? && entered.mode.Emitted?
       && Conserves(s.buf, input[..n], before, at.buf)
       && Run(Stage(parse), s, input).1 == before + entry + Rewritten(Others(input[n + 1..]))
  }

  lemma EntersNow(parse: Parser, s: State, input: seq<Read>)
    requires !s.mode.Emitted? && input != [] && Feed(parse, s, input[0]).0.mode.Emitted?
    ensures EntersAt(parse, s, input, 0)
  {
    var (s1, out) := Stage(parse)(s, input[0]);
    assert input[..0] == [] && Run(Stage(parse), s, []) == (s, []);
    assert Conserves(s.buf, [], [], s.buf);
    ToolModeRun(parse, s1, input[1..]);
    hide Feed, Conserves, Rewritten, Others;
    assert [] + out == out;
  }

  lemma EntersLater(parse: Parser, s: State, input: seq<Read>, m: nat)
    requires Held(parse, s) && input != []
    requires EntersAt(parse, Feed(parse, s, input[0]).0, input[1..], m)
    ensures EntersAt(parse, s, input, m + 1)
  {
    hide Feed, Held, Conserves, Rewritten, Others;
    var n := m + 1;
    var (s1, out) := Stage(parse)(s, input[0]);
    var (at, before) := Run(Stage(parse), s1, input[1..][..m]);
    assert input[..n][1..] == input[1..][..m] && input[n + 1..] == input[1..][m + 1..];
    assert Run(Stage(parse), s, input[..n]) == (at, out + before);
    assert Run(Stage(parse), s, input).1 == out + Run(Stage(parse), s1, input[1..]).1;
    Conservation(parse, s, input[..n]);
    hide Run;
    var entry, rest := Feed(parse, at, input[n]).1, Rewritten(Others(input[n + 1..]));
    assert out + (before + entry + rest) == out + before + entry + rest;
  }

  /** Every run that enters tool mode does so at one of its results. */
  lemma {:induction false} ToolModeSplit(parse: Parser, s: State, input: seq<Read>) returns (n: nat)
    requires Held(parse, s) && !s.mode.Emitted? && Run(Stage(parse), s, input).0.mode.Emitted?
    ensures EntersAt(parse, s, input, n)
    decreases |input|
  {
    hide EntersAt, Feed, Held;
    var s1 := Stage(parse)(s, input[0]).0;
    if s1.mode.Emitted? {
      n := 0;
      EntersNow(parse, s, input);
    } else {
      FeedHolds(parse, s, input[0]);
      var m := ToolModeSplit(parse, s1, input[1..]);
      n := m + 1;
      EntersLater(parse, s, input, m);
    }
  }

  lemma FeedNoTools(parse: Parser, s: State, r: Read)
    requires !Feed(parse, s, r).0.mode.Emitted?
    ensures !IsTool(r) && NoTools(Feed(parse, s, r).1)
  {
    hide BufferMatchesPrefix, IsToolCallsPrefix, ToolChunks;
  }

  lemma {:induction false} RunNoTools(parse: Parser, s: State, input: seq<Read>)
    requires !Run(Stage(parse), s, input).0.mode.Emitted?
    ensures NoTools(Run(Stage(parse), s, input).1)
    decreases |input|
  {
    if input != [] {
      var s1 := Stage(parse)(s, input[0]).0;
      if s1.mode.Emitted? {
        ToolModeRun(parse, s1, input[1..]);
      }
      RunNoTools(parse, s1, input[1..]);
      FeedNoTools(parse, s, input[0]);
    }
  }

  lemma AfterFirstTool(before: seq<Read>, entry: seq<Read>, rest: seq<Read>, i: nat, j: nat)
    requires NoTools(before) && ToolOnly(entry) && ToolOnly(rest)
    requires i < j < |before + entry + rest| && IsTool((before + entry + rest)[i])
    ensures var r := (before + entry + rest)[j];
      !IsText(r) && (IsFinish(r) ==> r.chunk.finish == Some("tool_calls"))
  {
    assert i >= |before|;
  }

  /** Tool mode is for good: after the first tool chunk a stream delivers, native or
      parsed, it delivers no text and its finish reason is tool_calls. */
  lemma ToolModeIsForGood(parse: Parser, input: seq<Read>, i: nat, j: nat)
    requires i < j < |Outputs(parse, START, input)| && IsTool(Outputs(parse, START, input)[i])
    ensures var r := Outputs(parse, START, input)[j];
      !IsText(r) && (IsFinish(r) ==> r.chunk.finish == Some("tool_calls"))
  {
    var all := UntilDone(input);
    var (last, out) := Run(Stage(parse), START, all);
    if !last.mode.Emitted? {
      RunNoTools(parse, START, all);
      assert false;
    } else {
      var n := ToolModeSplit(parse, START, all);
      var (at, before) := Run(Stage(parse), START, all[..n]);
      var entry := Feed(parse, at, all[n]).1;
      var rest := Rewritten(Others(all[n + 1..]));
      RunNoTools(parse, START, all[..n]);
      ToolModeEntry(parse, at, all[n]);
      ToolModeRun(parse, Feed(parse, at, all[n]).0, all[n + 1..]);
      if !IsTool(all[n]) {
        BatchShape(parse, at.buf + all[n].chunk.content);
      }
      hide Feed, Conserves, Rewritten, ToolChunks, Run;
      AfterFirstTool(before, entry, rest, i, j);
    }
  }

  // ---- The buffer ----

  ghost predicate DeltasWithin(input: seq<Read>, largest: nat) {
    forall i :: 0 <= i < |input| && IsText(input[i]) ==> |input[i].chunk.content| <= largest
  }

  /** At every return the buffer holds at most 4 MiB, or the 10 characters of a
      proper marker prefix and the delta that made it a candidate. */
  lemma {:induction false} BufferBounded(parse: Parser, s: State, input: seq<Read>, largest: nat)
    requires Held(parse, s) && |s.buf| <= Max(MAX_BUFFER, |PREFIX| - 1 + largest)
    requires DeltasWithin(input, largest)
    ensures |Run(Stage(parse), s, input).0.buf| <= Max(MAX_BUFFER, |PREFIX| - 1 + largest)
    decreases |input|
  {
    if input != [] {
      var s1 := Stage(parse)(s, input[0]).0;
      FeedHolds(parse, s, input[0]);
      assert |s1.buf| <= Max(MAX_BUFFER, |PREFIX| - 1 + largest) by {
        hide BufferMatchesPrefix, IsToolCallsPrefix, ToolChunks;
      }
      hide Feed, Held;
      BufferBounded(parse, s1, input[1..], largest);
    }
  }
}
