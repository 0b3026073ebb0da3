/** The streaming pipeline as a whole: parser events, handle, tool fallback and
    aggregation, for every sequence of parser results. */
module Pipeline {
  import opened Prelude
  import opened Chunks
  import opened Transducer
  import opened Handle
  import opened ToolFallback
  import opened FallbackLaws
  import opened Aggregate
  import S = SseParser

  // ---- The shape of a stream ----

  /** Text, reasoning, tool or usage. */
  predicate IsBody(r: Read) {
    Plain(r) && !IsFinish(r)
  }

  /** Body chunks, then either an error or the end, or exactly one finish chunk, the
      done marker, and nothing more. A consumer stops at the first error. */
  predicate Shape(s: seq<Read>) {
    s == [] || s[0].Fail?
    || (IsBody(s[0]) && Shape(s[1..]))
    || (IsFinish(s[0]) && s[1..] == [Got(Done)])
  }

  /** The stream gets to its finish chunk. */
  predicate Finishes(s: seq<Read>) {
    s != [] && (IsFinish(s[0]) || (IsBody(s[0]) && Finishes(s[1..])))
  }

  lemma {:induction false} ShapeBody(out: seq<Read>, rest: seq<Read>)
    requires forall i :: 0 <= i < |out| ==> IsBody(out[i])
    ensures Shape(out + rest) <==> Shape(rest)
    ensures Finishes(out + rest) <==> Finishes(rest)
    ensures Ending(out + rest) == Ending(rest)
  {
    if out == [] {
      assert out + rest == rest;
    } else {
      assert (out + rest)[1..] == out[1..] + rest;
      ShapeBody(out[1..], rest);
    }
  }

  /** Every handle delivers a stream of this shape. */
  lemma {:induction false} HandleShape(results: seq<S.Result>)
    ensures Shape(Reads(results))
  {
    if results != [] && results[0].Ev? && !results[0].event.Terminal? {
      hide Delivered, Shape;
      HandleShape(results[1..]);
      DeliveryShape(results[0].event, Reads(results[1..]));
    }
  }

  lemma DeliveryShape(ev: S.Event, rest: seq<Read>)
    requires !ev.Terminal? && Shape(rest)
    ensures Shape(Delivered(ev) + rest)
  {
    if !ev.Refusal? {
      ShapeBody(Delivered(ev), rest);
    }
  }

  /** What a text, tool, usage or reasoning chunk gives rise to is body again. */
  lemma BodyStaysBody(parse: Parser, s: State, r: Read)
    requires Held(parse, s) && IsBody(r)
    ensures forall i :: 0 <= i < |Feed(parse, s, r).1| ==> IsBody(Feed(parse, s, r).1[i])
  {
    if IsText(r) {
      var calls := parse(s.buf + r.chunk.content);
      if calls.Some? {
        BatchShape(parse, s.buf + r.chunk.content);
      }
    }
  }

  /** The fallback keeps the shape of any stream, whether it finishes, and how it ends. */
  lemma {:induction false} FallbackShape(parse: Parser, s: State, input: seq<Read>)
    requires Held(parse, s) && Shape(input)
    ensures var out := Outputs(parse, s, input);
      && Shape(out)
      && (Finishes(out) <==> Finishes(input))
      && Ending(out) == Ending(input)
    decreases |input|
  {
    hide Feed, Outputs, Held;
    if input == [] {
      FallbackEnd(parse, s);
    } else {
      var r := input[0];
      OutputsStep(parse, s, input);
      FeedHolds(parse, s, r);
      var (s1, out) := Feed(parse, s, r);
      if IsBody(r) {
        BodyStaysBody(parse, s, r);
        FallbackShape(parse, s1, input[1..]);
        ShapeBody(out, Outputs(parse, s1, input[1..]));
      } else {
        FallbackBoundary(parse, s, input);
      }
    }
  }

  lemma FallbackEnd(parse: Parser, s: State)
    requires Held(parse, s)
    ensures var out := Outputs(parse, s, []);
      Shape(out) && !Finishes(out) && Ending(out) == Fail(EndOfStream)
  {
    OutputsEnd(parse, s);
    if s.mode.Buffering? {
      BufferingHolds(parse, s);
      ShapeBody([Got(TextChunk(s.buf))], [Fail(EndOfStream)]);
    }
  }

  lemma FallbackBoundary(parse: Parser, s: State, input: seq<Read>)
    requires Held(parse, s) && Shape(input) && input != [] && !IsBody(input[0])
    ensures var out := Outputs(parse, s, input);
      && Shape(out)
      && (Finishes(out) <==> Finishes(input))
      && Ending(out) == Ending(input)
  {
    var text, last, rest := BoundaryOutputs(parse, s, input);
    hide Outputs, Held, Feed;
    LastShape(last, rest);
    ShapeBody(text, [last] + rest);
    assert input == [input[0]] + input[1..];
    LastShape(input[0], input[1..]);
  }

  /** A finish chunk or an error is delivered after the flushed text, if any. */
  lemma BoundaryOutputs(parse: Parser, s: State, input: seq<Read>)
    returns (text: seq<Read>, last: Read, rest: seq<Read>)
    requires Held(parse, s) && input != []
    requires input[0].Fail? || (IsFinish(input[0]) && input[1..] == [Got(Done)])
    ensures Outputs(parse, s, input) == text + ([last] + rest)
    ensures forall i :: 0 <= i < |text| ==> IsBody(text[i])
    ensures if input[0].Fail? then last == input[0] else IsFinish(last) && rest == input[1..]
  {
    var r := input[0];
    text := if s.mode.Buffering? then [Got(TextChunk(s.buf))] else [];
    last := if s.mode.Emitted? then RewriteFinish(r, "tool_calls") else r;
    OutputsStep(parse, s, input);
    BoundaryFeed(parse, s, r);
    var s1 := Feed(parse, s, r).0;
    rest := Outputs(parse, s1, input[1..]);
    if r.Got? {
      DoneOutputs(parse, s1);
    }
    hide Outputs, Feed, Held;
    Associates(text, [last], rest);
  }

  lemma LastShape(last: Read, rest: seq<Read>)
    requires last.Fail? || (IsFinish(last) && rest == [Got(Done)])
    ensures Shape([last] + rest) && (Finishes([last] + rest) <==> last.Got?)
    ensures Ending([last] + rest) == if last.Fail? then last else Got(Done)
  {
    assert ([last] + rest)[1..] == rest;
  }

  lemma BoundaryFeed(parse: Parser, s: State, r: Read)
    requires Held(parse, s) && (r.Fail? || IsFinish(r))
    ensures Feed(parse, s, r).1 ==
      (if s.mode.Buffering? then [Got(TextChunk(s.buf))] else [])
      + [if s.mode.Emitted? then RewriteFinish(r, "tool_calls") else r]
    ensures !Feed(parse, s, r).0.mode.Buffering?
    ensures s.mode.Buffering? ==> s.buf != ""
  {
    if s.mode.Buffering? {
      BufferingHolds(parse, s);
    }
  }

  lemma DoneOutputs(parse: Parser, s: State)
    requires !s.mode.Buffering?
    ensures Outputs(parse, s, [Got(Done)]) == [Got(Done)]
  {
    OutputsStep(parse, s, [Got(Done)]);
  }

  // ---- What a finished stream adds up to ----

  /** A chunk with tools or a finish reason carries no text besides. */
  predicate Clean(r: Read) {
    r.Got? && r.chunk.Choice? && (r.chunk.tools != [] || r.chunk.finish.Some?) ==> r.chunk.content == ""
  }

  predicate AllClean(s: seq<Read>) {
    forall i :: 0 <= i < |s| ==> Clean(s[i])
  }

  /** The reason in the finish chunk. */
  function FinishReason(s: seq<Read>): string
    requires Finishes(s)
  {
    if IsFinish(s[0]) then s[0].chunk.finish.value else FinishReason(s[1..])
  }

  lemma {:induction false} ContentCons(c: Chunk, rest: seq<Chunk>)
    ensures ContentOf([c] + rest) == (if c.Choice? then c.content else "") + ContentOf(rest)
  {
    var all := [c] + rest;
    if rest == [] {
      assert all[..0] == [];
    } else {
      assert all[..|all| - 1] == [c] + rest[..|rest| - 1];
      ContentCons(c, rest[..|rest| - 1]);
    }
  }

  lemma FinishCons(c: Chunk, rest: seq<Chunk>)
    requires rest != [] && rest[|rest| - 1].Choice? && rest[|rest| - 1].finish.Some?
    ensures FinishOf([c] + rest) == FinishOf(rest)
  {}

  /** The aggregated text of a finished stream is the text it delivered, and the
      aggregated reason is the one in its finish chunk. */
  lemma {:induction false} BodyAddsUp(s: seq<Read>)
    requires Shape(s) && Finishes(s) && AllClean(s)
    ensures ContentOf(Body(s)) == TextOf(s)
    ensures Body(s) != [] && Body(s)[|Body(s)| - 1].Choice? && Body(s)[|Body(s)| - 1].finish.Some?
    ensures FinishOf(Body(s)) == FinishReason(s)
    ensures Ending(s) == Got(Done)
  {
    var c, rest := s[0].chunk, s[1..];
    assert AllClean(rest);
    if IsFinish(s[0]) {
      assert rest[1..] == [] && Body(rest) == [] && TextOf(rest) == "";
      assert Body(s) == [c];
      assert [c][..0] == [];
    } else {
      BodyAddsUp(rest);
      assert Body(s) == [c] + Body(rest);
      ContentCons(c, Body(rest));
      FinishCons(c, Body(rest));
    }
  }

  lemma {:induction false} BodyElements(s: seq<Read>)
    ensures |Body(s)| <= |s| && forall i :: 0 <= i < |Body(s)| ==> s[i] == Got(Body(s)[i])
  {
    if s != [] && Plain(s[0]) {
      BodyElements(s[1..]);
    }
  }

  lemma {:induction false} NoToolsNoDeltas(chunks: seq<Chunk>)
    requires forall i :: 0 <= i < |chunks| ==> !IsTool(Got(chunks[i]))
    ensures DeltasOf(chunks) == []
  {
    if chunks != [] {
      NoToolsNoDeltas(chunks[..|chunks| - 1]);
    }
  }

  lemma {:induction false} FinishedIsRead(s: seq<Read>)
    requires Shape(s) && Finishes(s)
    ensures UntilDone(s) == s
  {
    if IsFinish(s[0]) {
      assert s[1..][1..] == [];
      assert UntilDone(s[1..]) == s[1..];
    } else {
      FinishedIsRead(s[1..]);
    }
  }

  lemma FeedClean(parse: Parser, s: State, r: Read)
    requires Clean(r)
    ensures AllClean(Feed(parse, s, r).1)
  {
    if IsText(r) {
      FeedTextClean(parse, s, r.chunk.content);
    }
    hide FeedText;
  }

  lemma FeedTextClean(parse: Parser, s: State, content: string)
    ensures AllClean(FeedText(parse, s, content).1)
  {
    hide BufferMatchesPrefix, IsToolCallsPrefix;
  }

  lemma {:induction false} RunClean(parse: Parser, s: State, input: seq<Read>)
    requires AllClean(input)
    ensures AllClean(Run(Stage(parse), s, input).1)
    decreases |input|
  {
    if input != [] {
      FeedClean(parse, s, input[0]);
      hide Feed, Clean;
      RunClean(parse, Stage(parse)(s, input[0]).0, input[1..]);
    }
  }

  // ---- What a handle delivers ----

  /** A terminal event comes before any refusal and before the end. */
  predicate TerminalFirst(results: seq<S.Result>) {
    results != [] && results[0].Ev? &&
    (results[0].event.Terminal? || (!results[0].event.Refusal? && TerminalFirst(results[1..])))
  }

  /** The text of the events before the first terminal event, refusal or end. */
  function EventText(results: seq<S.Result>): string {
    if results == [] || results[0].Stop? || results[0].event.Terminal? || results[0].event.Refusal? then ""
    else (if results[0].event.Text? then results[0].event.content else "") + EventText(results[1..])
  }

  /** An event that is neither terminal nor a refusal delivers at most its own clean text. */
  lemma DeliveryKeeps(ev: S.Event, rest: seq<Read>)
    requires !ev.Terminal?
    ensures var all := Delivered(ev) + rest;
      && (Finishes(all) <==> !ev.Refusal? && Finishes(rest))
      && (AllClean(rest) ==> AllClean(all))
      && (Finishes(rest) && !ev.Refusal? ==> FinishReason(all) == FinishReason(rest))
      && (!ev.Refusal? ==> TextOf(all) == (if ev.Text? then ev.content else "") + TextOf(rest))
  {
    var out := Delivered(ev);
    if out == [] {
      assert out + rest == rest;
    } else {
      DeliveredOne(ev);
      OneMore(out[0], rest);
      hide Delivered, TextOf, Finishes, FinishReason, AllClean;
    }
  }

  lemma DeliveredOne(ev: S.Event)
    requires !ev.Terminal? && Delivered(ev) != []
    ensures var r := Delivered(ev)[0];
      && Delivered(ev) == [r] && Clean(r) && !IsFinish(r)
      && (IsBody(r) <==> !ev.Refusal?)
      && (IsText(r) <==> ev.Text? && ev.content != "")
      && (ev.Text? ==> r == Got(TextChunk(ev.content)))
  {}

  lemma OneMore(r: Read, rest: seq<Read>)
    requires Clean(r) && !IsFinish(r)
    ensures var all := [r] + rest;
      && (Finishes(all) <==> IsBody(r) && Finishes(rest))
      && (Finishes(all) ==> FinishReason(all) == FinishReason(rest))
      && (AllClean(rest) ==> AllClean(all))
      && TextOf(all) == (if IsText(r) then r.chunk.content else "") + TextOf(rest)
  {
    assert ([r] + rest)[1..] == rest;
  }

  lemma {:induction false} HandleFinishes(results: seq<S.Result>)
    ensures Finishes(Reads(results)) <==> TerminalFirst(results)
    ensures AllClean(Reads(results))
    ensures TerminalFirst(results) ==>
      TextOf(Reads(results)) == EventText(results) && FinishReason(Reads(results)) == "stop"
  {
    if results != [] && results[0].Stop? {
      HandleFinishes(results[1..]);
    } else if results != [] {
      var ev := results[0].event;
      if ev.Terminal? {
        assert Reads(results) == Delivered(ev);
        TextOfOne(Got(Done));
        assert Delivered(ev)[1..] == [Got(Done)];
      } else {
        HandleFinishes(results[1..]);
        DeliveryKeeps(ev, Reads(results[1..]));
      }
    }
  }

  // ---- The fallback on a finished stream ----

  /** The state in which the fallback ends on a finished stream. */
  function LastState(parse: Parser, input: seq<Read>): State {
    Run(Stage(parse), START, UntilDone(input)).0
  }

  lemma {:induction false} RunFinishes(parse: Parser, s: State, input: seq<Read>)
    requires Held(parse, s) && Shape(input) && Finishes(input)
    ensures var (last, out) := Run(Stage(parse), s, input);
      && !last.mode.Buffering?
      && Finishes(out)
      && FinishReason(out) == if last.mode.Emitted? then "tool_calls" else FinishReason(input)
    decreases |input|
  {
    var r := input[0];
    if IsFinish(r) {
      RunOnFinish(parse, s, r);
      assert input == [r, Got(Done)];
    } else {
      FeedHolds(parse, s, r);
      BodyStaysBody(parse, s, r);
      hide Feed, Held;
      var (s1, out) := Stage(parse)(s, r);
      RunFinishes(parse, s1, input[1..]);
      ReasonAfterBody(out, Run(Stage(parse), s1, input[1..]).1);
    }
  }

  lemma {:induction false} ReasonAfterBody(out: seq<Read>, rest: seq<Read>)
    requires (forall i :: 0 <= i < |out| ==> IsBody(out[i])) && Finishes(rest)
    ensures Finishes(out + rest) && FinishReason(out + rest) == FinishReason(rest)
  {
    if out == [] {
      assert out + rest == rest;
    } else {
      assert (out + rest)[1..] == out[1..] + rest;
      ReasonAfterBody(out[1..], rest);
    }
  }

  lemma RunOnFinish(parse: Parser, s: State, r: Read)
    requires Held(parse, s) && IsFinish(r)
    ensures var (last, out) := Run(Stage(parse), s, [r, Got(Done)]);
      && !last.mode.Buffering?
      && Finishes(out)
      && FinishReason(out) == if last.mode.Emitted? then "tool_calls" else r.chunk.finish.value
  {
    BoundaryFeed(parse, s, r);
    var (s1, out) := Feed(parse, s, r);
    assert Feed(parse, s1, Got(Done)) == (s1, [Got(Done)]);
    RunAppend(Stage(parse), s, [r], [Got(Done)]);
    RunOne(Stage(parse), s, r);
    RunOne(Stage(parse), s1, Got(Done));
    assert [r] + [Got(Done)] == [r, Got(Done)];
    var text := if s.mode.Buffering? then [Got(TextChunk(s.buf))] else [];
    var last := if s.mode.Emitted? then RewriteFinish(r, "tool_calls") else r;
    hide Run, Feed, Held;
    Associates(text, [last], [Got(Done)]);
    ReasonAfterBody(text, [last] + [Got(Done)]);
  }

  lemma {:induction false} ToolOnlyHasNoText(s: seq<Read>)
    requires ToolOnly(s)
    ensures TextOf(s) == ""
  {
    if s != [] {
      assert !IsText(s[0]);
      ToolOnlyHasNoText(s[1..]);
    }
  }

  lemma EntryHasNoText(parse: Parser, s: State, r: Read)
    requires !s.mode.Emitted? && Feed(parse, s, r).0.mode.Emitted?
    ensures TextOf(Feed(parse, s, r).1) == ""
  {
    ToolModeEntry(parse, s, r);
    if IsTool(r) {
      TextOfOne(r);
    } else {
      BatchShape(parse, s.buf + r.chunk.content);
      ToolOnlyHasNoText(ToolChunks(parse(s.buf + r.chunk.content).value));
    }
  }

  /** In tool mode the delivered text is a prefix of the text received. */
  lemma ToolModeTextIsPrefix(parse: Parser, input: seq<Read>)
    requires Run(Stage(parse), START, input).0.mode.Emitted?
    ensures TextOf(Run(Stage(parse), START, input).1) <= TextOf(input)
  {
    assert Held(parse, START);
    var n := ToolModeSplit(parse, START, input);
    hide Feed, Held, Rewritten, Others;
    var (at, before) := Run(Stage(parse), START, input[..n]);
    var (entered, entry) := Feed(parse, at, input[n]);
    var rest := Rewritten(Others(input[n + 1..]));
    EntryHasNoText(parse, at, input[n]);
    ToolModeRun(parse, entered, input[n + 1..]);
    ToolOnlyHasNoText(rest);
    hide Run;
    SandwichText(before, entry, rest);
    TextOfAppend(input[..n], input[n..]);
    assert input == input[..n] + input[n..];
    hide TextOf;
    assert TextOf(before) <= TextOf(before) + at.buf;
  }

  lemma SandwichText(before: seq<Read>, entry: seq<Read>, rest: seq<Read>)
    requires TextOf(entry) == "" && TextOf(rest) == ""
    ensures TextOf(before + entry + rest) == TextOf(before)
  {
    TextOfAppend(before + entry, rest);
    TextOfAppend(before, entry);
    hide TextOf;
    assert TextOf(before) + "" + "" == TextOf(before);
  }

  // ---- The theorem ----

  /** What a consumer reads: the handle itself, or wrapped in the tool fallback. */
  function ConsumerStream(parse: Parser, toolsEnabled: bool, results: seq<S.Result>): seq<Read> {
    if toolsEnabled then Outputs(parse, START, Reads(results)) else Reads(results)
  }

  /** Did the fallback recognise tool calls, or pass native ones? */
  predicate InToolMode(parse: Parser, toolsEnabled: bool, results: seq<S.Result>) {
    toolsEnabled && LastState(parse, Reads(results)).mode.Emitted?
  }

  /** For every sequence of parser results, a consumer gets body chunks, then exactly
      one finish chunk and the done marker, if a terminal event comes first; else it
      stops at an error or the end, without a done marker, and with the same ending
      whether or not the fallback is there. */
  lemma WholeStreamShape(parse: Parser, toolsEnabled: bool, results: seq<S.Result>)
    ensures var s := ConsumerStream(parse, toolsEnabled, results);
      && Shape(s)
      && (Finishes(s) <==> TerminalFirst(results))
      && Ending(s) == Ending(Reads(results))
      && (Ending(s) == Got(Done) <==> TerminalFirst(results))
  {
    HandleShape(results);
    HandleFinishes(results);
    assert Held(parse, START);
    FallbackShape(parse, START, Reads(results));
    EndsWithDone(Reads(results));
  }

  lemma {:induction false} EndsWithDone(s: seq<Read>)
    requires Shape(s)
    ensures Ending(s) == Got(Done) <==> Finishes(s)
    ensures Ending(s).Got? ==> Ending(s) == Got(Done)
  {
    if s != [] && s[0].Got? {
      if IsFinish(s[0]) {
        assert s[1..][0] == Got(Done);
      } else {
        EndsWithDone(s[1..]);
      }
    }
  }

  /** Aggregating succeeds exactly if a terminal event comes before any refusal and
      before the end. The completion's content is then a prefix of the text of the
      events. Outside tool mode it is all of it but for a proper prefix of the marker,
      and nothing is withheld without the fallback; in tool mode the finish reason is
      tool_calls. */
  lemma EndToEnd(parse: Parser, toolsEnabled: bool, results: seq<S.Result>, estimate: Estimator, inputTokens: int)
    returns (withheld: string)
    ensures var r := Aggregated(ConsumerStream(parse, toolsEnabled, results), estimate, inputTokens);
      && (r.Completed? <==> TerminalFirst(results))
      && (r.Completed? ==>
           && r.completion.content + withheld == EventText(results)
           && (InToolMode(parse, toolsEnabled, results) ==> r.completion.finish == "tool_calls")
           && (!InToolMode(parse, toolsEnabled, results) ==>
                && withheld <= PREFIX && |withheld| < |PREFIX|
                && (!toolsEnabled ==> withheld == "")
                && r.completion.finish == "stop"
                && (toolsEnabled ==> r.completion.calls == [])))
  {
    WholeStreamShape(parse, toolsEnabled, results);
    HandleFinishes(results);
    HandleShape(results);
    var input := Reads(results);
    var s := ConsumerStream(parse, toolsEnabled, results);
    withheld := "";
    EndsWithDone(input);
    if TerminalFirst(results) {
      FinishedIsRead(input);
      if toolsEnabled {
        withheld := FallbackFinished(parse, input);
        if !InToolMode(parse, toolsEnabled, results) {
          NoCallsWithoutTools(s);
        }
      }
      BodyAddsUp(s);
      hide TextOf, ContentOf;
      assert TextOf(s) + withheld == EventText(results);
    }
  }

  lemma NoCallsWithoutTools(s: seq<Read>)
    requires NoTools(s)
    ensures DeltasOf(Body(s)) == [] && Reported(DeltasOf(Body(s)), |Indices(DeltasOf(Body(s)))|) == []
  {
    BodyElements(s);
    NoToolsNoDeltas(Body(s));
    assert Indices([]) == {};
  }

  lemma FallbackFinished(parse: Parser, input: seq<Read>) returns (withheld: string)
    requires Shape(input) && Finishes(input) && AllClean(input) && UntilDone(input) == input
    ensures var s := Outputs(parse, START, input);
      var emitted := Run(Stage(parse), START, input).0.mode.Emitted?;
      && AllClean(s) && Finishes(s)
      && TextOf(s) + withheld == TextOf(input)
      && FinishReason(s) == (if emitted then "tool_calls" else FinishReason(input))
      && (!emitted ==> NoTools(s) && withheld <= PREFIX && |withheld| < |PREFIX|)
  {
    assert Held(parse, START);
    var (last, out) := Run(Stage(parse), START, input);
    RunClean(parse, START, input);
    RunFinishes(parse, START, input);
    assert Outputs(parse, START, input) == out;
    hide Run, Outputs, Shape, Finishes, FinishReason, UntilDone, Feed, Held, AllClean;
    if last.mode.Emitted? {
      ToolModeTextIsPrefix(parse, input);
      withheld := TextOf(input)[|TextOf(out)|..];
    } else {
      RunNoTools(parse, START, input);
      WholeStreamText(parse, input);
      withheld := last.buf;
    }
  }
}
