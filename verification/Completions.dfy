/** What a completion holds, in terms of the upstream events alone: calls, reasoning, usage
    and errors survive handle, fallback and aggregation (adapter_events.go,
    text_tool_fallback.go, executor_aggregate.go). */
module Completions {
  import opened Prelude
  import opened Chunks
  import opened Transducer
  import opened Handle
  import opened ToolFallback
  import opened FallbackLaws
  import opened Aggregate
  import opened Pipeline
  import opened Batches
  import S = SseParser

  // ---- From the events ----

  /** The events before the first terminal event, refusal or end. */
  function Leading(results: seq<S.Result>): seq<S.Event> {
    if results == [] || results[0].Stop? || results[0].event.Terminal? || results[0].event.Refusal? then []
    else [results[0].event] + Leading(results[1..])
  }

  /** That terminal event, refusal or end. */
  function Verdict(results: seq<S.Result>): S.Result {
    if results == [] then S.Stop(EndOfStream)
    else if results[0].Stop? || results[0].event.Terminal? || results[0].event.Refusal? then results[0]
    else Verdict(results[1..])
  }

  function DeltasFrom(events: seq<S.Event>): seq<ToolDelta> {
    if events == [] then []
    else (if events[0].ToolPart? then [events[0].tool] else []) + DeltasFrom(events[1..])
  }

  function ReasoningFrom(events: seq<S.Event>): string {
    if events == [] then ""
    else (if events[0].Reasoning? then events[0].content else "") + ReasoningFrom(events[1..])
  }

  /** The last usage reported. */
  function UsageFrom(events: seq<S.Event>): Option<Usage> {
    if events == [] then None
    else if UsageFrom(events[1..]).Some? then UsageFrom(events[1..])
    else if events[0].UsageInfo? then Some(events[0].usage)
    else None
  }

  // ---- From the chunks ----

  function ReasoningIn(s: seq<Read>): string {
    if s == [] then ""
    else (if s[0].Got? && s[0].chunk.Choice? then s[0].chunk.reasoning else "") + ReasoningIn(s[1..])
  }

  function UsageIn(s: seq<Read>): Option<Usage> {
    if s == [] then None
    else if UsageIn(s[1..]).Some? then UsageIn(s[1..])
    else if s[0].Got? && s[0].chunk.Bare? then s[0].chunk.usage
    else None
  }

  lemma {:induction false} ReasoningInAppend(a: seq<Read>, b: seq<Read>)
    ensures ReasoningIn(a + b) == ReasoningIn(a) + ReasoningIn(b)
  {
    if a == [] {
      assert a + b == b;
    } else {
      assert (a + b)[1..] == a[1..] + b;
      ReasoningInAppend(a[1..], b);
    }
  }

  lemma {:induction false} UsageInAppend(a: seq<Read>, b: seq<Read>)
    ensures UsageIn(a + b) == if UsageIn(b).Some? then UsageIn(b) else UsageIn(a)
  {
    if a == [] {
      assert a + b == b;
    } else {
      assert (a + b)[1..] == a[1..] + b;
      UsageInAppend(a[1..], b);
    }
  }

  /** The handle passes tools, reasoning and usage on, in order. */
  lemma {:induction false} HandleKeeps(results: seq<S.Result>)
    requires TerminalFirst(results)
    ensures DeltasIn(Reads(results)) == DeltasFrom(Leading(results))
    ensures ReasoningIn(Reads(results)) == ReasoningFrom(Leading(results))
    ensures UsageIn(Reads(results)) == UsageFrom(Leading(results))
  {
    var ev, rest := results[0].event, Reads(results[1..]);
    if ev.Terminal? {
      FinishHasNothing();
      assert Reads(results) == [Got(FinishChunk("stop")), Got(Done)];
    } else {
      HandleKeeps(results[1..]);
      assert Reads(results) == Delivered(ev) + rest;
      assert Leading(results)[1..] == Leading(results[1..]);
      EventKeeps(ev);
      DeltasInAppend(Delivered(ev), rest);
      ReasoningInAppend(Delivered(ev), rest);
      UsageInAppend(Delivered(ev), rest);
    }
  }

  lemma FinishHasNothing()
    ensures var s := [Got(FinishChunk("stop")), Got(Done)];
      DeltasIn(s) == [] && ReasoningIn(s) == "" && UsageIn(s) == None
  {
    var s := [Got(FinishChunk("stop")), Got(Done)];
    assert s[1..] == [Got(Done)] && s[1..][1..] == [];
    assert DeltasIn(s[1..]) == [] + [] && ReasoningIn(s[1..]) == "" + "";
    assert UsageIn([]) == None && UsageIn(s[1..]) == None;
  }

  lemma EventKeeps(ev: S.Event)
    requires !ev.Terminal? && !ev.Refusal?
    ensures DeltasIn(Delivered(ev)) == if ev.ToolPart? then [ev.tool] else []
    ensures ReasoningIn(Delivered(ev)) == if ev.Reasoning? then ev.content else ""
    ensures UsageIn(Delivered(ev)) == if ev.UsageInfo? then Some(ev.usage) else None
  {
    var s := Delivered(ev);
    if s != [] {
      assert s[1..] == [];
    }
  }

  /** The text chunks carry no reasoning besides. */
  predicate PlainTexts(s: seq<Read>) {
    forall i :: 0 <= i < |s| && IsText(s[i]) ==> s[i].chunk.reasoning == ""
  }

  lemma {:induction false} HandleTextsArePlain(results: seq<S.Result>)
    ensures PlainTexts(Reads(results))
  {
    if results != [] {
      HandleTextsArePlain(results[1..]);
      if results[0].Ev? {
        var out := Delivered(results[0].event);
        assert PlainTexts(out);
      }
    }
  }

  // ---- Through the fallback ----

  /** The deltas of the batch that the fallback recognises, if it does. */
  function BatchOf(parse: Parser, s: State, input: seq<Read>): seq<ToolDelta>
    decreases |input|
  {
    if input == [] then []
    else
      var next := Feed(parse, s, input[0]).0;
      if IsText(input[0]) && !s.mode.Emitted? && next.mode.Emitted? then
        BatchDeltas(parse(s.buf + input[0].chunk.content).value)
      else BatchOf(parse, next, input[1..])
  }

  lemma {:induction false} NoBatchInToolMode(parse: Parser, s: State, input: seq<Read>)
    requires s.mode.Emitted?
    ensures BatchOf(parse, s, input) == []
    decreases |input|
  {
    if input != [] {
      NoBatchInToolMode(parse, Feed(parse, s, input[0]).0, input[1..]);
    }
  }

  lemma {:induction false} ChunksHaveNothingElse(calls: seq<ToolCall>, n: nat)
    requires n <= |calls|
    ensures ReasoningIn(ToolChunks(calls)[n..]) == "" && UsageIn(ToolChunks(calls)[n..]) == None
    decreases |calls| - n
  {
    if n < |calls| {
      ChunksHaveNothingElse(calls, n + 1);
      assert ToolChunks(calls)[n..][1..] == ToolChunks(calls)[n + 1..];
    }
  }

  lemma OneRead(r: Read)
    ensures DeltasIn([r]) == if r.Got? && r.chunk.Choice? then r.chunk.tools else []
    ensures ReasoningIn([r]) == if r.Got? && r.chunk.Choice? then r.chunk.reasoning else ""
    ensures UsageIn([r]) == if r.Got? && r.chunk.Bare? then r.chunk.usage else None
  {
    assert [r][1..] == [] && DeltasIn([]) == [] && ReasoningIn([]) == "" && UsageIn([]) == None;
  }

  lemma TwoReads(text: string, r: Read)
    ensures var s := [Got(TextChunk(text)), r];
      DeltasIn(s) == DeltasIn([r]) && ReasoningIn(s) == ReasoningIn([r]) && UsageIn(s) == UsageIn([r])
  {
    var s := [Got(TextChunk(text)), r];
    assert s[1..] == [r];
    assert [] + DeltasIn([r]) == DeltasIn([r]) && "" + ReasoningIn([r]) == ReasoningIn([r]);
  }

  /** Outside of recognising a batch, one read passes on what it carries. */
  lemma FeedPasses(parse: Parser, s: State, r: Read)
    requires IsText(r) ==> r.chunk.reasoning == ""
    ensures var (next, out) := Feed(parse, s, r);
      var batch := IsText(r) && !s.mode.Emitted? && next.mode.Emitted?;
      && ReasoningIn(out) == ReasoningIn([r]) && UsageIn(out) == UsageIn([r])
      && (batch ==> parse(s.buf + r.chunk.content).Some?)
      && DeltasIn(out) == if batch then BatchDeltas(parse(s.buf + r.chunk.content).value) else DeltasIn([r])
  {
    hide FeedText, DeltasIn, ReasoningIn, UsageIn, BatchDeltas;
    OneRead(r);
    if IsText(r) {
      TextPasses(parse, s, r.chunk.content);
    } else {
      OtherPasses(parse, s, r);
    }
  }

  lemma OtherPasses(parse: Parser, s: State, r: Read)
    requires !IsText(r)
    ensures var out := Feed(parse, s, r).1;
      DeltasIn(out) == DeltasIn([r]) && ReasoningIn(out) == ReasoningIn([r]) && UsageIn(out) == UsageIn([r])
  {
    hide DeltasIn, ReasoningIn, UsageIn;
    OneRead(r);
    OneRead(RewriteFinish(r, "tool_calls"));
    TwoReads(s.buf, r);
  }

  lemma TextPasses(parse: Parser, s: State, content: string)
    ensures var (next, out) := FeedText(parse, s, content);
      var batch := !s.mode.Emitted? && next.mode.Emitted?;
      && ReasoningIn(out) == "" && UsageIn(out) == None
      && (batch ==> parse(s.buf + content).Some?)
      && DeltasIn(out) == if batch then BatchDeltas(parse(s.buf + content).value) else []
  {
    hide BufferMatchesPrefix, IsToolCallsPrefix;
    var (next, out) := FeedText(parse, s, content);
    if !s.mode.Emitted? && next.mode.Emitted? {
      var calls := parse(s.buf + content).value;
      ChunksHaveDeltas(calls, 0);
      ChunksHaveNothingElse(calls, 0);
      assert ToolChunks(calls)[0..] == ToolChunks(calls) && BatchDeltas(calls)[0..] == BatchDeltas(calls);
    } else if out != [] {
      OneRead(out[0]);
      assert out == [out[0]];
    }
  }

  /** The fallback passes reasoning, usage and native deltas on, and adds the deltas of the
      batch that it recognises, if it does. */
  lemma {:induction false} FallbackKeeps(parse: Parser, s: State, input: seq<Read>)
    requires PlainTexts(input)
    ensures var out := Run(Stage(parse), s, input).1;
      && ReasoningIn(out) == ReasoningIn(input) && UsageIn(out) == UsageIn(input)
      && DeltasIn(out) == BatchOf(parse, s, input) + DeltasIn(input)
    decreases |input|
  {
    hide Run, Feed, ReasoningIn, UsageIn, DeltasIn, BatchOf, PlainTexts, BatchDeltas;
    if input == [] {
      NothingKept(parse, s);
      return;
    }
    var r := input[0];
    var (next, out) := Feed(parse, s, r);
    var rest := Run(Stage(parse), next, input[1..]).1;
    RestIsPlain(input);
    FeedPasses(parse, s, r);
    FallbackKeeps(parse, next, input[1..]);
    BatchStep(parse, s, input);
    NativeEnters(parse, s, r);
    assert input == [r] + input[1..];
    ReasoningInAppend([r], input[1..]);
    ReasoningInAppend(out, rest);
    UsageInAppend([r], input[1..]);
    UsageInAppend(out, rest);
    DeltasInAppend([r], input[1..]);
    DeltasInAppend(out, rest);
    FirstRead(parse, s, input);
    Regroup(DeltasIn([r]), DeltasIn(out), BatchOf(parse, next, input[1..]), DeltasIn(input[1..]));
  }

  lemma NothingKept(parse: Parser, s: State)
    ensures Run(Stage(parse), s, []).1 == [] && BatchOf(parse, s, []) + DeltasIn([]) == DeltasIn([])
  {}

  lemma FirstRead(parse: Parser, s: State, input: seq<Read>)
    requires input != []
    ensures var (next, out) := Feed(parse, s, input[0]);
      Run(Stage(parse), s, input).1 == out + Run(Stage(parse), next, input[1..]).1
  {}

  lemma RestIsPlain(input: seq<Read>)
    requires PlainTexts(input) && input != []
    ensures PlainTexts(input[1..]) && (IsText(input[0]) ==> input[0].chunk.reasoning == "")
  {}

  /** Either the read or the rest may hold the batch, and no native delta comes before it. */
  lemma Regroup(read: seq<ToolDelta>, out: seq<ToolDelta>, later: seq<ToolDelta>, rest: seq<ToolDelta>)
    requires read == [] || later == []
    ensures read == [] ==> out + (later + rest) == out + later + (read + rest)
    ensures later == [] ==> out + (later + rest) == out + rest
    ensures later + (read + rest) == read + (later + rest)
  {}

  lemma BatchStep(parse: Parser, s: State, input: seq<Read>)
    requires input != []
    ensures var r, next := input[0], Feed(parse, s, input[0]).0;
      var batch := IsText(r) && !s.mode.Emitted? && next.mode.Emitted?;
      && BatchOf(parse, s, input) ==
           (if batch then BatchDeltas(parse(s.buf + r.chunk.content).value) else BatchOf(parse, next, input[1..]))
      && (next.mode.Emitted? ==> BatchOf(parse, next, input[1..]) == [])
  {
    var next := Feed(parse, s, input[0]).0;
    if next.mode.Emitted? {
      NoBatchInToolMode(parse, next, input[1..]);
    }
    hide Feed, BatchDeltas;
  }

  lemma NativeEnters(parse: Parser, s: State, r: Read)
    ensures DeltasIn([r]) != [] ==> Feed(parse, s, r).0.mode.Emitted?
    ensures IsText(r) ==> DeltasIn([r]) == []
  {
    OneRead(r);
  }

  // ---- Through the aggregator ----

  lemma {:induction false} ReasoningCons(c: Chunk, rest: seq<Chunk>)
    ensures ReasoningOf([c] + rest) == (if c.Choice? then c.reasoning else "") + ReasoningOf(rest)
  {
    var all := [c] + rest;
    if rest == [] {
      assert all[..0] == [];
    } else {
      assert all[..|all| - 1] == [c] + rest[..|rest| - 1];
      ReasoningCons(c, rest[..|rest| - 1]);
    }
  }

  lemma {:induction false} UsageCons(c: Chunk, rest: seq<Chunk>)
    ensures UsageOf([c] + rest) ==
      if UsageOf(rest).Some? then UsageOf(rest) else if c.Bare? then c.usage else None
  {
    var all := [c] + rest;
    if rest == [] {
      assert all[..0] == [];
    } else {
      assert all[..|all| - 1] == [c] + rest[..|rest| - 1];
      UsageCons(c, rest[..|rest| - 1]);
    }
  }

  /** The aggregator of a finished stream sees all its reasoning and usage. */
  lemma {:induction false} BodyHasRest(s: seq<Read>)
    requires Shape(s) && Finishes(s)
    ensures ReasoningOf(Body(s)) == ReasoningIn(s) && UsageOf(Body(s)) == UsageIn(s)
  {
    var c, rest := s[0].chunk, s[1..];
    if IsFinish(s[0]) {
      assert rest == [Got(Done)] && rest[1..] == [];
      assert Body(rest) == [] && ReasoningIn(rest) == "" + "" && UsageIn([]) == None && UsageIn(rest) == None;
      assert Body(s) == [c] + [];
      ReasoningCons(c, []);
      UsageCons(c, []);
    } else {
      BodyHasRest(rest);
      ReasoningCons(c, Body(rest));
      UsageCons(c, Body(rest));
    }
  }

  /** The estimate for a list of calls: names and arguments of each. */
  function EstimateFor(estimate: Estimator, calls: seq<ToolCall>): int {
    if calls == [] then 0
    else estimate(calls[0].name) + estimate(calls[0].args) + EstimateFor(estimate, calls[1..])
  }

  lemma {:induction false} EstimateSnoc(estimate: Estimator, calls: seq<ToolCall>, c: ToolCall)
    ensures EstimateFor(estimate, calls + [c]) ==
      EstimateFor(estimate, calls) + estimate(c.name) + estimate(c.args)
  {
    if calls == [] {
      assert [] + [c] == [c] && [c][1..] == [];
    } else {
      assert (calls + [c])[1..] == calls[1..] + [c];
      EstimateSnoc(estimate, calls[1..], c);
    }
  }

  lemma {:induction false} EstimateIsCallTokens(estimate: Estimator, calls: seq<ToolCall>)
    ensures EstimateFor(estimate, calls) == CallTokens(estimate, calls)
  {
    if calls != [] {
      var before := calls[..|calls| - 1];
      EstimateIsCallTokens(estimate, before);
      EstimateSnoc(estimate, before, calls[|calls| - 1]);
      assert calls == before + [calls[|calls| - 1]];
    }
  }

  // ---- From the events to the completion ----

  /** The deltas that a completion's calls come from: those of a recognised batch, if there is
      one, and then those of the native tool events, in order. */
  function DeltasFor(parse: Parser, toolsEnabled: bool, results: seq<S.Result>): seq<ToolDelta> {
    (if toolsEnabled then BatchOf(parse, START, Reads(results)) else []) + DeltasFrom(Leading(results))
  }

  /** A completion's calls are tabulated from the recognised batch and the tool events, its
      reasoning is that of the reasoning events, its usage the last reported or, if none was,
      the estimate of all its parts. */
  lemma CompletionOfEvents(parse: Parser, toolsEnabled: bool, results: seq<S.Result>, estimate: Estimator,
                           inputTokens: int)
    requires TerminalFirst(results)
    ensures var r := Aggregated(ConsumerStream(parse, toolsEnabled, results), estimate, inputTokens);
      var events, deltas := Leading(results), DeltasFor(parse, toolsEnabled, results);
      && r.Completed?
      && r.completion.calls == Reported(deltas, |Indices(deltas)|)
      && r.completion.reasoning == ReasoningFrom(events)
      && r.completion.tokens ==
           match UsageFrom(events)
           case Some(usage) => Exact(usage)
           case None => Estimated(inputTokens, estimate(r.completion.content) + estimate(r.completion.reasoning)
                                               + EstimateFor(estimate, r.completion.calls))
  {
    hide Reads, ConsumerStream, DeltasIn, ReasoningIn, UsageIn, DeltasOf, ReasoningOf, UsageOf, ContentOf, Indices;
    hide Reported, CallTokens, EstimateFor, Body, DeltasFor, Shape, Finishes, Ending, TerminalFirst, FinishOf;
    var s := ConsumerStream(parse, toolsEnabled, results);
    WholeStreamShape(parse, toolsEnabled, results);
    BodyHasDeltas(s);
    BodyHasRest(s);
    ConsumerKeeps(parse, toolsEnabled, results);
    var deltas := DeltasFor(parse, toolsEnabled, results);
    EstimateIsCallTokens(estimate, Reported(deltas, |Indices(deltas)|));
  }

  lemma ConsumerKeeps(parse: Parser, toolsEnabled: bool, results: seq<S.Result>)
    requires TerminalFirst(results)
    ensures var s := ConsumerStream(parse, toolsEnabled, results);
      && DeltasIn(s) == DeltasFor(parse, toolsEnabled, results)
      && ReasoningIn(s) == ReasoningFrom(Leading(results)) && UsageIn(s) == UsageFrom(Leading(results))
  {
    var input := Reads(results);
    HandleKeeps(results);
    if toolsEnabled {
      HandleFinishes(results);
      HandleShape(results);
      FinishedIsRead(input);
      RunFinishes(parse, START, input);
      HandleTextsArePlain(results);
      FallbackKeeps(parse, START, input);
    } else {
      assert [] + DeltasFrom(Leading(results)) == DeltasFrom(Leading(results));
    }
    hide Reads, DeltasIn, ReasoningIn, UsageIn, DeltasFrom, ReasoningFrom, UsageFrom, BatchOf, Run;
  }

  /** Without tools enabled, or without a recognised batch, that is the tool events alone. */
  lemma NativeCallsOnly(parse: Parser, toolsEnabled: bool, results: seq<S.Result>)
    requires toolsEnabled ==> BatchOf(parse, START, Reads(results)) == []
    ensures DeltasFor(parse, toolsEnabled, results) == DeltasFrom(Leading(results))
  {
    hide BatchOf, Reads, DeltasFrom;
  }

  lemma {:induction false} EndingIsVerdict(results: seq<S.Result>)
    ensures Ending(Reads(results)) ==
      match Verdict(results)
      case Stop(e) => Fail(e)
      case Ev(ev) => if ev.Refusal? then Fail(Business(ev.code, ev.category, ev.queue)) else Got(Done)
  {
    if results != [] && results[0].Ev? {
      var ev := results[0].event;
      if ev.Terminal? {
        assert Reads(results)[1..] == [Got(Done)];
      } else if !ev.Refusal? {
        EndingIsVerdict(results[1..]);
        assert Reads(results) == Delivered(ev) + Reads(results[1..]);
        if Delivered(ev) == [] {
          assert Reads(results) == Reads(results[1..]);
        } else {
          assert Reads(results)[1..] == Reads(results[1..]);
        }
      }
    }
  }

  /** A failure carries the refusal's own code, category and queue, or the error that ended
      the parser; a stream that just ends is incomplete. */
  lemma FailureOfEvents(parse: Parser, toolsEnabled: bool, results: seq<S.Result>, estimate: Estimator,
                        inputTokens: int)
    ensures Aggregated(ConsumerStream(parse, toolsEnabled, results), estimate, inputTokens).Failed? <==>
      !TerminalFirst(results)
    ensures !TerminalFirst(results) ==>
      Aggregated(ConsumerStream(parse, toolsEnabled, results), estimate, inputTokens) == Failed(
        match Verdict(results)
        case Stop(e) => if e == EndOfStream then Incomplete else e
        case Ev(ev) => if ev.Refusal? then Business(ev.code, ev.category, ev.queue) else Incomplete)
  {
    WholeStreamShape(parse, toolsEnabled, results);
    EndingIsVerdict(results);
    hide ConsumerStream, Reads, CompletionOf;
  }

  // ---- The bearer aggregator ----

  function TextFrom(events: seq<S.Event>): string {
    if events == [] then ""
    else (if events[0].Text? then events[0].content else "") + TextFrom(events[1..])
  }

  lemma {:induction false} ChunksOfEvents(events: seq<S.Event>)
    ensures var chunks := Map(events, EventAsChunk);
      && ContentOf(chunks) == TextFrom(events) && ReasoningOf(chunks) == ReasoningFrom(events)
      && UsageOf(chunks) == UsageFrom(events) && DeltasOf(chunks) == DeltasFrom(events)
  {
    if events != [] {
      var c, rest := EventAsChunk(events[0]), Map(events[1..], EventAsChunk);
      ChunksOfEvents(events[1..]);
      assert Map(events, EventAsChunk) == [c] + rest;
      ContentCons(c, rest);
      ReasoningCons(c, rest);
      UsageCons(c, rest);
      DeltasCons(c, rest);
    }
  }

  /** What the bearer aggregator gathers, in terms of the events: text, reasoning and last
      usage, and a call for each index of the tool events, in the order of the indices. */
  lemma CollectedMeans(events: seq<S.Event>)
    ensures var c := CollectedFrom(events);
      && c.content == TextFrom(events) && c.reasoning == ReasoningFrom(events) && c.usage == UsageFrom(events)
      && c.calls == CallsInOrder(DeltasFrom(events))
  {
    ChunksOfEvents(events);
  }

  /** Parser results: these events, and then more. */
  function EventsThen(events: seq<S.Event>, more: seq<S.Result>): seq<S.Result> {
    if events == [] then more else [S.Ev(events[0])] + EventsThen(events[1..], more)
  }

  /** The bearer aggregator gathers all events up to end-of-stream, those after a terminal
      event too; the first refusal or other error before it makes the call fail. */
  lemma CollectsToEnd(events: seq<S.Event>, last: S.Result, rest: seq<S.Result>)
    requires last.Stop? || last.event.Refusal?
    requires forall i :: 0 <= i < |events| ==> !events[i].Refusal?
    ensures CollectedOutcome(EventsThen(events, [last] + rest)) ==
      if last == S.Stop(EndOfStream) then Complete(CollectedFrom(events))
      else Broken(if last.Stop? then last.error else Upstream(last.event.code))
  {
    EventsUpTo(events, last, rest);
    hide CollectedFrom, EventsBefore, EventEnding, EventsThen;
  }

  lemma {:induction false} EventsUpTo(events: seq<S.Event>, last: S.Result, rest: seq<S.Result>)
    requires last.Stop? || last.event.Refusal?
    requires forall i :: 0 <= i < |events| ==> !events[i].Refusal?
    ensures EventsBefore(EventsThen(events, [last] + rest)) == events
    ensures EventEnding(EventsThen(events, [last] + rest)) == last
  {
    if events == [] {
      EndsThere(last, rest);
    } else {
      EventsUpTo(events[1..], last, rest);
      GoesOn(events[0], EventsThen(events[1..], [last] + rest));
      hide EventsBefore, EventEnding;
      assert events == [events[0]] + events[1..];
    }
  }

  lemma EndsThere(last: S.Result, rest: seq<S.Result>)
    requires last.Stop? || last.event.Refusal?
    ensures EventsBefore([last] + rest) == [] && EventEnding([last] + rest) == last
  {}

  lemma GoesOn(ev: S.Event, more: seq<S.Result>)
    requires !ev.Refusal?
    ensures EventsBefore([S.Ev(ev)] + more) == [ev] + EventsBefore(more)
    ensures EventEnding([S.Ev(ev)] + more) == EventEnding(more)
  {
    assert ([S.Ev(ev)] + more)[1..] == more;
  }
}
