/** What becomes of a batch of tool calls that arrives as text: the aggregated completion
    holds exactly its calls (text_tool_fallback_format.go, executor_aggregate.go). */
module Batches {
  import opened Prelude
  import opened Chunks
  import opened Transducer
  import opened Handle
  import opened ToolFallback
  import opened FallbackLaws
  import opened Aggregate
  import opened Pipeline
  import S = SseParser

  // ---- The deltas of a stream ----

  /** The tool deltas of a stream, in order. */
  function DeltasIn(s: seq<Read>): seq<ToolDelta> {
    if s == [] then []
    else (if s[0].Got? && s[0].chunk.Choice? then s[0].chunk.tools else []) + DeltasIn(s[1..])
  }

  lemma {:induction false} DeltasInAppend(a: seq<Read>, b: seq<Read>)
    ensures DeltasIn(a + b) == DeltasIn(a) + DeltasIn(b)
  {
    if a == [] {
      assert a + b == b;
    } else {
      assert (a + b)[1..] == a[1..] + b;
      DeltasInAppend(a[1..], b);
    }
  }

  lemma {:induction false} DeltasCons(c: Chunk, rest: seq<Chunk>)
    ensures DeltasOf([c] + rest) == (if c.Choice? then c.tools else []) + DeltasOf(rest)
  {
    var all := [c] + rest;
    if rest == [] {
      assert all[..0] == [];
    } else {
      assert all[..|all| - 1] == [c] + rest[..|rest| - 1];
      DeltasCons(c, rest[..|rest| - 1]);
    }
  }

  /** The aggregator of a finished stream sees all its deltas. */
  lemma {:induction false} BodyHasDeltas(s: seq<Read>)
    requires Shape(s) && Finishes(s)
    ensures DeltasOf(Body(s)) == DeltasIn(s)
  {
    var c, rest := s[0].chunk, s[1..];
    if IsFinish(s[0]) {
      assert rest[1..] == [] && Body(rest) == [] && DeltasIn(rest) == [] + [];
      assert Body(s) == [c] + [];
      DeltasCons(c, []);
    } else {
      BodyHasDeltas(rest);
      DeltasCons(c, Body(rest));
    }
  }

  lemma {:induction false} NoToolsNoDeltasIn(s: seq<Read>)
    requires NoTools(s)
    ensures DeltasIn(s) == []
  {
    if s != [] {
      assert !IsTool(s[0]);
      NoToolsNoDeltasIn(s[1..]);
    }
  }

  lemma {:induction false} RewrittenHasNoTools(s: seq<Read>)
    requires NoTools(s)
    ensures NoTools(Rewritten(Others(s)))
  {
    if s != [] {
      assert !IsTool(s[0]);
      RewrittenHasNoTools(s[1..]);
      OthersCons(s);
      RewrittenCons(Others(s));
    }
  }

  // ---- The deltas of a batch ----

  function BatchDeltas(calls: seq<ToolCall>): seq<ToolDelta> {
    seq(|calls|, i requires 0 <= i < |calls| => ToolDelta(i, calls[i].id, calls[i].name, calls[i].args))
  }

  lemma {:induction false} ChunksHaveDeltas(calls: seq<ToolCall>, n: nat)
    requires n <= |calls|
    ensures DeltasIn(ToolChunks(calls)[n..]) == BatchDeltas(calls)[n..]
    decreases |calls| - n
  {
    if n < |calls| {
      ChunksHaveDeltas(calls, n + 1);
      var s := ToolChunks(calls)[n..];
      assert s[1..] == ToolChunks(calls)[n + 1..];
      assert BatchDeltas(calls)[n..] == [BatchDeltas(calls)[n]] + BatchDeltas(calls)[n + 1..];
    }
  }

  lemma IndicesSnoc(deltas: seq<ToolDelta>, d: ToolDelta)
    ensures Indices(deltas + [d]) == Indices(deltas) + {d.index}
  {
    assert (deltas + [d])[|deltas|] == d;
  }

  /** Tabulating the deltas of a batch gives its calls back. */
  lemma {:induction false} BatchTabulates(calls: seq<ToolCall>)
    ensures Indices(BatchDeltas(calls)) == UpTo(|calls|)
    ensures forall i :: 0 <= i < |calls| ==> CallOf(BatchDeltas(calls), i) == calls[i]
  {
    if calls != [] {
      var before, n := Front(calls), |calls| - 1;
      var deltas, d := BatchDeltas(before), BatchDeltas(calls)[n];
      BatchTabulates(before);
      assert BatchDeltas(calls) == deltas + [d];
      hide CallOf, Indices, BatchDeltas;
      IndicesSnoc(deltas, d);
      CallOfNone(deltas, n);
      assert "" + d.args == d.args;
      forall i | 0 <= i < |calls|
        ensures CallOf(BatchDeltas(calls), i) == calls[i]
      {
        CallOfSnoc(deltas, d, i);
      }
    }
  }

  lemma {:induction false} BatchReported(calls: seq<ToolCall>, n: nat)
    requires n <= |calls|
    ensures Reported(BatchDeltas(calls), n) == calls[..n]
  {
    hide CallOf, Indices, BatchDeltas;
    if n > 0 {
      BatchReported(calls, n - 1);
      BatchTabulates(calls);
      assert n - 1 in Indices(BatchDeltas(calls));
      assert calls[..n] == calls[..n - 1] + [calls[n - 1]];
    }
  }

  lemma BatchIsReported(calls: seq<ToolCall>)
    ensures Reported(BatchDeltas(calls), |Indices(BatchDeltas(calls))|) == calls
  {
    BatchTabulates(calls);
    UpToCard(|calls|);
    BatchReported(calls, |calls|);
    assert calls[..|calls|] == calls;
  }

  // ---- From the events to the completion ----

  /** Read `n` of what the handle delivers completes a batch that had arrived as text, and
      no native tool chunk comes after it. */
  ghost predicate BatchAt(parse: Parser, input: seq<Read>, n: nat) {
    && EntersAt(parse, START, input, n) && IsText(input[n]) && NoTools(input[n + 1..])
  }

  /** The text of such a batch. */
  function BatchText(parse: Parser, input: seq<Read>, n: nat): string
    requires n < |input| && IsText(input[n])
  {
    Run(Stage(parse), START, input[..n]).0.buf + input[n].chunk.content
  }

  lemma BatchDeltasOnly(parse: Parser, input: seq<Read>, n: nat)
    requires BatchAt(parse, input, n)
    ensures parse(BatchText(parse, input, n)).Some?
    ensures DeltasIn(Run(Stage(parse), START, input).1) == BatchDeltas(parse(BatchText(parse, input, n)).value)
    ensures TextOf(Run(Stage(parse), START, input).1) + BatchText(parse, input, n) == TextOf(input[..n + 1])
  {
    hide Run, Feed, FeedText, Rewritten, Others, Conserves;
    var (at, before) := Run(Stage(parse), START, input[..n]);
    var (entered, entry) := Feed(parse, at, input[n]);
    var rest := Rewritten(Others(input[n + 1..]));
    BatchEntry(parse, at, input[n]);
    var calls := parse(at.buf + input[n].chunk.content).value;
    RunNoTools(parse, START, input[..n]);
    NoToolsNoDeltasIn(before);
    RewrittenHasNoTools(input[n + 1..]);
    NoToolsNoDeltasIn(rest);
    DeltasInAppend(before + entry, rest);
    DeltasInAppend(before, entry);
    ChunksHaveDeltas(calls, 0);
    BatchTextIs(parse, input, n);
    hide DeltasIn;
    assert ToolChunks(calls)[0..] == ToolChunks(calls) && BatchDeltas(calls)[0..] == BatchDeltas(calls);
    assert [] + BatchDeltas(calls) + [] == BatchDeltas(calls);
  }

  lemma BatchEntry(parse: Parser, at: State, r: Read)
    requires !at.mode.Emitted? && Feed(parse, at, r).0.mode.Emitted? && IsText(r)
    ensures parse(at.buf + r.chunk.content).Some?
    ensures Feed(parse, at, r).1 == ToolChunks(parse(at.buf + r.chunk.content).value)
    ensures TextOf(Feed(parse, at, r).1) == ""
  {
    EntryHasNoText(parse, at, r);
  }

  /** The delivered text ends where the batch began. */
  lemma BatchTextIs(parse: Parser, input: seq<Read>, n: nat)
    requires BatchAt(parse, input, n)
    ensures TextOf(Run(Stage(parse), START, input).1) + BatchText(parse, input, n) == TextOf(input[..n + 1])
  {
    hide Feed, FeedText, Rewritten, Others;
    var (at, before) := Run(Stage(parse), START, input[..n]);
    var (entered, entry) := Feed(parse, at, input[n]);
    var rest := Rewritten(Others(input[n + 1..]));
    hide Run;
    BatchEntry(parse, at, input[n]);
    ToolModeRun(parse, entered, input[n + 1..]);
    ToolOnlyHasNoText(rest);
    SandwichText(before, entry, rest);
    TextSoFar(parse, input[..n]);
    assert input[..n + 1] == input[..n] + [input[n]];
    TextOfAppend(input[..n], [input[n]]);
    TextOfOne(input[n]);
    hide TextOf;
    Associates(TextOf(before), at.buf, input[n].chunk.content);
  }

  /** A completion whose calls had arrived as text holds exactly the calls of the batch,
      and its content is the text received before the batch began. */
  lemma BatchEndToEnd(parse: Parser, results: seq<S.Result>, n: nat, estimate: Estimator, inputTokens: int)
    requires TerminalFirst(results) && BatchAt(parse, Reads(results), n)
    ensures var r := Aggregated(ConsumerStream(parse, true, results), estimate, inputTokens);
      var batch := BatchText(parse, Reads(results), n);
      && r.Completed? && parse(batch).Some? && r.completion.calls == parse(batch).value
      && r.completion.content + batch == TextOf(Reads(results)[..n + 1])
      && r.completion.finish == "tool_calls"
  {
    var input := Reads(results);
    var s := ConsumerStream(parse, true, results);
    WholeStreamShape(parse, true, results);
    HandleFinishes(results);
    HandleShape(results);
    FinishedIsRead(input);
    var withheld := FallbackFinished(parse, input);
    RunFinishes(parse, START, input);
    BatchDeltasOnly(parse, input, n);
    BatchIsReported(parse(BatchText(parse, input, n)).value);
    BodyAddsUp(s);
    BodyHasDeltas(s);
    EndsTheSame(parse, input, n);
    assert s == Run(Stage(parse), START, input).1;
    hide Run, TextOf, ContentOf, DeltasOf, Indices, Reported, Reads, BatchText;
  }

  lemma EndsTheSame(parse: Parser, input: seq<Read>, n: nat)
    requires EntersAt(parse, START, input, n)
    ensures Run(Stage(parse), START, input).0.mode.Emitted?
  {
    hide Feed, Conserves, Rewritten, Others;
    var (at, before) := Run(Stage(parse), START, input[..n]);
    var (entered, entry) := Feed(parse, at, input[n]);
    assert input == input[..n] + ([input[n]] + input[n + 1..]);
    RunAppend(Stage(parse), START, input[..n], [input[n]] + input[n + 1..]);
    RunAppend(Stage(parse), at, [input[n]], input[n + 1..]);
    RunOne(Stage(parse), at, input[n]);
    ToolModeRun(parse, entered, input[n + 1..]);
  }
}
