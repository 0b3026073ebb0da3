/** The whole way from the transport's responses to a completion: parser, handle and tool
    fallback for each response, waiting on queue refusals between them, aggregation
    (queue_wait.go, executor_aggregate.go). */
module AwaitedPipeline {
  import opened Prelude
  import opened Chunks
  import opened ToolFallback
  import opened Aggregate
  import opened Pipeline
  import opened QueueAwait
  import S = SseParser

  /** The aggregator is a caller that stops at the first error. */
  lemma {:induction false} StopsAtFirstError(s: seq<Read>)
    ensures Body(Seen(s)) == Body(s) && Ending(Seen(s)) == Ending(s)
  {
    if s != [] && s[0].Got? {
      StopsAtFirstError(s[1..]);
    }
  }

  lemma SameSeen(s: seq<Read>, t: seq<Read>, estimate: Estimator, inputTokens: int)
    requires Seen(s) == Seen(t)
    ensures Aggregated(s, estimate, inputTokens) == Aggregated(t, estimate, inputTokens)
  {
    StopsAtFirstError(s);
    StopsAtFirstError(t);
  }

  /** Each stream that the transport opens delivers what handle and fallback make of the
      events of one response. */
  ghost predicate Serves(w: World, parse: Parser, toolsEnabled: bool, events: nat -> seq<S.Result>) {
    forall n: nat :: Opening(w, n).Stream? ==> StreamAt(w, n) == ConsumerStream(parse, toolsEnabled, events(n))
  }

  /** A completion of the events of one response: all their text but what is withheld. */
  ghost predicate CompletionFor(parse: Parser, toolsEnabled: bool, events: seq<S.Result>, withheld: string,
                                c: Completion)
  {
    && TerminalFirst(events)
    && c.content + withheld == EventText(events)
    && (!toolsEnabled ==> withheld == "")
    && (!InToolMode(parse, toolsEnabled, events) ==>
          withheld <= PREFIX && |withheld| < |PREFIX| && c.finish == "stop")
    && (InToolMode(parse, toolsEnabled, events) ==> c.finish == "tool_calls")
  }

  /** Aggregating the awaited stream is aggregating the stream of one response, the n-th,
      after those before it were refused at once; it succeeds exactly if that response
      gets to its terminal event before any refusal or end. Otherwise it fails, with the
      error of that stream or with that of the wait or opening after it. */
  lemma AwaitedEndToEnd(w: World, p: Policy, parse: Parser, toolsEnabled: bool, events: nat -> seq<S.Result>,
                        estimate: Estimator, inputTokens: int) returns (n: nat, withheld: string)
    requires Serves(w, parse, toolsEnabled, events) && Opening(w, 0).Stream?
    ensures Opening(w, n).Stream? && forall k: nat :: k < n ==> RefusesFirst(w, k)
    ensures var r := Aggregated(Awaited(w, p, Fresh(w)), estimate, inputTokens);
      var alone := Aggregated(ConsumerStream(parse, toolsEnabled, events(n)), estimate, inputTokens);
      && (r.Completed? ==> r == alone && CompletionFor(parse, toolsEnabled, events(n), withheld, r.completion))
      && (r.Failed? ==> (r == alone && !TerminalFirst(events(n)))
                        || exists e :: FailsAfter(w, n, e) && (r.error == e || (e.EndOfStream? && r.error.Incomplete?)))
  {
    hide Awaited, Aggregated, ConsumerStream, FailsAfter, RefusesFirst;
    var got := Awaited(w, p, Fresh(w));
    n := OneStream(w, p, Fresh(w));
    withheld := EndToEnd(parse, toolsEnabled, events(n), estimate, inputTokens);
    if Seen(got) == Seen(StreamAt(w, n)) {
      SameSeen(got, StreamAt(w, n), estimate, inputTokens);
    } else {
      FailsAtOnce(got, estimate, inputTokens);
    }
  }

  lemma FailsAtOnce(s: seq<Read>, estimate: Estimator, inputTokens: int)
    requires s != [] && s[0].Fail?
    ensures Aggregated(s, estimate, inputTokens) ==
      Failed(if s[0].error.EndOfStream? then Incomplete else s[0].error)
  {}
}
