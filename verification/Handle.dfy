/** From parser events to chat chunks (adapters.go, adapter_events.go). The cosy and
    the bearer handle are the same machine. */
module Handle {
  import opened Prelude
  import opened Chunks
  import opened SseParser

  function ReasoningChunk(text: string): Chunk {
    Choice([], None, "", text)
  }

  function ToolPartChunk(tool: ToolDelta): Chunk {
    Choice([tool], None, "", "")
  }

  /** What one event delivers; a terminal event also ends the stream. */
  function Delivered(ev: Event): seq<Read> {
    match ev
    case Text(c) => [Got(TextChunk(c))]
    case Reasoning(c) => [Got(ReasoningChunk(c))]
    case ToolPart(t) => [Got(ToolPartChunk(t))]
    case UsageInfo(u) => [Got(Bare(Some(u)))]
    case Refusal(code, category, queue) => [Fail(Business(code, category, queue))]
    case Terminal => [Got(FinishChunk("stop")), Got(Done)]
    case Unknown => []
  }

  /** Everything a handle delivers for the results of its parser: it stops reading at
      a terminal event. */
  function Reads(results: seq<Result>): seq<Read> {
    if results == [] then []
    else match results[0]
      case Stop(e) => [Fail(e)] + Reads(results[1..])
      case Ev(ev) => Delivered(ev) + if ev.Terminal? then [] else Reads(results[1..])
  }

  lemma ReadsStep(r: Result, rest: seq<Result>)
    ensures r.Stop? ==> Reads([r] + rest) == [Fail(r.error)] + Reads(rest)
    ensures r == Ev(Unknown) ==> Reads([r] + rest) == Reads(rest)
    ensures r == Ev(Terminal) ==> Reads([r] + rest) == [Delivered(Terminal)[0]] + [Got(Done)]
    ensures r.Ev? && !r.event.Unknown? && !r.event.Terminal? ==>
      Reads([r] + rest) == [Delivered(r.event)[0]] + Reads(rest)
  {
    assert ([r] + rest)[1..] == rest;
  }

  lemma ReadsNone()
    ensures Reads([]) == []
  {}

  lemma PopsHead(r: Read, rest: seq<Read>)
    ensures Pops([r] + rest, r, rest)
  {}

  class EventHandle {
    const parser: Parser
    var terminal: bool
    var done: bool

    ghost predicate Valid()
      reads this, parser
    {
      parser.Valid()
    }

    /** What is still to be delivered, before end-of-stream for ever. */
    ghost function Stream(): seq<Read>
      reads this, parser
    {
      if done then [] else if terminal then [Got(Done)] else Reads(parser.Outcome())
    }

    constructor (parser: Parser)
      requires parser.Valid()
      ensures Valid() && this.parser == parser && Stream() == Reads(parser.Outcome())
    {
      this.parser, terminal, done := parser, false, false;
    }

    method FinishChunk() returns (chunk: Chunk)
      modifies this`terminal
      ensures terminal && chunk == Chunks.FinishChunk("stop")
    {
      var reason := "stop";
      terminal := true;
      chunk := Choice([], Some(reason), "", "");
    }

    method NextTerminal() returns (chunk: Option<Chunk>)
      modifies this`done
      ensures chunk == if terminal && !old(done) then Some(Done) else None
      ensures done == (old(done) || terminal)
    {
      chunk := None;
      if terminal && !done {
        done := true;
        chunk := Some(Done);
      }
    }

    /** One event: a chunk or an error to deliver, or nothing. */
    method EventChunk(ev: Event) returns (r: Option<Read>)
      modifies this`terminal
      ensures terminal == (old(terminal) || ev.Terminal?)
      ensures ev.Unknown? <==> r.None?
      ensures r.Some? ==> r.value == Delivered(ev)[0] && r.value != Fail(Cancelled)
    {
      match ev
      case Text(c) => r := Some(Got(Choice([], None, c, "")));
      case Reasoning(c) => r := Some(Got(Choice([], None, "", c)));
      case ToolPart(t) => r := Some(Got(Choice([t], None, "", "")));
      case UsageInfo(u) => r := Some(Got(Bare(Some(u))));
      case Terminal =>
        var chunk := FinishChunk();
        r := Some(Got(chunk));
      case Refusal(code, category, queue) => r := Some(Fail(Business(code, category, queue)));
      case Unknown => r := None;
    }

    /** Delivers the next result; a done context loses nothing. */
    method ReadChunk(ctx: Option<nat>) returns (r: Read)
      requires Valid()
      modifies this, parser
      ensures Valid()
      ensures r == Fail(Cancelled) ==> ctx.Some? && Stream() == old(Stream())
      ensures r != Fail(Cancelled) ==> Pops(old(Stream()), r, Stream())
    {
      hide Reads, Delivered, Results, Scan, Lines;
      var last := NextTerminal();
      if last.Some? {
        return Got(last.value);
      }
      if done {
        return Fail(EndOfStream);
      }
      while true
        invariant Valid() && !done && !terminal && Reads(parser.Outcome()) == old(Stream())
        decreases |parser.Outcome()|
      {
        ghost var aborted := parser.aborted;
        var event := parser.ParseContext(ctx);
        if event.Stop? {
          r := Fail(event.error);
          if aborted {
            ReadsNone();
          } else {
            ReadsStep(event, parser.Outcome());
            PopsHead(r, Reads(parser.Outcome()));
          }
          return;
        }
        ReadsStep(event, parser.Outcome());
        var delivered := EventChunk(event.event);
        if delivered.Some? {
          r := delivered.value;
          PopsHead(r, if terminal then [Got(Done)] else Reads(parser.Outcome()));
          return;
        }
      }
    }
  }
}
