/** Chat chunks and the stream handles that deliver them.

    A handle is described by the finite sequence of results it still has to
    deliver; once they are used up it answers end-of-stream for ever. */
module Chunks {
  import opened Prelude

  datatype Usage = Usage(prompt: int, completion: int, total: int, reasoning: int,
                         cached: int, cacheable: int, billable: Option<bool>)

  datatype ToolDelta = ToolDelta(index: int, id: string, name: string, args: string)

  datatype ToolCall = ToolCall(id: string, name: string, args: string)

  datatype Chunk =
    | Done                          // the "[DONE]" marker
    | Garbled                       // a payload that is not a JSON chunk
    | Bare(usage: Option<Usage>)    // a chunk without choices
    | Choice(tools: seq<ToolDelta>, finish: Option<string>, content: string, reasoning: string)

  datatype QueueInfo = QueueInfo(retryAfter: int, waitTime: int)

  datatype Error =
    | EndOfStream
    | LineTooLong
    | EventTooLarge
    | MissingTerminal
    | Cancelled
    | Business(code: int, category: string, queue: Option<QueueInfo>)
    | Upstream(detail: int)
    | Incomplete
    | BadJson

  datatype Read = Got(chunk: Chunk) | Fail(error: Error)

  function TextChunk(text: string): Chunk {
    Choice([], None, text, "")
  }

  function FinishChunk(reason: string): Chunk {
    Choice([], Some(reason), "", "")
  }

  // The four kinds of chunk a consumer tells apart, in the order it tests them.

  predicate IsTool(r: Read) {
    r.Got? && r.chunk.Choice? && r.chunk.tools != []
  }

  predicate IsFinish(r: Read) {
    r.Got? && r.chunk.Choice? && r.chunk.tools == [] && r.chunk.finish.Some?
  }

  predicate IsText(r: Read) {
    r.Got? && r.chunk.Choice? && r.chunk.tools == [] && r.chunk.finish.None? && r.chunk.content != ""
  }

  predicate IsDone(r: Read) {
    r == Got(Done)
  }

  /** The text of the text chunks, in order. */
  function TextOf(s: seq<Read>): string {
    if s == [] then "" else (if IsText(s[0]) then s[0].chunk.content else "") + TextOf(s[1..])
  }

  /** Everything but the text chunks, in order. */
  function Others(s: seq<Read>): seq<Read> {
    if s == [] then [] else (if IsText(s[0]) then [] else [s[0]]) + Others(s[1..])
  }

  lemma {:induction false} TextOfAppend(a: seq<Read>, b: seq<Read>)
    ensures TextOf(a + b) == TextOf(a) + TextOf(b)
  {
    if a == [] {
      assert a + b == b;
    } else {
      assert (a + b)[1..] == a[1..] + b;
      TextOfAppend(a[1..], b);
    }
  }

  lemma {:induction false} OthersAppend(a: seq<Read>, b: seq<Read>)
    ensures Others(a + b) == Others(a) + Others(b)
  {
    if a == [] {
      assert a + b == b;
    } else {
      assert (a + b)[1..] == a[1..] + b;
      OthersAppend(a[1..], b);
    }
  }

  /** The next result of a stream, and the stream after it. */
  function Head(s: seq<Read>): Read {
    if s == [] then Fail(EndOfStream) else s[0]
  }

  function Tail(s: seq<Read>): seq<Read> {
    if s == [] then [] else s[1..]
  }

  /** The next result taken off a stream that ends with end-of-stream for ever. */
  ghost predicate Pops(before: seq<Read>, r: Read, after: seq<Read>) {
    if before == [] then r == Fail(EndOfStream) && after == []
    else r == before[0] && after == before[1..]
  }

  lemma PopsFirst(r: Read, queue: seq<Read>, rest: seq<Read>)
    ensures Pops([r] + queue + rest, r, queue + rest)
  {
    assert ([r] + queue + rest)[1..] == queue + rest;
  }

  /** An arbitrary stream handle. */
  class StreamHandle {
    var results: seq<Read>
    var cancelled: bool

    constructor (results: seq<Read>)
      ensures this.results == results && !cancelled
    {
      this.results, cancelled := results, false;
    }

    method ReadChunk() returns (r: Read)
      modifies this`results
      ensures Pops(old(results), r, results)
    {
      if results == [] {
        return Fail(EndOfStream);
      }
      r, results := results[0], results[1..];
    }

    method Cancel()
      modifies this`cancelled
      ensures cancelled
    {
      cancelled := true;
    }
  }
}
