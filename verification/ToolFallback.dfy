/** Tool calls written as plain text (text_tool_fallback*.go).

    `Outputs` says what the wrapped stream delivers as a whole, one result at a
    time and without queues; the class is the program's recursive reader with
    its pending queue, saved error and done flag, proved to deliver `Outputs`. */
module ToolFallback {
  import opened Prelude
  import opened Chunks
  import opened Transducer
  import Text

  const MAX_BUFFER := 0x40_0000
  const MAX_CALLS := 128
  const PREFIX := "Tool calls:"
  const FENCE := "```"

  /** Decoding of a JSON array of tool calls. */
  type Decoder = string -> Option<seq<ToolCall>>

  // ---- What the buffered text looks like (text_tool_fallback_parse.go) ----

  predicate IsCutSpace(c: char) {
    c == ' ' || c == '\t' || c == '\r' || c == '\n'
  }

  predicate BufferMatchesPrefix(buf: string) {
    PREFIX <= buf &&
    var rest := Text.TrimLeft(buf[|PREFIX|..], IsCutSpace);
    rest == "" || rest[0] == '[' || rest[0] == '`'
  }

  predicate IsToolCallsPrefix(buf: string) {
    buf <= PREFIX
  }

  /** What precedes the first occurrence of `pat`, or all of `s`. */
  function Before(s: string, pat: string): string {
    if pat <= s || s == "" then "" else [s[0]] + Before(s[1..], pat)
  }

  function Unfenced(rest: string): string {
    if FENCE + "json" <= rest then Text.Trim(Before(rest[|FENCE + "json"|..], FENCE)) else rest
  }

  function TryParseToolCalls(decode: Decoder, buf: string): (calls: Option<seq<ToolCall>>)
    ensures calls.Some? ==> 1 <= |calls.value| <= MAX_CALLS
  {
    var rest := Unfenced(Text.Trim(if PREFIX <= buf then buf[|PREFIX|..] else buf));
    if rest == "" then None
    else
      var calls := decode(rest);
      if calls.None? || |calls.value| == 0 || |calls.value| > MAX_CALLS then None else calls
  }

  /** A usable array: 1 to 128 calls. */
  function Within(calls: Option<seq<ToolCall>>): Option<seq<ToolCall>> {
    if calls.Some? && 1 <= |calls.value| <= MAX_CALLS then calls else None
  }

  /** A bare array is decoded as it stands, with or without the marker before it and with
      spaces around it. */
  lemma ParsesBare(decode: Decoder, a: string, json: string, b: string)
    requires Text.All(a, Text.IsSpace) && Text.All(b, Text.IsSpace) && Text.Trimmed(json) && json != ""
    requires !(FENCE + "json" <= json) && !(PREFIX <= a + json + b)
    ensures TryParseToolCalls(decode, PREFIX + (a + json + b)) == Within(decode(json))
    ensures TryParseToolCalls(decode, a + json + b) == Within(decode(json))
  {
    assert (PREFIX + (a + json + b))[|PREFIX|..] == a + json + b;
    Text.TrimUnique(a, json, b);
  }

  /** No fence begins within `x` when a fence follows it. */
  predicate FreeOfFence(x: string) {
    forall i :: 0 <= i < |x| ==> !(FENCE <= (x + FENCE)[i..])
  }

  lemma {:induction false} BeforeFence(x: string, y: string)
    requires FreeOfFence(x)
    ensures Before(x + FENCE + y, FENCE) == x
  {
    var s := x + FENCE + y;
    if x == "" {
      assert s == FENCE + y;
    } else {
      assert !(FENCE <= (x + FENCE)[0..]);
      assert s[..|FENCE|] == (x + FENCE)[..|FENCE|];
      assert s[1..] == x[1..] + FENCE + y;
      forall i | 0 <= i < |x[1..]|
        ensures !(FENCE <= (x[1..] + FENCE)[i..])
      {
        assert (x[1..] + FENCE)[i..] == (x + FENCE)[i + 1..];
      }
      BeforeFence(x[1..], y);
    }
  }

  /** Of a fenced block only the inside is decoded, whatever follows it. */
  lemma ParsesFenced(decode: Decoder, a: string, x: string, y: string, b: string)
    requires Text.All(a, Text.IsSpace) && Text.All(b, Text.IsSpace) && FreeOfFence(x) && !Text.Blank(x)
    requires y == "" || !Text.IsSpace(y[|y| - 1])
    ensures TryParseToolCalls(decode, PREFIX + (a + (FENCE + "json" + x + FENCE + y) + b))
      == Within(decode(Text.Trim(x)))
  {
    var t := FENCE + "json" + x + FENCE + y;
    assert (PREFIX + (a + t + b))[|PREFIX|..] == a + t + b;
    assert t[0] == '`' && t[|t| - 1] == (if y == "" then '`' else y[|y| - 1]);
    Text.TrimUnique(a, t, b);
    assert t[|FENCE + "json"|..] == x + FENCE + y;
    BeforeFence(x, y);
  }

  lemma {:induction false} BeforeNothing(x: string)
    requires forall i :: 0 <= i < |x| ==> !(FENCE <= x[i..])
    ensures Before(x, FENCE) == x
  {
    if x != "" {
      assert x[0..] == x;
      forall i | 0 <= i < |x[1..]|
        ensures !(FENCE <= x[1..][i..])
      {
        assert x[1..][i..] == x[i + 1..];
      }
      BeforeNothing(x[1..]);
    }
  }

  /** Of a block whose fence is not closed all the rest is decoded. */
  lemma ParsesUnclosed(decode: Decoder, a: string, x: string, b: string)
    requires Text.All(a, Text.IsSpace) && Text.All(b, Text.IsSpace) && !Text.Blank(x)
    requires !Text.IsSpace(x[|x| - 1]) && forall i :: 0 <= i < |x| ==> !(FENCE <= x[i..])
    ensures TryParseToolCalls(decode, PREFIX + (a + (FENCE + "json" + x) + b)) == Within(decode(Text.Trim(x)))
  {
    var t := FENCE + "json" + x;
    assert (PREFIX + (a + t + b))[|PREFIX|..] == a + t + b;
    assert t[0] == '`' && t[|t| - 1] == x[|x| - 1];
    Text.TrimUnique(a, t, b);
    assert t[|FENCE + "json"|..] == x;
    BeforeNothing(x);
  }

  // ---- The chunks it builds (text_tool_fallback_format.go) ----

  function ToolChunk(calls: seq<ToolCall>, i: nat): Read
    requires i < |calls|
  {
    Got(Choice([ToolDelta(i, calls[i].id, calls[i].name, calls[i].args)], None, "", ""))
  }

  function ToolChunks(calls: seq<ToolCall>): (chunks: seq<Read>) {
    seq(|calls|, i requires 0 <= i < |calls| => ToolChunk(calls, i))
  }

  function RewriteFinish(r: Read, reason: string): Read {
    if IsFinish(r) then Got(r.chunk.(finish := Some(reason))) else r
  }

  function BuildTextChunks(text: string): seq<Read> {
    if text == "" then [] else [Got(TextChunk(text))]
  }

  method BuildToolCallChunks(calls: seq<ToolCall>) returns (chunks: seq<Read>)
    ensures chunks == ToolChunks(calls)
  {
    chunks := [];
    for i := 0 to |calls|
      invariant chunks == ToolChunks(calls)[..i]
    {
      chunks := chunks + [ToolChunk(calls, i)];
    }
  }

  /** A parser of buffered text: at most MAX_CALLS calls, and never none. */
  type Parser = p: string -> Option<seq<ToolCall>> |
    forall buf :: p(buf).Some? ==> 1 <= |p(buf).value| <= MAX_CALLS
    witness _ => None

  function ParserOf(decode: Decoder): Parser {
    buf => TryParseToolCalls(decode, buf)
  }

  // ---- The stream as a whole ----

  datatype Mode = Idle | Buffering | Emitted
  datatype State = State(mode: Mode, buf: string)

  const START := State(Idle, "")

  /** The state after one upstream result, and the results it gives rise to. */
  function Feed(parse: Parser, s: State, r: Read): (State, seq<Read>) {
    if IsTool(r) then
      (State(Emitted, if s.mode.Buffering? then "" else s.buf), [r])
    else if IsText(r) then
      FeedText(parse, s, r.chunk.content)
    else if r.Fail? || IsDone(r) || IsFinish(r) then
      if s.mode.Buffering? then (START, [Got(TextChunk(s.buf)), r])
      else (s, [if s.mode.Emitted? then RewriteFinish(r, "tool_calls") else r])
    else (s, [r])
  }

  function FeedText(parse: Parser, s: State, content: string): (State, seq<Read>) {
    var buf := s.buf + content;
    if s.mode.Emitted? then (s, [])
    else if s.mode.Buffering? && |buf| > MAX_BUFFER then (START, [Got(TextChunk(buf))])
    else
      var calls := parse(buf);
      if calls.Some? then (State(Emitted, ""), ToolChunks(calls.value))
      else if BufferMatchesPrefix(buf) then (State(Buffering, buf), [])
      else if s.mode.Idle? && IsToolCallsPrefix(buf) then (State(Idle, buf), [])
      else (START, [Got(TextChunk(buf))])
  }

  function Stage(parse: Parser): Step<State, Read, Read> {
    (s, r) => Feed(parse, s, r)
  }

  /** The upstream results that are read at all: none after a done marker. */
  function UntilDone(input: seq<Read>): seq<Read> {
    if input == [] then [] else if IsDone(input[0]) then [input[0]] else [input[0]] + UntilDone(input[1..])
  }

  /** Everything delivered from state `s` on, up to end-of-stream for ever. */
  function Outputs(parse: Parser, s: State, input: seq<Read>): seq<Read> {
    var (last, out) := Run(Stage(parse), s, UntilDone(input));
    if last.mode.Buffering? then out + [Got(TextChunk(last.buf)), Fail(EndOfStream)] else out
  }

  /** Reading one more result delivers its outputs first. */
  lemma OutputsStep(parse: Parser, s: State, input: seq<Read>)
    requires input != []
    ensures var (s1, out) := Feed(parse, s, input[0]);
      Outputs(parse, s, input) == out + (if IsDone(input[0]) then [] else Outputs(parse, s1, input[1..]))
  {
    var (s1, out) := Stage(parse)(s, input[0]);
    if IsDone(input[0]) {
      assert UntilDone(input)[1..] == [];
      assert Run(Stage(parse), s1, []) == (s1, []);
      assert Run(Stage(parse), s, UntilDone(input)) == (s1, out + []);
      assert out + [] == out;
    } else {
      assert UntilDone(input)[1..] == UntilDone(input[1..]);
      var (last, rest) := Run(Stage(parse), s1, UntilDone(input[1..]));
      assert Run(Stage(parse), s, UntilDone(input)) == (last, out + rest);
      var tail := [Got(TextChunk(last.buf)), Fail(EndOfStream)];
      assert out + rest + tail == out + (rest + tail);
    }
  }

  // ---- Which text is held back ----

  /** Text is held back only while it may still turn out to be tool calls. */
  predicate Held(parse: Parser, s: State) {
    match s.mode
    case Idle => |s.buf| < |PREFIX| && IsToolCallsPrefix(s.buf) && (s.buf != "" ==> parse(s.buf).None?)
    case Buffering => BufferMatchesPrefix(s.buf) && parse(s.buf).None?
    case Emitted => |s.buf| < |PREFIX| && IsToolCallsPrefix(s.buf)
  }

  lemma FeedHolds(parse: Parser, s: State, r: Read)
    requires Held(parse, s)
    ensures Held(parse, Feed(parse, s, r).0)
  {
    if IsText(r) && !s.mode.Emitted? {
      var buf := s.buf + r.chunk.content;
      if IsToolCallsPrefix(buf) && |buf| == |PREFIX| {
        assert buf == PREFIX;
        assert buf[|PREFIX|..] == "";
      }
    }
  }

  /** In every reachable state the held text is a proper prefix of the marker, or
      the marker followed by what may become a call array, and it does not parse. */
  lemma HeldAlways(parse: Parser, input: seq<Read>)
    ensures Held(parse, Run(Stage(parse), START, input).0)
  {
    var step, inv := Stage(parse), (s: State) => Held(parse, s);
    forall s, r | inv(s)
      ensures inv(step(s, r).0)
    {
      FeedHolds(parse, s, r);
    }
    RunKeeps(step, inv, START, input);
  }

  /** End-of-stream flushes what is held and delivers nothing else. */
  lemma OutputsEnd(parse: Parser, s: State)
    ensures var (s1, out) := Feed(parse, s, Fail(EndOfStream));
      && Outputs(parse, s1, []) == []
      && Outputs(parse, s, []) == (if s.mode.Buffering? then out else [])
      && (!s.mode.Buffering? ==> out == [Fail(EndOfStream)])
  {
    var (s1, out) := Feed(parse, s, Fail(EndOfStream));
    assert Run(Stage(parse), s1, []) == (s1, []);
    assert Run(Stage(parse), s, []) == (s, []);
    assert [] + [Got(TextChunk(s.buf)), Fail(EndOfStream)] == [Got(TextChunk(s.buf)), Fail(EndOfStream)];
  }

  lemma BufferingHolds(parse: Parser, s: State)
    requires Held(parse, s) && s.mode.Buffering?
    ensures s.buf != ""
  {}

  lemma StartHolds(parse: Parser)
    ensures Run(Stage(parse), START, []) == (START, []) && Held(parse, START)
  {}

  lemma StepKeeps(parse: Parser, consumed: seq<Read>, s: State, r: Read)
    requires s == Run(Stage(parse), START, consumed).0 && Held(parse, s)
    ensures Feed(parse, s, r).0 == Run(Stage(parse), START, consumed + [r]).0
    ensures Held(parse, Feed(parse, s, r).0)
  {
    RunAppend(Stage(parse), START, consumed, [r]);
    FeedHolds(parse, s, r);
  }

  /** What remains after the next upstream result has been taken in. */
  ghost function After(parse: Parser, s: State, input: seq<Read>): seq<Read> {
    if IsDone(Head(input)) then [] else Outputs(parse, Feed(parse, s, Head(input)).0, Tail(input))
  }

  lemma Delivers(parse: Parser, s: State, input: seq<Read>, r: Read, queue: seq<Read>)
    requires [r] + queue == Feed(parse, s, Head(input)).1
    ensures Pops(Outputs(parse, s, input), r, queue + After(parse, s, input))
  {
    hide Feed, Outputs;
    var rest := After(parse, s, input);
    if input == [] {
      OutputsEnd(parse, s);
      assert rest == [] && queue + rest == queue;
      assert r == Feed(parse, s, Head(input)).1[0];
      assert queue == Feed(parse, s, Head(input)).1[1..];
    } else {
      OutputsStep(parse, s, input);
      assert ([r] + queue + rest)[1..] == queue + rest;
    }
  }

  lemma Skips(parse: Parser, s: State, input: seq<Read>)
    requires Feed(parse, s, Head(input)).1 == []
    ensures input != [] && Outputs(parse, s, input) == After(parse, s, input)
  {
    if input == [] {
      OutputsEnd(parse, s);
    } else {
      OutputsStep(parse, s, input);
    }
  }

  /** textToolFallbackHandle. */
  class TextToolFallback {
    const inner: StreamHandle
    const parse: Parser
    var mode: Mode
    var buf: string
    var pending: seq<Read>
    var savedErr: Option<Error>
    var done: bool
    /** Every result taken from `inner` so far. */
    ghost var consumed: seq<Read>

    ghost predicate Valid()
      reads this
    {
      State(mode, buf) == Run(Stage(parse), START, consumed).0 && Held(parse, State(mode, buf))
    }

    ghost function Queue(): seq<Read>
      reads this
    {
      if savedErr.Some? then pending + [Fail(savedErr.value)] else pending
    }

    /** All that is still to be delivered, before end-of-stream for ever. */
    ghost function Stream(): seq<Read>
      reads this, inner
    {
      Queue() + (if done then [] else Outputs(parse, State(mode, buf), inner.results))
    }

    constructor (inner: StreamHandle, decode: Decoder)
      ensures Valid() && this.inner == inner && parse == ParserOf(decode)
      ensures consumed == [] && Stream() == Outputs(ParserOf(decode), START, inner.results)
    {
      hide ParserOf, TryParseToolCalls, Run, Feed;
      this.inner := inner;
      parse := ParserOf(decode);
      mode, buf, pending, savedErr, done := Idle, "", [], None, false;
      consumed := [];
      new;
      StartHolds(parse);
      hide Held, Outputs;
      assert Queue() == [] && [] + Outputs(parse, START, inner.results) == Outputs(parse, START, inner.results);
    }

    method ReadChunk() returns (r: Read)
      requires Valid()
      modifies this, inner`results
      ensures Valid() && old(consumed) <= consumed
      ensures Pops(old(Stream()), r, Stream())
      decreases |inner.results|
    {
      hide Outputs, Run, Held, Feed;
      if |pending| > 0 || savedErr.Some? {
        ghost var rest := if done then [] else Outputs(parse, State(mode, buf), inner.results);
        r := TakeQueued();
        PopsFirst(r, Queue(), rest);
        return;
      }
      if done {
        return Fail(EndOfStream);
      }
      ghost var input, s := inner.results, State(mode, buf);
      assert old(Stream()) == Outputs(parse, s, input);
      var raw := inner.ReadChunk();
      var delivered := Process(raw);
      StepKeeps(parse, consumed, s, raw);
      consumed := consumed + [raw];
      if delivered.Some? {
        r := delivered.value;
        Delivers(parse, s, input, r, Queue());
        assert Stream() == Queue() + After(parse, s, input);
        return;
      }
      Skips(parse, s, input);
      r := ReadChunk();
    }

    /** Chunks waiting to be delivered go first, then the saved error. */
    method TakeQueued() returns (r: Read)
      requires |pending| > 0 || savedErr.Some?
      modifies this`pending, this`savedErr
      ensures [r] + Queue() == old(Queue())
    {
      if |pending| > 0 {
        r, pending := pending[0], pending[1..];
        return;
      }
      r, savedErr := Fail(savedErr.value), None;
    }

    /** What one upstream result does; nothing delivered means "read again". */
    method Process(raw: Read) returns (r: Option<Read>)
      requires Held(parse, State(mode, buf)) && Queue() == [] && !done
      modifies this`mode, this`buf, this`pending, this`savedErr, this`done
      ensures State(mode, buf) == Feed(parse, old(State(mode, buf)), raw).0
      ensures (if r.Some? then [r.value] else []) + Queue() == Feed(parse, old(State(mode, buf)), raw).1
      ensures r.None? ==> Queue() == [] && IsText(raw)
      ensures done == IsDone(raw)
    {
      if mode.Buffering? {
        BufferingHolds(parse, State(mode, buf));
      }
      hide Held, FeedText;
      if raw.Fail? {
        if mode.Buffering? && |buf| > 0 {
          pending := BuildTextChunks(buf);
          mode, buf, savedErr := Idle, "", Some(raw.error);
          r := PopPending();
          return;
        }
        return Some(raw);
      }
      if raw.chunk.Done? {
        if mode.Buffering? && |buf| > 0 {
          pending := BuildTextChunks(buf) + [raw];
          mode, buf, done := Idle, "", true;
          r := PopPending();
          return;
        }
        done := true;
        return Some(raw);
      }
      if !raw.chunk.Choice? {
        return Some(raw);
      }
      if |raw.chunk.tools| > 0 {
        if mode.Buffering? {
          buf := "";
        }
        mode := Emitted;
        return Some(raw);
      }
      if raw.chunk.finish.Some? {
        if mode.Buffering? && |buf| > 0 {
          pending := BuildTextChunks(buf) + [raw];
          mode, buf := Idle, "";
          r := PopPending();
          return;
        }
        if mode.Emitted? {
          return Some(RewriteFinish(raw, "tool_calls"));
        }
        return Some(raw);
      }
      if raw.chunk.content == "" {
        return Some(raw);
      }
      r := ProcessText(raw.chunk.content);
    }

    method ProcessText(content: string) returns (r: Option<Read>)
      requires content != "" && pending == []
      modifies this`mode, this`buf, this`pending
      ensures State(mode, buf) == FeedText(parse, old(State(mode, buf)), content).0
      ensures (if r.Some? then [r.value] else []) + pending == FeedText(parse, old(State(mode, buf)), content).1
      ensures r.None? ==> pending == []
    {
      hide BufferMatchesPrefix, IsToolCallsPrefix, ToolChunks;
      match mode
      case Emitted =>
        return None;
      case Buffering =>
        buf := buf + content;
        if |buf| > MAX_BUFFER {
          r := FlushText();
          return;
        }
        var calls := parse(buf);
        if calls.Some? {
          r := EmitCalls(calls.value);
          return;
        }
        if !BufferMatchesPrefix(buf) {
          r := FlushText();
          return;
        }
        return None;
      case Idle =>
        buf := buf + content;
        var calls := parse(buf);
        if calls.Some? {
          r := EmitCalls(calls.value);
          return;
        }
        if BufferMatchesPrefix(buf) {
          mode := Buffering;
          return None;
        }
        if IsToolCallsPrefix(buf) {
          return None;
        }
        r := FlushText();
        return;
    }

    method PopPending() returns (r: Option<Read>)
      requires pending != []
      modifies this`pending
      ensures r == Some(old(pending)[0]) && pending == old(pending)[1..]
    {
      r, pending := Some(pending[0]), pending[1..];
    }

    method FlushText() returns (r: Option<Read>)
      requires buf != "" && pending == []
      modifies this`mode, this`buf, this`pending
      ensures mode == Idle && buf == "" && pending == [] && r == Some(Got(TextChunk(old(buf))))
    {
      pending := BuildTextChunks(buf);
      mode, buf := Idle, "";
      r := PopPending();
    }

    method EmitCalls(calls: seq<ToolCall>) returns (r: Option<Read>)
      requires calls != []
      modifies this`mode, this`buf, this`pending
      ensures mode == Emitted && buf == "" && r.Some? && [r.value] + pending == ToolChunks(calls)
    {
      pending := BuildToolCallChunks(calls);
      mode, buf := Emitted, "";
      r := PopPending();
    }
  }
}
