/** The incremental server-sent-events parser (cosy/sse.go and its twin bearer/sse.go).

    `Expected` says what a byte stream contains by splitting it at blank lines;
    the class reads it line by line and is proved to return exactly that. */
module SseParser {
  import opened Prelude
  import opened Chunks
  import opened RateLimit
  import Text

  const MAX_LINE := 65536
  const MAX_EVENT := 0x10_0000

  datatype Event =
    | Unknown
    | Text(content: string)
    | Reasoning(content: string)
    | ToolPart(tool: ToolDelta)
    | UsageInfo(usage: Usage)
    | Terminal
    | Refusal(code: int, category: string, queue: Option<QueueInfo>)

  /** Decoding of a JSON payload. */
  type Decoder = string -> Event

  datatype Result = Ev(event: Event) | Stop(error: Error)

  // ---- Lines ----

  function LineLength(s: string): (n: nat)
    ensures n <= |s| && (s != "" ==> n > 0)
    ensures n < |s| ==> s[n - 1] == '\n'
  {
    if s == "" then 0 else if s[0] == '\n' then 1 else 1 + LineLength(s[1..])
  }

  function Lines(s: string): seq<string> {
    if s == "" then [] else [s[..LineLength(s)]] + Lines(s[LineLength(s)..])
  }

  datatype Kind = Blank | Data(field: string) | Ignored

  function KindOf(line: string): Kind {
    var trimmed := Text.TrimRight(line, Text.IsLineEnd);
    if trimmed == "" then Blank
    else if "event:" <= trimmed then Ignored
    else if "data:" <= trimmed then Data(Text.Trim(trimmed[5..]))
    else Ignored
  }

  // ---- Reference: what a stream of lines contains ----

  function Join(fields: seq<string>): string {
    if fields == [] then ""
    else if |fields| == 1 then fields[0]
    else Join(fields[..|fields| - 1]) + "\n" + fields[|fields| - 1]
  }

  /** The data fields since the last blank line. */
  function Open(lines: seq<string>): seq<string> {
    if lines == [] then []
    else match KindOf(Last(lines))
      case Blank => []
      case Data(d) => Open(Front(lines)) + [d]
      case Ignored => Open(Front(lines))
  }

  /** The groups of data fields closed by a blank line, in order. */
  function Closed(lines: seq<string>): seq<seq<string>> {
    if lines == [] then []
    else if KindOf(Last(lines)).Blank? then Closed(Front(lines)) + [Open(Front(lines))]
    else Closed(Front(lines))
  }

  /** One payload for each group: its fields joined by newlines and trimmed, unless
      nothing is left. */
  function Payloads(groups: seq<seq<string>>): seq<string> {
    if groups == [] then []
    else
      var payload := Text.Trim(Join(Last(groups)));
      Payloads(Front(groups)) + if payload == "" then [] else [payload]
  }

  /** How many bytes the fields of a group take in the parser's buffer: joined by
      newlines, without the empty fields in front. */
  function Buffered(fields: seq<string>): string {
    if fields == [] then ""
    else
      var before := Buffered(Front(fields));
      if before == "" then Last(fields) else before + "\n" + Last(fields)
  }

  datatype End = Clean | LongLine | LargeEvent

  predicate TooLong(line: string) {
    |line| > MAX_LINE + 2
  }

  predicate TooLarge(lines: seq<string>) {
    |Buffered(Open(lines))| > MAX_EVENT
  }

  /** The first line at which a limit is broken, or the number of lines. */
  function FirstBad(lines: seq<string>): (v: nat)
    ensures v <= |lines|
  {
    if lines == [] then 0
    else
      var v := FirstBad(Front(lines));
      if v < |lines| - 1 || TooLong(Last(lines)) || TooLarge(lines) then v else |lines|
  }

  datatype Content = Content(payloads: seq<string>, end: End)

  /** The payloads of all groups up to the first limit violation, and how it ends. */
  function Expected(lines: seq<string>): Content {
    var v := FirstBad(lines);
    if v == |lines| then Content(Payloads(Closed(lines) + [Open(lines)]), Clean)
    else Content(Payloads(Closed(lines[..v])), if TooLong(lines[v]) then LongLine else LargeEvent)
  }

  // ---- The same content, read line by line ----

  function Extend(data: string, field: string): string {
    if data == "" then field else data + "\n" + field
  }

  function Flushed(data: string): seq<string> {
    if data == "" then [] else [Text.Trim(data)]
  }

  function Before(payloads: seq<string>, c: Content): Content {
    c.(payloads := payloads + c.payloads)
  }

  function Scan(lines: seq<string>, data: string): Content {
    if lines == [] then Content(Flushed(data), Clean)
    else if TooLong(lines[0]) then Content([], LongLine)
    else match KindOf(lines[0])
      case Blank => Before(Flushed(data), Scan(lines[1..], ""))
      case Ignored => Scan(lines[1..], data)
      case Data(d) =>
        if |Extend(data, d)| > MAX_EVENT then Content([], LargeEvent)
        else Scan(lines[1..], Extend(data, d))
  }

  /** Fields as the parser stores them: trimmed. */
  ghost predicate TrimmedFields(fields: seq<string>) {
    forall i :: 0 <= i < |fields| ==> Text.Trimmed(fields[i])
  }

  lemma {:induction false} OpenIsTrimmed(lines: seq<string>)
    ensures TrimmedFields(Open(lines))
  {
    if lines != [] {
      OpenIsTrimmed(Front(lines));
      var t := Text.TrimRight(Last(lines), Text.IsLineEnd);
      if KindOf(Last(lines)).Data? {
        Text.TrimTrims(t[5..]);
      }
    }
  }

  /** Dropping the empty fields in front changes nothing but leading newlines. */
  lemma {:induction false} BufferedIsJoin(fields: seq<string>) returns (pad: string)
    ensures Join(fields) == pad + Buffered(fields)
    ensures forall i :: 0 <= i < |pad| ==> pad[i] == '\n'
  {
    pad := "";
    if |fields| > 1 {
      var p := BufferedIsJoin(Front(fields));
      if Buffered(Front(fields)) == "" {
        pad := p + "\n";
        assert p + "" == p;
      } else {
        pad := p;
        assert p + Buffered(Front(fields)) + "\n" + Last(fields) == p + (Buffered(Front(fields)) + "\n" + Last(fields));
      }
    } else if |fields| == 1 {
      assert "" + fields[0] == fields[0];
    }
  }

  lemma {:induction false} BufferedBlank(fields: seq<string>)
    requires TrimmedFields(fields) && Text.Blank(Buffered(fields))
    ensures Buffered(fields) == ""
  {
    var b := Buffered(fields);
    Text.BlankIsSpaces(b);
    if fields != [] && b != "" {
      var last := Last(fields);
      if last == "" {
        var before := Buffered(Front(fields));
        assert b == before + "\n";
        assert forall i :: 0 <= i < |before| ==> b[i] == before[i];
        Text.SpacesAreBlank(before);
        BufferedBlank(Front(fields));
      }
    }
  }

  /** What the parser flushes is the payload of the group. */
  lemma FlushedIsPayload(fields: seq<string>)
    requires TrimmedFields(fields)
    ensures Flushed(Buffered(fields)) ==
      (if Text.Trim(Join(fields)) == "" then [] else [Text.Trim(Join(fields))])
  {
    var b := Buffered(fields);
    var pad := BufferedIsJoin(fields);
    assert Text.All(pad, Text.IsSpace) && Text.All("", Text.IsSpace);
    Text.TrimPad(pad, b, "");
    assert pad + b + "" == Join(fields);
    if Text.Blank(b) {
      BufferedBlank(fields);
    }
  }

  lemma PayloadsAppend(groups: seq<seq<string>>, g: seq<string>)
    requires TrimmedFields(g)
    ensures Payloads(groups + [g]) == Payloads(groups) + Flushed(Buffered(g))
  {
    FlushedIsPayload(g);
    assert Front(groups + [g]) == groups;
  }

  /** No limit is broken up to and including the last of `lines`. */
  lemma FirstBadSnoc(lines: seq<string>, line: string)
    requires FirstBad(lines) == |lines|
    ensures FirstBad(lines + [line]) ==
      if TooLong(line) || TooLarge(lines + [line]) then |lines| else |lines| + 1
  {
    assert Front(lines + [line]) == lines;
  }

  lemma {:induction false} FirstBadStays(lines: seq<string>, more: seq<string>)
    requires FirstBad(lines) < |lines|
    ensures FirstBad(lines + more) == FirstBad(lines)
  {
    if more == [] {
      assert lines + more == lines;
    } else {
      assert Front(lines + more) == lines + Front(more);
      FirstBadStays(lines, Front(more));
    }
  }

  /** Scanning the rest of a stream completes the reference content of what was
      already read within the limits. */
  lemma {:induction false} ScanCompletes(read: seq<string>, rest: seq<string>)
    requires FirstBad(read) == |read|
    ensures Expected(read + rest) == Before(Payloads(Closed(read)), Scan(rest, Buffered(Open(read))))
    decreases |rest|
  {
    OpenIsTrimmed(read);
    if rest == [] {
      assert read + rest == read;
      PayloadsAppend(Closed(read), Open(read));
    } else {
      var line, more := rest[0], rest[1..];
      var next := read + [line];
      assert read + rest == next + more && Front(next) == read && Last(next) == line;
      FirstBadSnoc(read, line);
      if FirstBad(next) < |next| {
        FirstBadStays(next, more);
        assert (next + more)[..|read|] == read;
        BadLineStops(read, line, more);
      } else {
        ScanCompletes(next, more);
        GoodLineStep(read, line, more);
      }
    }
  }

  lemma BadLineStops(read: seq<string>, line: string, more: seq<string>)
    requires FirstBad(read) == |read| && (TooLong(line) || TooLarge(read + [line]))
    ensures Scan([line] + more, Buffered(Open(read))) == Content([], if TooLong(line) then LongLine else LargeEvent)
  {
    assert Front(read + [line]) == read && Last(read + [line]) == line;
    if !TooLong(line) {
      WithinLimit(read);
      match KindOf(line)
      case Blank =>
      case Ignored =>
      case Data(d) =>
        assert Front(Open(read) + [d]) == Open(read);
    }
  }

  lemma WithinLimit(lines: seq<string>)
    requires FirstBad(lines) == |lines|
    ensures |Buffered(Open(lines))| <= MAX_EVENT
  {}

  lemma GoodLineStep(read: seq<string>, line: string, more: seq<string>)
    requires !TooLong(line) && !TooLarge(read + [line])
    ensures var next := read + [line];
      Before(Payloads(Closed(next)), Scan(more, Buffered(Open(next))))
      == Before(Payloads(Closed(read)), Scan([line] + more, Buffered(Open(read))))
  {
    var next := read + [line];
    assert Front(next) == read && Last(next) == line;
    assert ([line] + more)[1..] == more;
    OpenIsTrimmed(read);
    match KindOf(line)
    case Blank =>
      PayloadsAppend(Closed(read), Open(read));
      var c := Scan(more, "");
      assert Payloads(Closed(read)) + Flushed(Buffered(Open(read))) + c.payloads
        == Payloads(Closed(read)) + (Flushed(Buffered(Open(read))) + c.payloads);
    case Ignored =>
    case Data(d) =>
      assert Front(Open(read) + [d]) == Open(read);
  }

  /** Reading line by line returns exactly the reference content. */
  lemma ScanIsExpected(lines: seq<string>)
    ensures Scan(lines, "") == Expected(lines)
  {
    ScanCompletes([], lines);
    assert [] + lines == lines;
  }

  // ---- From payloads to events ----

  const RATE_LIMITED := Refusal(429, "rate_limited", None)

  predicate IsTerminal(payload: string) {
    Text.TrimRight(payload, Text.IsLineEnd) == "[DONE]"
  }

  /** classifyEvent: a text delta that holds the phrase by itself is refused. */
  function Classify(decode: Decoder, payload: string): Event {
    var ev := decode(payload);
    if ev.Text? && IsRateLimitText(ev.content) then RATE_LIMITED else ev
  }

  /** The event for one payload and the rolling tail after it. */
  function Dispatch(decode: Decoder, tail: string, payload: string): (Event, string) {
    if IsTerminal(payload) then (Terminal, tail)
    else
      var ev := Classify(decode, payload);
      if ev.Text? then
        var next := RateTail(tail, ev.content);
        (if IsRateLimitText(next) then RATE_LIMITED else ev, next)
      else (ev, "")
  }

  function EndError(end: End, seenTerminal: bool): Error {
    match end
    case LongLine => LineTooLong
    case LargeEvent => EventTooLarge
    case Clean => if seenTerminal then EndOfStream else MissingTerminal
  }

  /** All results of a stream with the given content: its events, then its end. */
  function Results(decode: Decoder, c: Content, seenTerminal: bool, tail: string): seq<Result>
    decreases |c.payloads|
  {
    if c.payloads == [] then [Stop(EndError(c.end, seenTerminal))]
    else
      var (ev, next) := Dispatch(decode, tail, c.payloads[0]);
      [Ev(ev)] + Results(decode, c.(payloads := c.payloads[1..]), seenTerminal || ev.Terminal?, next)
  }

  /** One event for each payload, then one end result: end-of-stream exactly when no
      limit was broken and a terminal event came before it. */
  lemma {:induction false} ResultsShape(decode: Decoder, c: Content, seenTerminal: bool, tail: string)
    ensures var rs := Results(decode, c, seenTerminal, tail);
      && |rs| == |c.payloads| + 1
      && (forall i :: 0 <= i < |rs| - 1 ==> rs[i].Ev?)
      && Last(rs).Stop?
      && (Last(rs).error == EndOfStream <==>
            c.end.Clean? && (seenTerminal || exists i :: 0 <= i < |rs| - 1 && rs[i] == Ev(Terminal)))
      && (c.end.LongLine? ==> Last(rs).error == LineTooLong)
      && (c.end.LargeEvent? ==> Last(rs).error == EventTooLarge)
    decreases |c.payloads|
  {
    if c.payloads != [] {
      var (ev, next) := Dispatch(decode, tail, c.payloads[0]);
      var seen := seenTerminal || ev.Terminal?;
      var rest := Results(decode, c.(payloads := c.payloads[1..]), seen, next);
      ResultsShape(decode, c.(payloads := c.payloads[1..]), seen, next);
      var rs := [Ev(ev)] + rest;
      assert rs == Results(decode, c, seenTerminal, tail) && rs[0] == Ev(ev);
      hide Dispatch, Results, Classify;
      assert Last(rs) == Last(rest);
      assert forall i :: 1 <= i < |rs| ==> rs[i] == rest[i - 1];
      if i :| 0 <= i < |rest| - 1 && rest[i] == Ev(Terminal) {
        assert rs[i + 1] == Ev(Terminal);
      }
      if i :| 0 <= i < |rs| - 1 && rs[i] == Ev(Terminal) {
        assert i == 0 || rest[i - 1] == Ev(Terminal);
      }
    }
  }

  // ---- The rolling tail over a stream ----

  /** The text of the adjacent text deltas at the end of a run of payloads; a done
      marker does not interrupt it, any other event does. */
  function AdjacentText(decode: Decoder, payloads: seq<string>): string {
    if payloads == [] then ""
    else
      var before := AdjacentText(decode, Front(payloads));
      if IsTerminal(Last(payloads)) then before
      else if Classify(decode, Last(payloads)).Text? then before + Classify(decode, Last(payloads)).content
      else ""
  }

  function TailAfter(decode: Decoder, payloads: seq<string>): string {
    if payloads == [] then ""
    else Dispatch(decode, TailAfter(decode, Front(payloads)), Last(payloads)).1
  }

  /** The tail the parser keeps is always the last 96 characters of the adjacent text. */
  lemma {:induction false} TailFollowsText(decode: Decoder, payloads: seq<string>)
    ensures TailAfter(decode, payloads) == TailOf(AdjacentText(decode, payloads))
  {
    if payloads != [] {
      TailFollowsText(decode, Front(payloads));
      if Classify(decode, Last(payloads)).Text? {
        TailIsLast(AdjacentText(decode, Front(payloads)), Classify(decode, Last(payloads)).content);
      }
    }
  }

  // ---- The rate-limit alarm of the parser ----

  /** The i-th event that a parser returns for the given payloads, whatever comes after. */
  function EventAt(decode: Decoder, payloads: seq<string>, i: nat): Event
    requires i < |payloads|
  {
    Dispatch(decode, TailAfter(decode, payloads[..i]), payloads[i]).0
  }

  lemma {:induction false} ResultsLength(decode: Decoder, c: Content, seenTerminal: bool, tail: string)
    ensures |Results(decode, c, seenTerminal, tail)| == |c.payloads| + 1
    decreases |c.payloads|
  {
    hide Dispatch;
    if c.payloads != [] {
      var (ev, next) := Dispatch(decode, tail, c.payloads[0]);
      ResultsLength(decode, c.(payloads := c.payloads[1..]), seenTerminal || ev.Terminal?, next);
    }
  }

  lemma {:induction false} ResultsAfter(decode: Decoder, before: seq<string>, c: Content, seenTerminal: bool, i: nat)
    requires i < |c.payloads|
    ensures |Results(decode, c, seenTerminal, TailAfter(decode, before))| == |c.payloads| + 1
    ensures Results(decode, c, seenTerminal, TailAfter(decode, before))[i]
      == Ev(EventAt(decode, before + c.payloads, |before| + i))
    decreases i
  {
    hide Dispatch;
    var tail := TailAfter(decode, before);
    ResultsLength(decode, c, seenTerminal, tail);
    var all := before + c.payloads;
    var (ev, next) := Dispatch(decode, tail, c.payloads[0]);
    if i == 0 {
      assert all[..|before|] == before;
    } else {
      var now := before + [c.payloads[0]];
      assert Front(now) == before && Last(now) == c.payloads[0];
      assert now + c.payloads[1..] == all;
      ResultsAfter(decode, now, c.(payloads := c.payloads[1..]), seenTerminal || ev.Terminal?, i - 1);
    }
  }

  /** The events of a fresh parser. */
  lemma ResultsAt(decode: Decoder, c: Content, seenTerminal: bool, i: nat)
    requires i < |c.payloads|
    ensures i < |Results(decode, c, seenTerminal, "")|
    ensures Results(decode, c, seenTerminal, "")[i] == Ev(EventAt(decode, c.payloads, i))
  {
    ResultsAfter(decode, [], c, seenTerminal, i);
    assert [] + c.payloads == c.payloads;
  }

  /** The i-th payload is a text delta. */
  predicate TextAt(decode: Decoder, payloads: seq<string>, i: nat, add: string) {
    i < |payloads| && !IsTerminal(payloads[i]) && decode(payloads[i]) == Text(add)
  }

  /** A text delta is refused exactly if the detector raises on it after the adjacent text. */
  lemma RaisedAt(decode: Decoder, payloads: seq<string>, i: nat, add: string)
    requires TextAt(decode, payloads, i, add)
    ensures EventAt(decode, payloads, i) ==
      if Raised(AdjacentText(decode, payloads[..i]), add) then RATE_LIMITED else Text(add)
  {
    TailFollowsText(decode, payloads[..i]);
    hide IsRateLimitText, TailOf, RateTail;
  }

  /** Whether the parser refuses the i-th delta just if the text so far has the phrase. */
  ghost predicate DecidedRightly(decode: Decoder, payloads: seq<string>, i: nat, add: string)
    requires i < |payloads|
  {
    EventAt(decode, payloads, i) == RATE_LIMITED <==> IsRateLimitText(AdjacentText(decode, payloads[..i]) + add)
  }

  /** The text before the i-th payload is still free of the phrase. */
  predicate FreeBefore(decode: Decoder, payloads: seq<string>, i: nat)
    requires i < |payloads|
  {
    !IsRateLimitText(AdjacentText(decode, payloads[..i]))
  }

  /** The parser decides a delta as by searching the whole text, in every stream whose
      text is free of the phrase so far, if and only if the delta holds the phrase
      itself or is safe. */
  lemma ParserEqualsNaive(add: string)
    ensures (SafeDelta(add) || IsRateLimitText(add)) <==>
      forall decode, payloads, i: nat :: TextAt(decode, payloads, i, add) && FreeBefore(decode, payloads, i) ==>
        DecidedRightly(decode, payloads, i, add)
  {
    hide IsRateLimitText, SafeDelta, Raised, AdjacentText, EventAt;
    RollingEqualsNaive(add);
    if SafeDelta(add) || IsRateLimitText(add) {
      forall decode, payloads, i: nat | TextAt(decode, payloads, i, add) && FreeBefore(decode, payloads, i)
        ensures DecidedRightly(decode, payloads, i, add)
      {
        RaisedAt(decode, payloads, i, add);
      }
    } else {
      var run :| !IsRateLimitText(run) && Raised(run, add) != IsRateLimitText(run + add);
      var decode := TwoTexts(run, add);
      RaisedInTwo(run, add);
      assert !DecidedRightly(decode, ["1", "2"], 1, add);
      assert TextAt(decode, ["1", "2"], 1, add) && FreeBefore(decode, ["1", "2"], 1);
    }
  }

  /** Payload "1" stands for one delta, any other for another. */
  function TwoTexts(run: string, add: string): Decoder {
    payload => if payload == "1" then Text(run) else Text(add)
  }

  /** A stream of two deltas, the first without the phrase. */
  lemma RaisedInTwo(run: string, add: string)
    requires !IsRateLimitText(run)
    ensures var decode, payloads := TwoTexts(run, add), ["1", "2"];
      && TextAt(decode, payloads, 1, add)
      && AdjacentText(decode, payloads[..1]) == run
      && EventAt(decode, payloads, 1) == (if Raised(run, add) then RATE_LIMITED else Text(add))
  {
    hide IsRateLimitText, Raised, EventAt;
    var decode, payloads := TwoTexts(run, add), ["1", "2"];
    NotDone();
    assert payloads[..1] == ["1"] && Front(["1"]) == [] && Last(["1"]) == "1";
    assert AdjacentText(decode, []) == "" && "" + run == run;
    RaisedAt(decode, payloads, 1, add);
  }

  lemma NotDone()
    ensures !IsTerminal("1") && !IsTerminal("2")
  {}

  /** A delta that is not decided rightly: the last letter of the phrase and 53 more
      characters, after a delta with the rest of the phrase, pass unnoticed. */
  lemma PhraseEscapes() returns (run: string)
    ensures var add := "d" + seq(53, _ => 'x');
      var decode, payloads := TwoTexts(run, add), ["1", "2"];
      && TextAt(decode, payloads, 1, add) && FreeBefore(decode, payloads, 1)
      && EventAt(decode, payloads, 1) == Text(add)
      && IsRateLimitText(AdjacentText(decode, payloads[..1]) + add)
  {
    hide EventAt, AdjacentText, Raised;
    var add := "d" + seq(53, _ => 'x');
    NoPhraseWithoutA(add);
    LastLetter(add);
    run := UnsafeEscapes(add, 1);
    RaisedInTwo(run, add);
  }

  /** No delta is refused unless the adjacent text holds the phrase. */
  lemma NoFalseRefusal(decode: Decoder, payloads: seq<string>, i: nat, add: string)
    requires TextAt(decode, payloads, i, add) && EventAt(decode, payloads, i) == RATE_LIMITED
    ensures IsRateLimitText(AdjacentText(decode, payloads[..i]) + add)
  {
    RaisedAt(decode, payloads, i, add);
    NoFalseAlarm(AdjacentText(decode, payloads[..i]), add);
  }

  /** Every payload is a text delta that is safe; `texts` are their contents. */
  ghost predicate SafeTexts(decode: Decoder, payloads: seq<string>, texts: seq<string>) {
    |texts| == |payloads|
    && forall i: nat :: i < |payloads| ==> TextAt(decode, payloads, i, texts[i]) && SafeDelta(texts[i])
  }

  /** On a stream of safe deltas the parser returns each as it is up to the one at which
      the whole concatenation first holds a phrase, and refuses that one. */
  lemma RefusedExactlyFirst(decode: Decoder, c: Content, texts: seq<string>)
    requires SafeTexts(decode, c.payloads, texts)
    ensures var k, rs := FirstRaised(texts), Results(decode, c, false, "");
      && FirstIn(texts, k) && k <= |texts| < |rs|
      && (forall i :: 0 <= i < k ==> rs[i] == Ev(Text(texts[i])))
      && (k < |texts| ==> rs[k] == Ev(RATE_LIMITED))
  {
    hide Raised, SafeDelta, FirstIn, Dispatch, EventAt;
    RaisedExactlyFirst(texts);
    ResultsShape(decode, c, false, "");
    var k := FirstRaised(texts);
    forall i: nat | i < |texts| && i <= k
      ensures Results(decode, c, false, "")[i] == Ev(if i < k then Text(texts[i]) else RATE_LIMITED)
    {
      ResultsAt(decode, c, false, i);
      TextsBefore(decode, c.payloads, texts, i);
      FirstRaisedAt(texts, i);
      RaisedAt(decode, c.payloads, i, texts[i]);
    }
  }

  /** Up to the first alarm the adjacent text is the concatenation of all deltas. */
  lemma {:induction false} TextsBefore(decode: Decoder, payloads: seq<string>, texts: seq<string>, i: nat)
    requires SafeTexts(decode, payloads, texts) && i <= |texts| && i <= FirstRaised(texts)
    ensures AdjacentText(decode, payloads[..i]) == Concat(texts[..i])
  {
    hide SafeDelta, IsRateLimitText, RateTail, TailOf;
    if i > 0 {
      TextsBefore(decode, payloads, texts, i - 1);
      FirstRaisedAt(texts, i - 1);
      assert TextAt(decode, payloads, i - 1, texts[i - 1]);
      assert Front(payloads[..i]) == payloads[..i - 1] && Last(payloads[..i]) == payloads[i - 1];
      assert Front(texts[..i]) == texts[..i - 1] && Last(texts[..i]) == texts[i - 1];
    }
  }

  // ---- The parser ----

  /** What reading one more line, or the end of input, does to the content. */
  lemma ScanLine(rest: string, data: string)
    ensures rest == "" ==> Scan(Lines(rest), data) == Before(Flushed(data), Content([], Clean))
    ensures rest == "" ==> Scan(Lines(rest), "") == Content([], Clean)
    ensures rest != "" ==>
      var line, more := rest[..LineLength(rest)], Lines(rest[LineLength(rest)..]);
      Scan(Lines(rest), data) ==
        if TooLong(line) then Content([], LongLine)
        else match KindOf(line)
          case Blank => if data == "" then Scan(more, "") else Before(Flushed(data), Scan(more, ""))
          case Ignored => Scan(more, data)
          case Data(d) =>
            if |Extend(data, d)| > MAX_EVENT then Content([], LargeEvent) else Scan(more, Extend(data, d))
  {
    assert Flushed(data) + [] == Flushed(data);
    if rest != "" {
      assert Lines(rest)[1..] == Lines(rest[LineLength(rest)..]);
      var c := Scan(Lines(rest[LineLength(rest)..]), "");
      assert [] + c.payloads == c.payloads;
    }
  }

  lemma ResultsFlush(decode: Decoder, data: string, c: Content, seenTerminal: bool, tail: string)
    requires data != ""
    ensures var (ev, next) := Dispatch(decode, tail, Text.Trim(data));
      Results(decode, Before(Flushed(data), c), seenTerminal, tail)
      == [Ev(ev)] + Results(decode, c, seenTerminal || ev.Terminal?, next)
  {
    assert ([Text.Trim(data)] + c.payloads)[1..] == c.payloads;
  }

  lemma ResultsEnd(decode: Decoder, end: End, seenTerminal: bool, tail: string)
    ensures Results(decode, Content([], end), seenTerminal, tail) == [Stop(EndError(end, seenTerminal))] + []
  {}

  /** SSEParser over a finite input followed by end of input. */
  class Parser {
    const decode: Decoder
    var rest: string
    var data: string
    var seenTerminal: bool
    var aborted: bool
    var textTail: string

    ghost predicate Valid()
      reads this
    {
      !aborted ==> |data| <= MAX_EVENT
    }

    /** The results still to come, before end-of-stream for ever. */
    ghost function Outcome(): seq<Result>
      reads this
    {
      if aborted then [] else Results(decode, Scan(Lines(rest), data), seenTerminal, textTail)
    }

    constructor (decode: Decoder, input: string)
      ensures Valid() && this.decode == decode && !aborted
      ensures Outcome() == Results(decode, Expected(Lines(input)), false, "")
    {
      this.decode := decode;
      rest, data, seenTerminal, aborted, textTail := input, "", false, false, "";
      ScanIsExpected(Lines(input));
    }

    /** The next event or end of the stream. `ctx` is the number of times the context
        may be consulted before it is done, if ever; a done context loses nothing. */
    method ParseContext(ctx: Option<nat>) returns (r: Result)
      requires Valid()
      modifies this`rest, this`data, this`seenTerminal, this`aborted, this`textTail
      ensures Valid()
      ensures old(aborted) ==> r == Stop(EndOfStream) && aborted
      ensures !old(aborted) && r == Stop(Cancelled) ==> ctx.Some? && !aborted && Outcome() == old(Outcome())
      ensures !old(aborted) && r != Stop(Cancelled) ==> old(Outcome()) == [r] + Outcome()
      ensures !old(aborted) && r != Stop(Cancelled) ==> (r.Stop? <==> aborted)
      ensures aborted ==> Outcome() == []
    {
      if aborted {
        return Stop(EndOfStream);
      }
      hide Results, Scan, Lines;
      ghost var content, seen, tail := Scan(Lines(rest), data), seenTerminal, textTail;
      var checks := 0;
      while true
        invariant Valid() && !aborted && seenTerminal == seen && textTail == tail
        invariant Scan(Lines(rest), data) == content
        decreases |rest|
      {
        if ctx == Some(checks) {
          return Stop(Cancelled);
        }
        checks := checks + 1;
        var done := ParseLine();
        if done.Some? {
          return done.value;
        }
      }
    }

    /** Reads one line; gives a result unless the line only adds to the event. */
    method ParseLine() returns (r: Option<Result>)
      requires Valid() && !aborted
      modifies this`rest, this`data, this`seenTerminal, this`aborted, this`textTail
      ensures Valid()
      ensures r.None? ==> !aborted && |rest| < |old(rest)|
      ensures r.None? ==> seenTerminal == old(seenTerminal) && textTail == old(textTail)
      ensures r.None? ==> Scan(Lines(rest), data) == old(Scan(Lines(rest), data))
      ensures r.Some? ==> old(Outcome()) == [r.value] + Outcome()
      ensures r.Some? ==> r.value != Stop(Cancelled) && (r.value.Stop? <==> aborted)
    {
      hide Results, Dispatch, Classify, IsTerminal, Scan, Lines, Extend, Before, Flushed;
      ghost var seen, tail := seenTerminal, textTail;
      ScanLine(rest, data);
      var line := rest[..LineLength(rest)];
      var eof := line == "" || Last(line) != '\n';
      rest := rest[LineLength(rest)..];
      if rest == "" {
        ScanLine(rest, "");
      }
      ghost var next := Scan(Lines(rest), "");
      if |line| > MAX_LINE + 2 {
        data, aborted := "", true;
        ResultsEnd(decode, LongLine, seen, tail);
        return Some(Stop(LineTooLong));
      }
      var trimmed := Text.TrimRight(line, Text.IsLineEnd);
      if trimmed == "" {
        assert KindOf(line) == Blank;
        if |data| > 0 {
          ResultsFlush(decode, data, next, seen, tail);
          r := DispatchData();
          return;
        }
        if eof {
          ScanLine(rest, data);
          ResultsEnd(decode, Clean, seen, tail);
          r := EofFallback();
          return;
        }
        return None;
      }
      var fits := TakeField(line, trimmed);
      hide KindOf;
      if !fits {
        aborted := true;
        ResultsEnd(decode, LargeEvent, seen, tail);
        return Some(Stop(EventTooLarge));
      }
      if eof {
        ScanLine(rest, data);
        if |data| > 0 {
          ResultsFlush(decode, data, next, seen, tail);
          r := DispatchData();
          return;
        }
        ResultsEnd(decode, Clean, seen, tail);
        r := EofFallback();
        return;
      }
      r := None;
    }

    /** Adds the field of a data line to the buffer, unless it grows too large. */
    method TakeField(line: string, trimmed: string) returns (fits: bool)
      requires trimmed == Text.TrimRight(line, Text.IsLineEnd) && trimmed != ""
      requires |data| <= MAX_EVENT
      modifies this`data
      ensures fits <==> |data| <= MAX_EVENT
      ensures KindOf(line).Data? ==> data == Extend(old(data), KindOf(line).field)
      ensures KindOf(line).Ignored? ==> data == old(data)
      ensures !KindOf(line).Blank?
    {
      fits := true;
      if "event:" <= trimmed {
      } else if "data:" <= trimmed {
        var d := Text.Trim(trimmed[5..]);
        if |data| > 0 {
          data := data + "\n";
        }
        data := data + d;
        if |data| > MAX_EVENT {
          fits := false;
        }
      }
    }

    method DispatchData() returns (r: Option<Result>)
      requires |data| > 0 && !aborted
      modifies this`data, this`seenTerminal, this`textTail
      ensures data == ""
      ensures var (ev, next) := Dispatch(decode, old(textTail), Text.Trim(old(data)));
        r == Some(Ev(ev)) && textTail == next && seenTerminal == (old(seenTerminal) || ev.Terminal?)
    {
      var raw := Text.Trim(data);
      data := "";
      if IsTerminal(raw) {
        seenTerminal := true;
        return Some(Ev(Terminal));
      }
      var ev := Classify(decode, raw);
      if ev.Text? {
        textTail := RateTail(textTail, ev.content);
        if IsRateLimitText(textTail) {
          ev := RATE_LIMITED;
        }
      } else {
        textTail := "";
      }
      if ev.Terminal? {
        seenTerminal := true;
      }
      r := Some(Ev(ev));
    }

    method EofFallback() returns (r: Option<Result>)
      requires !aborted
      modifies this`aborted
      ensures aborted && r == Some(Stop(EndError(Clean, seenTerminal)))
    {
      if seenTerminal {
        aborted := true;
        return Some(Stop(EndOfStream));
      }
      aborted := true;
      r := Some(Stop(MissingTerminal));
    }
  }
}
