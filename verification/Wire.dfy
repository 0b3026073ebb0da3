/** What the parser makes of a stream that a server writes, stated over the characters of the
    stream (cosy/sse.go, bearer/sse.go). */
module Wire {
  import opened Prelude
  import opened SseParser
  import Chunks
  import Text

  predicate OneLine(s: string) {
    forall i :: 0 <= i < |s| ==> s[i] != '\n' && s[i] != '\r'
  }

  predicate IsEol(e: string) {
    e == "\n" || e == "\r\n"
  }

  // ---- Single lines ----

  lemma LineEndsTrim(s: string, e: string)
    requires OneLine(s) && (IsEol(e) || e == "")
    ensures Text.TrimRight(s + e, Text.IsLineEnd) == s
  {
    assert Text.All(e, Text.IsLineEnd);
    Text.TrimRightPad(s, e, Text.IsLineEnd);
  }

  /** A line data: gives its field, trimmed, whatever ends it. */
  lemma DataLine(f: string, e: string)
    requires OneLine(f) && (IsEol(e) || e == "")
    ensures KindOf("data:" + f + e) == Data(Text.Trim(f))
  {
    var s := "data:" + f;
    LineEndsTrim(s, e);
    assert s[..5] == "data:" && s[5..] == f;
    assert !("event:" <= s) by {
      assert s[0] == 'd';
    }
  }

  /** Any other non-empty line, among them event: lines, gives nothing. */
  lemma OtherLine(s: string, e: string)
    requires OneLine(s) && s != "" && !("data:" <= s) && (IsEol(e) || e == "")
    ensures KindOf(s + e) == Ignored
  {
    LineEndsTrim(s, e);
  }

  lemma BlankLine(e: string)
    requires IsEol(e) || e == ""
    ensures KindOf(e) == Blank
  {
    LineEndsTrim("", e);
    assert "" + e == e;
  }

  lemma {:induction false} LineLengthIs(a: string, rest: string)
    requires forall i :: 0 <= i < |a| ==> a[i] != '\n'
    ensures LineLength(a + ("\n" + rest)) == |a| + 1
  {
    var s := a + ("\n" + rest);
    if a == "" {
      assert s[0] == '\n';
    } else {
      assert s[1..] == a[1..] + ("\n" + rest);
      LineLengthIs(a[1..], rest);
    }
  }

  /** The first line of a stream. */
  lemma FirstLine(a: string, e: string, rest: string)
    requires OneLine(a) && IsEol(e)
    ensures var s := a + e + rest;
      s != "" && s[..LineLength(s)] == a + e && s[LineLength(s)..] == rest
  {
    var s := a + e + rest;
    if e == "\n" {
      LineLengthIs(a, rest);
      assert s == a + ("\n" + rest);
    } else {
      LineLengthIs(a + "\r", rest);
      assert s == a + "\r" + ("\n" + rest);
    }
  }

  // ---- Steps of the scan ----

  lemma ScanData(f: string, e: string, rest: string, data: string)
    requires OneLine(f) && Text.Trimmed(f) && IsEol(e) && |f| + 6 <= MAX_LINE
    requires |Extend(data, f)| <= MAX_EVENT
    ensures Scan(Lines("data: " + f + e + rest), data) == Scan(Lines(rest), Extend(data, f))
  {
    hide Scan, Lines, KindOf;
    var s := "data: " + f;
    FirstLine(s, e, rest);
    ScanLine(s + e + rest, data);
    assert s + e == "data:" + (" " + f) + e;
    DataLine(" " + f, e);
    Text.TrimUnique(" ", f, "");
    assert " " + f + "" == " " + f;
  }

  lemma ScanOther(s: string, e: string, rest: string, data: string)
    requires OneLine(s) && s != "" && !("data:" <= s) && IsEol(e) && |s| <= MAX_LINE
    ensures Scan(Lines(s + e + rest), data) == Scan(Lines(rest), data)
  {
    hide Scan, Lines, KindOf;
    FirstLine(s, e, rest);
    ScanLine(s + e + rest, data);
    OtherLine(s, e);
  }

  lemma ScanBlank(e: string, rest: string, data: string)
    requires IsEol(e) && data != ""
    ensures Scan(Lines(e + rest), data) == Before(Flushed(data), Scan(Lines(rest), ""))
  {
    hide Scan, Lines, KindOf;
    assert "" + e + rest == e + rest;
    FirstLine("", e, rest);
    ScanLine(e + rest, data);
    BlankLine(e);
  }

  // ---- Whole events ----

  /** The data lines of one event. */
  function FieldLines(fields: seq<string>, e: string): string {
    if fields == [] then "" else "data: " + fields[0] + e + FieldLines(fields[1..], e)
  }

  /** An event as a server writes it: an event: line, its data lines, a blank line. */
  function Frame(name: string, fields: seq<string>, e: string): string {
    "event: " + name + e + FieldLines(fields, e) + e
  }

  /** The payload that the fields stand for. */
  function PayloadOf(fields: seq<string>): string {
    if fields == [] then "" else if |fields| == 1 then fields[0] else fields[0] + "\n" + PayloadOf(fields[1..])
  }

  predicate SendableField(f: string) {
    OneLine(f) && Text.Trimmed(f) && f != "" && |f| + 6 <= MAX_LINE
  }

  predicate Sendable(fields: seq<string>) {
    && fields != [] && (forall i :: 0 <= i < |fields| ==> SendableField(fields[i]))
    && |PayloadOf(fields)| <= MAX_EVENT
  }

  /** The fields come after data that is already buffered. */
  function After(data: string, fields: seq<string>): string {
    if fields == [] then data else if data == "" then PayloadOf(fields) else data + "\n" + PayloadOf(fields)
  }

  lemma AfterStep(data: string, fields: seq<string>)
    requires fields != [] && fields[0] != ""
    ensures After(data, fields) == After(Extend(data, fields[0]), fields[1..])
    ensures |Extend(data, fields[0])| <= |After(data, fields)|
  {
    if |fields| > 1 && data != "" {
      assert data + "\n" + (fields[0] + "\n" + PayloadOf(fields[1..]))
        == data + "\n" + fields[0] + "\n" + PayloadOf(fields[1..]);
    }
  }

  lemma {:induction false} ScanFields(fields: seq<string>, e: string, rest: string, data: string)
    requires IsEol(e) && forall i :: 0 <= i < |fields| ==> SendableField(fields[i])
    requires |After(data, fields)| <= MAX_EVENT
    ensures Scan(Lines(FieldLines(fields, e) + rest), data) == Scan(Lines(rest), After(data, fields))
    decreases |fields|
  {
    hide Scan, Lines, PayloadOf;
    if fields == [] {
      assert FieldLines([], e) + rest == rest;
    } else {
      var f, more := fields[0], FieldLines(fields[1..], e) + rest;
      assert SendableField(fields[0]);
      AfterStep(data, fields);
      ScanData(f, e, more, data);
      ScanFields(fields[1..], e, rest, Extend(data, f));
      assert FieldLines(fields, e) + rest == "data: " + f + e + more;
    }
  }

  lemma {:induction false} PayloadIsTrimmed(fields: seq<string>)
    requires fields != [] && forall i :: 0 <= i < |fields| ==> SendableField(fields[i])
    ensures PayloadOf(fields) != "" && Text.Trimmed(PayloadOf(fields))
    ensures PayloadOf(fields)[0] == fields[0][0]
  {
    assert SendableField(fields[0]);
    if |fields| > 1 {
      PayloadIsTrimmed(fields[1..]);
      var p := PayloadOf(fields[1..]);
      assert PayloadOf(fields)[|PayloadOf(fields)| - 1] == p[|p| - 1];
    }
  }

  lemma ScanFrame(name: string, fields: seq<string>, e: string, rest: string)
    requires IsEol(e) && OneLine(name) && |name| + 7 <= MAX_LINE && Sendable(fields)
    ensures Scan(Lines(Frame(name, fields, e) + rest), "") == Before([PayloadOf(fields)], Scan(Lines(rest), ""))
  {
    hide Scan, Lines;
    var s := "event: " + name;
    var after := FieldLines(fields, e) + (e + rest);
    assert !("data:" <= s) by {
      assert s[0] == 'e';
    }
    ScanOther(s, e, after, "");
    ScanFields(fields, e, e + rest, "");
    PayloadIsTrimmed(fields);
    ScanBlank(e, rest, PayloadOf(fields));
    Text.TrimFixed(PayloadOf(fields));
    assert Frame(name, fields, e) + rest == s + e + after;
  }

  datatype Sent = Sent(name: string, fields: seq<string>)

  ghost predicate AllSendable(events: seq<Sent>) {
    forall i :: 0 <= i < |events| ==>
      OneLine(events[i].name) && |events[i].name| + 7 <= MAX_LINE && Sendable(events[i].fields)
  }

  function Written(events: seq<Sent>, e: string): string {
    if events == [] then "" else Frame(events[0].name, events[0].fields, e) + Written(events[1..], e)
  }

  function SentPayloads(events: seq<Sent>): seq<string> {
    seq(|events|, i requires 0 <= i < |events| => PayloadOf(events[i].fields))
  }

  lemma {:induction false} ScanWritten(events: seq<Sent>, e: string, rest: string)
    requires IsEol(e) && AllSendable(events)
    ensures Scan(Lines(Written(events, e) + rest), "") == Before(SentPayloads(events), Scan(Lines(rest), ""))
    decreases |events|
  {
    hide Lines, Frame, PayloadOf, Sendable, Scan;
    if events == [] {
      assert "" + rest == rest;
    } else {
      var frame, later := Frame(events[0].name, events[0].fields, e), Written(events[1..], e);
      ScanFrame(events[0].name, events[0].fields, e, later + rest);
      ScanWritten(events[1..], e, rest);
      assert Written(events, e) + rest == frame + (later + rest);
      assert SentPayloads(events) == [PayloadOf(events[0].fields)] + SentPayloads(events[1..]);
    }
  }

  /** The parser finds in a written stream exactly the payloads that were sent, in order,
      however many fields each has and whichever line ends are used. */
  lemma WireRoundTrip(events: seq<Sent>, e: string)
    requires IsEol(e) && AllSendable(events)
    ensures Expected(Lines(Written(events, e))) == Content(SentPayloads(events), Clean)
  {
    assert Written(events, e) + "" == Written(events, e);
    ScanIsExpected(Lines(Written(events, e)));
    ScanWritten(events, e, "");
    assert SentPayloads(events) + [] == SentPayloads(events);
  }

  /** A line of more than 64 KiB and its line end stops the parser, after the events before. */
  lemma LongLineStops(events: seq<Sent>, e: string, line: string, rest: string)
    requires IsEol(e) && AllSendable(events) && OneLine(line) && |line| > 0x1_0000 + 2
    ensures Expected(Lines(Written(events, e) + (line + e + rest))) == Content(SentPayloads(events), LongLine)
  {
    hide Scan, Lines;
    ScanIsExpected(Lines(Written(events, e) + (line + e + rest)));
    ScanWritten(events, e, line + e + rest);
    FirstLine(line, e, rest);
    ScanLine(line + e + rest, "");
    assert SentPayloads(events) + [] == SentPayloads(events);
  }

  /** So does a field that makes its event larger than 1 MiB. */
  lemma LargeEventStops(events: seq<Sent>, e: string, fields: seq<string>, f: string, rest: string)
    requires IsEol(e) && AllSendable(events) && Sendable(fields) && SendableField(f)
    requires |PayloadOf(fields)| + 1 + |f| > 0x10_0000
    ensures Expected(Lines(Written(events, e) + (FieldLines(fields, e) + ("data: " + f + e + rest))))
      == Content(SentPayloads(events), LargeEvent)
  {
    hide Scan, Lines, Sendable, PayloadOf;
    var large := "data: " + f + e + rest;
    ScanIsExpected(Lines(Written(events, e) + (FieldLines(fields, e) + large)));
    ScanWritten(events, e, FieldLines(fields, e) + large);
    FieldsAreSendable(fields);
    ScanFields(fields, e, large, "");
    LargeField(f, e, rest, PayloadOf(fields));
    assert SentPayloads(events) + [] == SentPayloads(events);
  }

  lemma FieldsAreSendable(fields: seq<string>)
    requires Sendable(fields)
    ensures fields != [] && forall i :: 0 <= i < |fields| ==> SendableField(fields[i])
    ensures PayloadOf(fields) != "" && |PayloadOf(fields)| <= MAX_EVENT
  {
    PayloadIsTrimmed(fields);
  }

  lemma LargeField(f: string, e: string, rest: string, data: string)
    requires SendableField(f) && IsEol(e) && data != "" && |data| + 1 + |f| > MAX_EVENT
    ensures Scan(Lines("data: " + f + e + rest), data) == Content([], LargeEvent)
  {
    hide Scan, Lines, KindOf;
    var s := "data: " + f;
    FirstLine(s, e, rest);
    ScanLine(s + e + rest, data);
    assert s + e == "data:" + (" " + f) + e;
    DataLine(" " + f, e);
    Text.TrimUnique(" ", f, "");
    assert " " + f + "" == " " + f;
  }

  // ---- Which events they become ----

  lemma TerminalIs(payload: string)
    requires Text.Trimmed(payload)
    ensures IsTerminal(payload) <==> payload == "[DONE]"
  {}

  /** A done marker is the terminal event; another payload is the event it decodes to, except
      for text, which the rate-limit alarm may refuse. */
  lemma EventIs(decode: Decoder, payloads: seq<string>, i: nat)
    requires i < |payloads| && Text.Trimmed(payloads[i])
    ensures payloads[i] == "[DONE]" ==> EventAt(decode, payloads, i) == Terminal
    ensures payloads[i] != "[DONE]" ==>
      || EventAt(decode, payloads, i) == decode(payloads[i])
      || (decode(payloads[i]).Text? && EventAt(decode, payloads, i) == Refusal(429, "rate_limited", None))
  {
    hide RateLimit.IsRateLimitText, TailAfter;
    TerminalIs(payloads[i]);
  }

  /** From the stream as written to the events and the end: one event for each payload sent,
      then end-of-stream if a done marker was among them. */
  lemma WrittenResults(decode: Decoder, events: seq<Sent>, e: string)
    requires IsEol(e) && AllSendable(events)
    ensures var rs := Results(decode, Expected(Lines(Written(events, e))), false, "");
      && |rs| == |events| + 1
      && (forall i :: 0 <= i < |events| ==> rs[i] == Ev(EventAt(decode, SentPayloads(events), i)))
      && ((exists i :: 0 <= i < |events| && events[i].fields == ["[DONE]"]) ==>
            rs[|events|] == Stop(Chunks.EndOfStream))
  {
    var c := Content(SentPayloads(events), Clean);
    WireRoundTrip(events, e);
    ResultsShape(decode, c, false, "");
    forall i | 0 <= i < |events|
      ensures Results(decode, c, false, "")[i] == Ev(EventAt(decode, SentPayloads(events), i))
    {
      ResultsAt(decode, c, false, i);
    }
    hide Results, EventAt;
    if i :| 0 <= i < |events| && events[i].fields == ["[DONE]"] {
      assert c.payloads[i] == "[DONE]";
      EventIs(decode, c.payloads, i);
    }
  }
}
