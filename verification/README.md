# Qoder plugin: verified model

A Dafny model of the stateful core of the Qoder provider plugin, with proofs of what its parts promise.
`dafny verify dfyconfig.toml` checks all of it. Where the Go code updates fields in place, the model is a class
whose methods are proved against a specification function; laws are then proved about that function.

**Streaming pipeline.** Every stage is a handle that is read one chunk at a time and abstracted as the finite
sequence of results it still has to give (`Chunks.Pops`); a stage's specification turns one sequence into another.

- `SseParser`: bytes to events. `Expected` splits the whole input at blank lines; the class reads line by line
  with the two size limits. `Wire` says which events a stream holds that a server wrote, in terms of its
  characters. `RateLimit` is the rolling 96-character phrase detector.
- `Handle`: events to chat chunks, with the finish chunk and the `[DONE]` marker.
- `ToolFallback` recognises tool calls that arrive as text; `FallbackLaws` holds its laws, proved by means of
  `Transducer`, which runs a state machine over a sequence. `Recognition` says over characters which text is
  recognised, however it is cut into deltas.
- `QueueAwait`: the bounded wait-and-reopen loop. `Awaited` says what a reader gets, from the streams that the
  transport opens and the waits that the client cuts short; a recording of every call made, proved true to those
  (`True`) and to a grammar (`Protocol`), carries the bounds.
- `Aggregate`: both aggregators (executor and bearer transport).
- `Pipeline`: parser, handle, fallback and aggregation composed (`EndToEnd`); `Batches` adds the calls of a batch
  that arrived as text, and `AwaitedPipeline` the waiting stage between the responses (`AwaitedEndToEnd`).
- `Completions` goes from the upstream events alone to the calls, reasoning, usage and errors that reach the caller.

**Scheduling.** `LruMap` is the three-part sticky map, proved to answer as a definition over the history of calls
says (`Recall`). `Scheduler` adds quota, cooldown, the weighted draw, and session affinity over runs.

**Concurrent protocols.** `SingleFlight` and `DeviceLogin` are state machines whose steps are the critical sections
of the Go code, with arbitrarily many callers interleaved in any order. `DeviceAnswers` says what each answer of a
device login means over runs, and how long a transaction can be found.

**Codecs.** `BodyCodec` is base64 over a private alphabet (section 4 of RFC 4648) with the outer thirds swapped;
`Pkcs7Cbc` is padding (section 6.3 of RFC 5652) under cipher block chaining (section 6.2 of NIST SP 800-38A);
`Pkcs1` is the encryption block of section 7.2 of RFC 8017 with its bounded entropy loop.

**Catalog.** `Catalog` chooses unique public names; `Registry` stores and resolves them.

`Prelude` and `Text` hold shared vocabulary: options, duplicate-free sequences, trimming.

## Where the code does not meet the law one would expect

Each of these is stated exactly, as a condition for when the law does hold.

- A proper prefix of `Tool calls:` that ends a stream is withheld, never delivered
  (`FallbackLaws.PrefixIsWithheld`). Nothing is withheld if the text does not end in one
  (`FallbackLaws.AllDeliveredIf`). Of a stream in which the marker does not occur and that makes no tool calls,
  exactly the residue of its deltas is withheld, so all is delivered if and only if that is empty
  (`FallbackLaws.WithheldExactly`).
- A rate-limit phrase can escape the parser if a delta brings more than 52 characters after the end of a phrase
  begun before it (`SseParser.PhraseEscapes`); `SseParser.ParserEqualsNaive` gives the exact condition on a delta,
  which every delta of at most 53 characters meets.
- The executor's aggregator drops calls unless the tool indices are 0 to n-1 (`Aggregate.AggregatorsAgree`).
- A queue hint of more than 9223372036 seconds overflows; the wait that follows can be negative, hence within
  every bound (`QueueAwait.HintFitsIff`, `QueueAwait.OverflowingHint`).
- A failed reopening uses up budget but is no attempt. The comment at queue_wait.go:18 calls `maxAttempts` the
  total of `StreamChat` calls. That holds for every caller that stops at its first error, as the executor does
  (executor_aggregate.go:96-101, executor.go:127-143), by `QueueAwait.TotalIfCallerStops`. For callers that may read
  on it holds exactly for the policies that never wait or whose budget pays for fewer one-second waits than there are
  attempts (`QueueAwait.TotalBoundedIff`). The default policy is not one: four calls instead of three
  (`QueueAwait.DefaultExceedsTotal`).
- Cooldown keys join account and model with a colon, so two accounts can share one exactly if one identifier
  continues the other after a colon (`Scheduler.CooldownKeysCollide`).
- A model also resolves by its name without `qoder/` exactly if that name does not look prefixed itself
  (`Registry.BareNameResolves`).
- `pkcs7Pad` stores the count in one byte, so unpadding undoes it exactly if the count is below 256
  (`Pkcs7Cbc.PadRoundTrip`); the 16-byte blocks in use always are.

## Model

| member | source | states |
|---|---|---|
| SseParser.ScanIsExpected | internal/qodertransport/cosy/sse.go:34-86 | the line-by-line parser finds exactly the non-empty groups of data fields between blank lines, joined and trimmed, in order, up to the first line or event over its limit |
| SseParser.Parser.constructor | internal/qodertransport/cosy/sse.go:22-26 | a fresh parser will return the events of the whole-input reference for its bytes |
| SseParser.Parser.ParseContext | internal/qodertransport/cosy/sse.go:34-86 | each call returns the next result of that reference; a done context loses nothing; after an end result every call gives end-of-stream; the call terminates |
| SseParser.Parser.ParseLine | internal/qodertransport/bearer/sse.go:40-79 | one line either leaves the remaining content unchanged or yields the next result; buffered data stays within 1 MiB while the parser lives |
| SseParser.Parser.DispatchData | internal/qodertransport/cosy/sse.go:99-124 | the buffer is cleared, terminal markers recorded and the rolling tail advanced as the dispatch of the trimmed payload says |
| SseParser.ResultsShape | internal/qodertransport/cosy/sse.go:34-96 | one event for each payload, then one end; it is end-of-stream exactly when no limit was broken and a terminal event came before |
| SseParser.FlushedIsPayload | internal/qodertransport/cosy/sse.go:54-76 | the incremental buffer yields a payload exactly when the group of fields joined and trimmed is one, and the same one |
| Wire.WireRoundTrip | internal/qodertransport/cosy/sse.go:34-86 | of any events written as event and data lines and a blank line, with either line end, exactly the payloads sent are found, in order |
| Wire.DataLine | internal/qodertransport/cosy/sse.go:49-65 | a line data: with any text gives a field with that text trimmed |
| Text.TrimIffSpaced | internal/qodertransport/cosy/sse.go:65 | trimming gives t exactly for t with spaces around it, t itself neither starting nor ending with one |
| Text.SpacesAre | internal/qodertransport/cosy/sse.go:65 | the spaces meant are the six ASCII ones of TrimSpace |
| Wire.OtherLine | internal/qodertransport/cosy/sse.go:62-77 | any other non-empty line, event: lines among them, adds nothing |
| Wire.LongLineStops | internal/qodertransport/cosy/sse.go:43-48 | a line longer than 64 KiB and a line end stops the parser after the events written before it |
| Wire.LargeEventStops | internal/qodertransport/cosy/sse.go:66-75 | so does a field that makes its event larger than 1 MiB |
| Wire.EventIs | internal/qodertransport/cosy/sse.go:99-123 | [DONE] is the terminal event, any other payload the event it decodes to; only text may become a refusal |
| Wire.WrittenResults | internal/qodertransport/cosy/sse.go:34-124 | from the written stream to events and end: one event for each payload, and end-of-stream if a done marker was sent |
| SseParser.TailFollowsText | internal/qodertransport/cosy/sse.go:109-120 | over any payloads the parser's tail is the last 96 characters of the adjacent text, interrupted by every event but a done marker |
| RateLimit.TailIsLast | internal/qodertransport/cosy/sse.go:127-134 | the tail stays the last 96 characters of all text of the run |
| RateLimit.TailExact | internal/qodertransport/cosy/sse.go:109-134 | the tail is flagged exactly when a phrase stands within the last 96 characters |
| RateLimit.TextIffPhrase | internal/qodertransport/qoderstream/qoderstream.go:6-10 | text is flagged exactly when one of the two phrases stands somewhere in it, in any ASCII case |
| RateLimit.FlaggedIffRead | internal/qodertransport/qoderstream/qoderstream.go:6-10 | text is flagged exactly when one of the phrases can be read in it letter by letter, whichever letters are capitals |
| RateLimit.ShortIsSafe | internal/qodertransport/cosy/sse.go:127-134 | a delta of at most 53 characters is safe: it brings at most 52 after any phrase end it could complete |
| SseParser.RaisedAt | internal/qodertransport/cosy/sse.go:99-124 | in any stream, the parser refuses a text delta exactly if the phrase is in the delta itself or in the last 96 characters of the adjacent text with it |
| SseParser.ParserEqualsNaive | internal/qodertransport/cosy/sse.go:109-134 | the parser decides a delta as by searching the whole adjacent text, in every stream free of the phrase so far, if and only if the delta holds the phrase itself or is safe |
| SseParser.PhraseEscapes | internal/qodertransport/cosy/sse.go:127-134 | a two-delta stream in which the whole text has the phrase and the parser returns both deltas as text |
| SseParser.NoFalseRefusal | internal/qodertransport/cosy/sse.go:109-124 | no delta is refused as rate-limited unless the adjacent text with it has the phrase |
| SseParser.RefusedExactlyFirst | internal/qodertransport/bearer/sse.go:92-117 | of any safe deltas the parser returns each as it is, up to the one at which the concatenation first has a phrase, and refuses that one |
| Handle.EventHandle.ReadChunk | internal/qodertransport/adapters.go:141-184 | each read gives the next chunk of what the remaining parser results deliver; a done context loses nothing |
| Handle.EventHandle.EventChunk | internal/qodertransport/adapter_events.go:8-97 | events become chunks, unknown events none, a refusal its error; only a terminal event sets the terminal flag |
| ToolFallback.TextToolFallback.ReadChunk | internal/qodertransport/text_tool_fallback.go:55-199 | each read gives the next result of the specified output stream; results already read from the inner handle are never lost or reread |
| ToolFallback.TextToolFallback.TakeQueued | internal/qodertransport/text_tool_fallback.go:56-65 | queued chunks come first, then the saved error |
| ToolFallback.TextToolFallback.Process | internal/qodertransport/text_tool_fallback.go:71-138 | one inner result moves the state and queues output as the specified step does |
| ToolFallback.TextToolFallback.ProcessText | internal/qodertransport/text_tool_fallback.go:141-198 | the same for a text delta, in each of the three states |
| ToolFallback.TextToolFallback.constructor | internal/qodertransport/text_tool_fallback.go:48-53 | a fresh fallback will deliver the outputs, under the parse of buffered text by the given decoder, for all that the inner handle holds |
| ToolFallback.BuildToolCallChunks | internal/qodertransport/text_tool_fallback_format.go:8-26 | one chunk for each call, in order, carrying its index |
| ToolFallback.TryParseToolCalls | internal/qodertransport/text_tool_fallback_parse.go:28-33 | a successful parse has 1 to 128 calls |
| ToolFallback.ParsesBare | internal/qodertransport/text_tool_fallback_parse.go:16-33 | of a bare array with spaces around it, exactly the array is decoded, with or without the marker before it, and the parse is the decoded calls if they are 1 to 128 |
| ToolFallback.ParsesFenced | internal/qodertransport/text_tool_fallback_parse.go:17-24 | of a fenced block exactly the trimmed inside is decoded, whatever follows the closing fence |
| ToolFallback.ParsesUnclosed | internal/qodertransport/text_tool_fallback_parse.go:17-24 | of a block whose fence is not closed all the rest is decoded, trimmed |
| Recognition.Accumulates | internal/qodertransport/text_tool_fallback.go:163-191 | while the text read is a prefix of marker, cut spaces and an opening bracket or backtick with anything after it, and does not parse, it is held: idle until the marker is complete, then buffering |
| Recognition.BatchIsRecognised | internal/qodertransport/text_tool_fallback.go:155-187 | marker, cut spaces and text opening with a bracket or a backtick, in any non-empty deltas of which only the whole parses, deliver exactly the chunks of the calls |
| Recognition.OtherIsReleased | internal/qodertransport/text_tool_fallback_parse.go:8-14 | marker, cut spaces and any other character, unparsed, are released as one text with the delta that brings that character |
| ToolFallback.HeldAlways | internal/qodertransport/text_tool_fallback.go:173-197 | in every reachable state held idle text is an unparsed proper prefix of the marker, buffered text starts with the marker and is unparsed, and tool mode keeps at most such a prefix |
| FallbackLaws.Conservation | internal/qodertransport/text_tool_fallback.go:55-199 | before any tool call, delivered text followed by held text is exactly the text read, in order, and every other result passes in order |
| FallbackLaws.WholeStreamText | internal/qodertransport/text_tool_fallback.go:70-102 | over a whole stream without tool calls all text is delivered but for at most 10 characters of the marker |
| FallbackLaws.PrefixIsWithheld | internal/qodertransport/text_tool_fallback.go:119-134 | a stream of the one delta "Too" and a finish chunk delivers no text |
| FallbackLaws.AllDeliveredIf | internal/qodertransport/text_tool_fallback.go:185-192 | without tool calls, all text is delivered if it does not end in a non-empty proper prefix of the marker |
| FallbackLaws.WithheldExactly | internal/qodertransport/text_tool_fallback.go:173-197 | of a stream without the marker and tool calls exactly the residue of its deltas is withheld, so nothing if and only if that is empty |
| FallbackLaws.BoundaryWithholds | internal/qodertransport/text_tool_fallback.go:71-134 | at a finish chunk, done marker or error, text stays behind if and only if some is held outside buffering, and then none is delivered |
| FallbackLaws.BoundaryFlush | internal/qodertransport/text_tool_fallback.go:71-129 | an error, done marker or finish chunk that interrupts buffering follows right after the flushed text |
| FallbackLaws.ToolModeEntry | internal/qodertransport/text_tool_fallback.go:110-187 | tool mode is entered exactly on a native tool chunk, or on text that completes a parse and does not overflow while buffering |
| FallbackLaws.BatchShape | internal/qodertransport/text_tool_fallback_format.go:8-26 | a parsed batch gives 1 to 128 chunks indexed 0 to n-1 in order, each holding its call |
| FallbackLaws.ToolModeRun | internal/qodertransport/text_tool_fallback.go:119-143 | tool mode is absorbing: from there text is discarded and all else passes in order with finish reason tool_calls |
| FallbackLaws.ToolModeSplit | internal/qodertransport/text_tool_fallback.go:110-187 | a stream that reaches tool mode splits at the entering read into conserved text before and tool-only output after |
| FallbackLaws.ToolModeIsForGood | internal/qodertransport/text_tool_fallback.go:110-199 | after the first tool chunk of any output stream no text comes, and every finish chunk says tool_calls |
| FallbackLaws.BufferBounded | internal/qodertransport/text_tool_fallback.go:145-197 | after any input the buffer is at most the larger of 4 MiB and 10 plus the largest delta |
| QueueAwait.QueueAwaitHandle.ReadChunk | queue_wait.go:75-115 | each read gives the next result of the awaited stream: the open stream's results untouched, except that a refusal worth waiting for gives way to the failure of the wait or reopening or to the next stream; the recording stays allowed and true, and the call terminates |
| QueueAwait.QueueAwaitHandle.AfterError | queue_wait.go:81-113 | an error not worth waiting for is returned as it is; else the stream goes on with what the wait and reopening give |
| QueueAwait.QueueAwaitHandle.Delay | queue_wait.go:82-102 | waits exactly for a queue refusal with a usable hint, before any chunk, within all three bounds |
| QueueAwait.QueueAwaitHandle.WaitAndReopen | queue_wait.go:103-113 | the old stream is cancelled; the wait ends as the client has it, and only if it is completed the transport is called once and its stream or error taken |
| QueueAwait.OpenAwaiting | queue_wait.go:62-73 | the first opening is made once and not retried; its handle owes the awaited stream of the transport's and client's behaviour from then on |
| QueueAwait.StartedPasses | queue_wait.go:79-84 | after the first chunk the handle passes everything on untouched |
| QueueAwait.HintPrecedence | queue_wait.go:85-98 | the hint is retry-after if positive, else the wait time if positive, and only a structured queue refusal has one |
| QueueAwait.WaitsIffAffordable | queue_wait.go:82-113 | in seconds: a refusal with a hint is waited for exactly before any chunk, with attempts left, within the cap and what is left of the budget, and for exactly the hinted time |
| QueueAwait.OneStream | queue_wait.go:75-115 | a caller that stops at the first error sees one of the opened streams, whole, those before it having been refused at once, or the failure of a wait or opening |
| QueueAwait.ReopenNeedsWait | queue_wait.go:75-115 | in every trace each reopening comes straight after a refusal worth waiting for, the cancelling of the old stream and a completed wait, with no chunk delivered before |
| QueueAwait.AttemptsBounded | queue_wait.go:89-113 | successful openings equal the attempts counted and never exceed max(1, maxAttempts) |
| QueueAwait.OpensAreAttempts | queue_wait.go:108-113 | all calls are the successful ones and the failed ones, so they equal the attempts if and only if none failed |
| QueueAwait.TotalIfCallerStops | queue_wait.go:15-20 | for a caller that stops at its first error, maxAttempts bounds all StreamChat calls |
| QueueAwait.TotalBoundedIff | queue_wait.go:15-20 | for callers that may read on, it bounds them, under fitting hints, if and only if the policy allows one attempt, no whole second of waiting, or fewer seconds of budget than attempts |
| QueueAwait.DefaultExceedsTotal | queue_wait.go:22-29 | under the default policy a caller that reads on can make four calls |
| QueueAwait.WaitsBounded | queue_wait.go:99-107 | each wait and the counted total stay within their bounds, even if hints overflow |
| QueueAwait.TrueWaitBounded | queue_wait.go:99-107 | if hints fit, the counted total is the true total, at least one second for each wait and at most the budget |
| QueueAwait.OpensBounded | queue_wait.go:100-113 | at most 1 + budget/1s openings are made, failed ones included |
| QueueAwait.HintFitsIff | queue_wait.go:92-99 | a positive hint converts to a duration without overflow if and only if it is at most 9223372036 seconds |
| QueueAwait.OverflowingHint | queue_wait.go:99-102 | the next larger hint turns into a negative wait that every bound lets through |
| Aggregate.AggregateChat | executor_aggregate.go:80-137 | the outcome is that of the specification: complete exactly at a done marker, else the first error or the incomplete-stream error |
| Aggregate.Aggregator.Apply | executor_aggregate.go:139-167 | text and reasoning accumulate in order, usage and finish are the last given, and the tool table holds per-index concatenated arguments and last non-empty ID and name |
| Aggregate.Aggregator.Finish | executor_aggregate.go:117-136 | lists the calls found at 0 to n-1 and estimates tokens only if none were reported |
| Aggregate.TabulatesSnoc | executor_aggregate.go:152-165 | merging one delta keeps the table equal to the per-index definition over all deltas, however they interleave |
| Aggregate.FragmentsJoin | executor_aggregate.go:152-165 | a call that comes in fragments, however interleaved with others, gets the arguments of its own fragments in order and the last identifier and name that any of them gives |
| Aggregate.CollectStream | internal/qodertransport/bearer/aggregate.go:21-122 | gathers exactly the events before the end of its parser's results and fails on a refusal or any other error, or because the context is done |
| Aggregate.ListInOrder | internal/qodertransport/bearer/aggregate.go:101-113 | lists the tabled call of each index, in the order given |
| Aggregate.SortInts | internal/qodertransport/bearer/aggregate.go:96-100 | the keys in ascending order, which is unique by Aggregate.AscendingUnique |
| Aggregate.AggregatorsAgree | executor_aggregate.go:117-121 | for any deltas the two aggregators list the same calls if and only if the indices are 0 to n-1; otherwise the executor's list is strictly shorter |
| Aggregate.InOrderIfContiguous | internal/qodertransport/bearer/aggregate.go:95-113 | for such deltas call i is the per-index definition at i |
| Pipeline.HandleShape | internal/qodertransport/adapters.go:119-184 | for every sequence of parser results a handle delivers body chunks and then finish, done and nothing more, or stops at an error |
| Pipeline.HandleFinishes | internal/qodertransport/adapters.go:141-184 | the stream finishes exactly if a terminal event precedes every refusal and the end; its text is then the text of the events before it |
| Pipeline.FallbackShape | internal/qodertransport/text_tool_fallback.go:55-199 | the fallback keeps that shape, finishes exactly when its input does and ends in the same way |
| Pipeline.WholeStreamShape | internal/qodertransport/adapters.go:119-184 | the same for handle and fallback together, for every sequence of events |
| Pipeline.ToolModeTextIsPrefix | internal/qodertransport/text_tool_fallback.go:110-187 | in tool mode the delivered text is a prefix of the text received |
| Pipeline.EndToEnd | executor_aggregate.go:80-137 | aggregation of the whole pipeline succeeds exactly on finished streams; the content plus what is withheld is the text of the events; the finish reason is stop or, in tool mode only, tool_calls |
| Batches.BatchEndToEnd | internal/qodertransport/text_tool_fallback.go:145-187 | if a batch arrives as text and no native tool chunk follows, the completion's calls are exactly the parsed ones, its content is the text before the batch, and the finish reason is tool_calls |
| Batches.BatchIsReported | executor_aggregate.go:117-165 | tabulating the deltas of any batch and listing them gives its calls back |
| Completions.CompletionOfEvents | executor_aggregate.go:80-137 | from the events before the terminal one: the calls are tabulated from the recognised batch and the tool events, the reasoning is that of the reasoning events, and the usage the last reported or else the estimate of content, reasoning and each call |
| Completions.NativeCallsOnly | internal/qodertransport/adapter_events.go:53-73 | without a recognised batch the calls come from the tool events alone |
| Completions.FailureOfEvents | internal/qodertransport/adapter_events.go:83-93 | aggregation fails exactly if no terminal event comes first; a refusal gives its own code, category and queue |
| Completions.HandleKeeps | internal/qodertransport/adapter_events.go:8-106 | the handle passes on every tool delta, all reasoning and the last usage, in order |
| Completions.FallbackKeeps | internal/qodertransport/text_tool_fallback.go:55-199 | the fallback passes them on too, and adds only the deltas of the batch it recognises, before any native one |
| Completions.CollectedMeans | internal/qodertransport/bearer/aggregate.go:21-122 | the bearer aggregator gathers text, reasoning and the last usage of the events, and a call for each index of the tool events, in the order of the indices |
| Completions.CollectsToEnd | internal/qodertransport/bearer/aggregate.go:30-76 | it gathers all events up to end-of-stream, even after a terminal one, unless a refusal or another error comes before |
| AwaitedPipeline.AwaitedEndToEnd | queue_wait.go:62-115 | aggregation behind the waiting stage is that of one response, after those before it were refused at once: complete exactly if that response finishes, with its text; else it fails with that stream's error or that of the wait or opening after it |
| LruMap.Lru.Lookup | scheduler_state.go:142-148 | the answer is the one defined by the history: the last value set, if fewer than the capacity of other keys were used since |
| LruMap.Lru.Store | scheduler_state.go:150-163 | map, order and index stay in agreement with the history extended by the call |
| LruMap.Lru.Append | scheduler_state.go:155-162 | a new key goes last; what makes room is the front of the order alone |
| LruMap.Lru.Touch | scheduler_state.go:165-178 | the key moves to the end, every other keeps its rank, and the index is that of the new order |
| LruMap.Lru.EvictOldest | scheduler_state.go:180-192 | exactly the first key of the order leaves all three structures |
| LruMap.TouchRanks | scheduler_state.go:165-178 | touching keeps every rank equal to the number of different keys used since |
| LruMap.AppendRanks | scheduler_state.go:150-163 | so does appending with eviction, and the kept keys are again exactly the recent ones |
| LruMap.EvictedIsOld | scheduler_state.go:180-192 | the evicted key is one with at least capacity other keys used since its last use |
| LruMap.RecallIfYoung | scheduler_state.go:142-163 | in any history a key keeps its latest value while fewer than capacity others are used since |
| Scheduler.SchedulerState.SchedulerPick | scheduler.go:44-83 | every pick is an allowed step: sticky account if eligible, else weighted draw, else highest priority, with the binding renewed |
| Scheduler.SchedulerState.FilterEligible | scheduler.go:115-153 | keeps exactly the non-blank own candidates neither cooling for the model nor freshly exhausted, in order |
| Scheduler.SchedulerState.QuotaWeightedPick | scheduler.go:185-214 | no account exactly if no candidate has a fresh snapshot; else the holder in whose share of all remaining quota the draw falls |
| Scheduler.DrawFrom | scheduler.go:205-213 | the loop returns from within: the tail return is not reached |
| Scheduler.DrawPartition | scheduler.go:191-214 | every draw below the total falls in exactly one item's interval, whose length is the item's weight |
| Scheduler.HoldersMember | scheduler.go:193-197 | the accounts drawn from are exactly the candidates with a snapshot at most 300 seconds old |
| Scheduler.ItemsAreHolders | scheduler.go:193-201 | the items of the draw are those candidates, in order, each with max(remaining, 0) + 0.1 for its weight |
| Scheduler.DrawsAreShares | scheduler.go:198-211 | each draw in [0, 1) picks exactly one of them, and the draws that pick it form an interval of length (max(remaining, 0) + 0.1) over the sum of those terms |
| Scheduler.FreshChoiceMeans | scheduler.go:64-83 | a choice without a usable binding is the drawn holder of a snapshot or, if there is none, a candidate that none exceeds in priority, and nothing else |
| Scheduler.UnboundPick | scheduler.go:44-83 | a pick for a request without a session, or whose bound account is not eligible, is such a choice |
| Scheduler.StickyKeyIsSession | scheduler.go:168-181 | two requests have the same key exactly if they are in the same session: that of the conversation header, else the session header, else the conversation in the metadata |
| Scheduler.SchedulerState.NoteFailure | scheduler.go:89-102 | only a queue refusal for a named account and model starts a cooldown, of the hinted length if hinted |
| Scheduler.SchedulerState.SetQuota | scheduler_state.go:62-67 | notes the snapshot for its account and leaves everything else as it was |
| Scheduler.SchedulerState.FindCandidate | scheduler.go:156-163 | finds a candidate of that identifier exactly if there is one |
| Scheduler.PickIsSafe | scheduler.go:44-83 | a pick names an eligible candidate of the request, and delegation happens exactly if there is none; quota and cooldown are untouched |
| Scheduler.TablesHoldTheLast | scheduler_state.go:62-103 | over runs, the quota and cooldown tables hold for each key what was noted last, whatever came in between |
| Scheduler.RunsPickSafely | scheduler.go:44-83 | in every run each pick names a non-blank own candidate whose last noted cooldown is over and whose last report, if at most five minutes old, is not exhaustion; delegation happens exactly if the request has none |
| Scheduler.Affinity | scheduler.go:54-81 | over runs with any interleaved updates, picks of one session give one account while it stays eligible and fewer than 1024 other sessions are used |
| Scheduler.CooldownKeysCollide | scheduler_state.go:106-108 | two accounts can share a cooldown if and only if one identifier continues the other after a colon |
| SingleFlight.InvNext | internal/qoderauth/refresh.go:74-96 | every interleaved step keeps the invariant of calls, records and the in-flight table |
| SingleFlight.OneLeaderPerKey | internal/qoderauth/refresh.go:74-96 | in any run at most one call runs fn for an auth ID |
| SingleFlight.EnterLeadsIff | internal/qoderauth/refresh.go:75-83 | a call runs fn itself exactly if no other call is at work on its auth ID; else it waits on that call's record |
| SingleFlight.LedIffFinished | internal/qoderauth/refresh.go:92-95 | a leader carries and returns exactly what its own fn gave |
| SingleFlight.DeleteIsOwn | internal/qoderauth/refresh.go:85-95 | a leader always deletes its own record |
| SingleFlight.ClosedIsFinal | internal/qoderauth/refresh.go:66-96 | a result never changes after done closes |
| SingleFlight.ReturnedIsFinal | internal/qoderauth/refresh.go:74-96 | what a call has returned stays what it is |
| SingleFlight.FollowerStays | internal/qoderauth/refresh.go:76-82 | at every later time a follower waits on the record it joined or has returned from it |
| SingleFlight.FollowerGetsWhatItJoined | internal/qoderauth/refresh.go:76-96 | a follower that returns has the result that the leader of the record it once joined got from fn, or the zero result if fn panicked |
| SingleFlight.EveryCallGetsItsLeadersResult | internal/qoderauth/refresh.go:76-96 | every returned call has what the leader of the record it joined got from fn, or the zero result if fn panicked |
| SingleFlight.SomeCallCanStep | internal/qoderauth/refresh.go:74-96 | no reachable state is stuck while a call has not returned |
| SingleFlight.StepsUseWork | internal/qoderauth/refresh.go:74-96 | every step but a new arrival uses up work, so calls that arrived do end |
| DeviceLogin.InvNext | internal/qoderauth/oauth.go:151-241 | every interleaved step of pollers, insertion and cancelling keeps the invariant |
| DeviceLogin.TerminalIsFinal | internal/qoderauth/oauth.go:160-240 | status leaves pending at most once, and then status and credential stay |
| DeviceLogin.NoPollAfterTerminal | internal/qoderauth/oauth.go:157-183 | no upstream poll is under way for a transaction that is no longer pending |
| DeviceLogin.OnePollAtATime | internal/qoderauth/oauth.go:157-183 | two pollers never poll upstream for one transaction at once |
| DeviceLogin.SameCredential | internal/qoderauth/oauth.go:160-213 | all success answers for a transaction carry one credential |
| DeviceLogin.CredentialWasIssued | internal/qoderauth/oauth.go:194-213 | that credential was issued upstream to a poll for this very transaction |
| DeviceLogin.GoneOnceReleased | internal/qoderauth/store.go:36-40 | once the terminating poll has released its lock the store never holds the ID again |
| DeviceAnswers.StoredUntilDropped | internal/qoderauth/store.go:23-40 | from its login on a transaction is in the store under its own ID exactly until it is cancelled or deleted by the poll that ended it |
| DeviceAnswers.PendingIsStored | internal/qoderauth/oauth.go:141-155 | in every run a transaction that is pending and whose ID has not been cancelled since its login is in the store |
| DeviceAnswers.PendingIsFound | internal/qoderauth/oauth.go:152-155 | so a poll that looks it up finds it |
| DeviceAnswers.AnsweredIff | internal/qoderauth/oauth.go:152-241 | a poll has an answer exactly if the action that decides on it happened: Unknown on a failed lookup, Expired on a check past the deadline, StillPending on a not-yet response, Granted on its own token or on a check of a successful transaction |
| DeviceAnswers.UnknownMeans | internal/qoderauth/oauth.go:152-155 | a poll is answered Unknown only if every login under its ID had been cancelled or had ended when it asked |
| DeviceAnswers.TokenIsGranted | internal/qoderauth/oauth.go:194-213 | a token given to a poll is always granted, to it and to every later check of the transaction |
| DeviceAnswers.GrantedMeans | internal/qoderauth/oauth.go:160-213 | a credential is granted only if a token with it had arrived, for that poll or, before its check, for another of the same transaction |
| DeviceAnswers.EndedIff | internal/qoderauth/oauth.go:167-240 | a transaction is terminal with a status and credential exactly if an expired check, a token or a denial made it so |
| DeviceLogin.SomePollerCanStep | internal/qoderauth/oauth.go:151-241 | no reachable state is stuck while a poller has no answer |
| Catalog.SearchSuffix | model_provider.go:108-113 | the unbounded search ends within one more try than there are names, at the least free suffix |
| Catalog.TriedCard | model_provider.go:108-113 | the names tried are pairwise different, whatever spaces the internal ID holds |
| Catalog.UniquePublicModelID | model_provider.go:96-114 | display name if free, else internal ID, else least free suffix; blank for a blank name |
| Catalog.NamesInParts | model_provider.go:55-63 | whatever spaces surround them, the internal ID is the upstream one without the provider prefix, the display name is the upstream name or else the ID, and the public name is qoder/ and that name |
| Catalog.ListedUnderItsName | model_provider.go:63-75 | each model is listed under its upstream name, or its internal ID if that is blank, with qoder/ and that name for public ID unless an earlier listing has it, then its internal ID, then that with the least free number |
| Catalog.NewNameIsFree | model_provider.go:60-69 | the name given to a new internal ID overwrites no entry |
| Catalog.BuildCatalog | model_provider.go:51-83 | lists the first of each non-blank internal ID in order, each under a name not taken before, with matching tables |
| Catalog.OneToOne | model_provider.go:51-83 | public and internal IDs are in one-to-one correspondence and the mapping holds exactly the listings |
| Catalog.SourcesAreFirsts | model_provider.go:55-63 | no upstream model with a non-blank internal ID goes unlisted |
| Catalog.SourcesInOrder | model_provider.go:54-62 | each listed model is the first upstream with its internal ID, and they keep their order |
| Registry.ModelRegistry.StoreCatalog | model_registry.go:38-59 | replaces the snapshot of one account, trimmed; a blank account changes nothing |
| Registry.ModelRegistry.ResolveRecord | model_registry.go:71-92 | exact name first, then with the provider prefix removed or added |
| Registry.BuildSnapshot | model_registry.go:46-55 | each non-blank entry, and nothing else, has its record |
| Registry.SnapshotIsExact | model_registry.go:46-55 | no listing is lost or overwritten by trimming |
| Registry.ListedResolves | model_registry.go:71-92 | every listed public ID resolves to its own internal ID and metadata |
| Registry.BareNameResolves | model_registry.go:83-89 | without the prefix it still does, if and only if the rest does not look prefixed |
| Registry.LooksPrefixedIff | model_registry.go:84-85 | a name looks prefixed exactly when its first six characters read qoder/, in capitals or not |
| Registry.OtherCaseResolves | model_registry.go:83-86 | a listed ID also resolves with a second prefix before it that has capitals |
| Registry.PublishModels | model_provider.go:47-85 | after publishing, every listing resolves to itself for the account asked for or, if that is blank, the one derived from the user's digest |
| BodyCodec.BodyRoundTrip | internal/qodertransport/cosy/encoding.go:18-33 | decoding undoes encoding for every byte sequence; the output has 4*ceil(n/3) characters |
| BodyCodec.BodyExact | internal/qodertransport/cosy/encoding.go:25-44 | decoding gives x exactly for what is, after swapping and dropping line breaks, the encoding of x |
| BodyCodec.DecodeExact | internal/qodertransport/cosy/encoding.go:9-15 | for every such alphabet, strict decoding accepts the one canonical encoding of each byte sequence and nothing else |
| BodyCodec.SextetsAreDigits | internal/qodertransport/cosy/encoding.go:15-22 | the four sextets of three bytes are the base-64 digits of the 24-bit number they form |
| BodyCodec.GroupIsNumber | internal/qodertransport/cosy/encoding.go:9-15 | three bytes become the four characters whose places in the alphabet are the base-64 digits of their 24-bit number; a shorter group is that of zero bytes after it, with padding for the characters without bits |
| BodyCodec.EncodeAppends | internal/qodertransport/cosy/encoding.go:18-20 | whole groups are encoded on their own, so a text of any length is the encodings of its groups in order |
| BodyCodec.BreaksAreDropped | internal/qodertransport/cosy/encoding.go:25-28 | decoding drops line feeds and carriage returns wherever they stand and keeps every other character in order |
| BodyCodec.EncodeAlphabet | internal/qodertransport/cosy/encoding.go:9-15 | the output is over the private alphabet, with padding only at the end |
| BodyCodec.AlphabetIsUsable | internal/qodertransport/cosy/encoding.go:9-15 | the private alphabet is 64 different characters, without padding or line breaks, as a base64 encoding needs |
| BodyCodec.SwapIsInvolution | internal/qodertransport/cosy/encoding.go:47-54 | swapping the outer thirds is a length-preserving permutation and its own inverse, for every length |
| BodyCodec.SwapsOuterThirds | internal/qodertransport/cosy/encoding.go:47-54 | a + b + c becomes c + b + a, if a and c are each a third of the length, rounded down |
| Pkcs7Cbc.Pkcs7Pad | internal/qodertransport/cosy/crypto.go:133-141 | the plaintext and then 1 to blockSize bytes up to whole blocks, each the low byte of their number |
| Pkcs7Cbc.Pkcs7Unpad | internal/qodertransport/cosy/crypto.go:143-157 | succeeds with x exactly if the data is whole blocks ending in a well-formed count after x; each error exactly in its case, a mismatch at its first place |
| Pkcs7Cbc.UnpadExact | internal/qodertransport/cosy/crypto.go:133-157 | for block sizes below 256, unpadding succeeds with x if and only if the data is the padding of x |
| Pkcs7Cbc.PadRoundTrip | internal/qodertransport/cosy/crypto.go:133-157 | for any block size, unpadding undoes padding if and only if the count fits a byte |
| Pkcs7Cbc.ChainAt | internal/qodertransport/cosy/crypto.go:114-117 | output block j encrypts plaintext block j masked by output block j-1, the key's first 16 bytes standing before the first |
| Pkcs7Cbc.BitsXorBit | internal/qodertransport/cosy/crypto.go:115 | bit k of the mask of two bytes is set exactly if their bits k differ |
| Pkcs7Cbc.EncryptedAt | internal/qodertransport/cosy/crypto.go:108-117 | block j of the ciphertext is the cipher applied to a block that differs from plaintext block j in exactly the bits set in ciphertext block j-1, or in the key for j = 0 |
| Pkcs7Cbc.MaskIsUnique | internal/qodertransport/cosy/crypto.go:115 | there is only one such block |
| Pkcs7Cbc.AesCbcEncrypt | internal/qodertransport/cosy/crypto.go:108-117 | chains the padded plaintext; fails exactly on a key length AES does not have |
| Pkcs7Cbc.AesCbcDecrypt | internal/qodertransport/cosy/crypto.go:120-131 | for any invertible block cipher, succeeds with x if and only if the input is the encryption of x |
| Pkcs7Cbc.EncryptInjective | internal/qodertransport/cosy/crypto.go:108-117 | one key encrypts no two plaintexts alike |
| Pkcs1.DrawPadding | internal/qodertransport/cosy/crypto.go:172-189 | stops at the first read that fails, is the 1025th zero in a row or completes the padding; at most 1025 reads for each position; the padding is the non-zero bytes read, in order |
| Pkcs1.KeptInOrder | internal/qodertransport/cosy/crypto.go:174-189 | each non-zero byte read stands in the padding at the place given by the number of non-zero bytes read before it, and nothing else does |
| Pkcs1.RsaEncryptPkcs1v15 | internal/qodertransport/cosy/crypto.go:164-199 | too-long messages fail before any read; else the ciphertext has exactly the key's size and is the power of the block 00 02 PS 00 M with at least 8 non-zero bytes PS |
| Pkcs1.RecoveredExact | internal/qodertransport/cosy/crypto.go:168-191 | scanning for the first zero gives M exactly for the blocks framed that way |
| Pkcs1.LeftPadKeeps | internal/qodertransport/cosy/crypto.go:193-198 | left padding keeps the integer and gives exactly the size |
| Pkcs1.ValueAppends | internal/qodertransport/cosy/crypto.go:193 | integers are read big-endian: a string counts for its front times 256 to the length of the rest, and the rest |
| Pkcs1.BlockInRange | internal/qodertransport/cosy/crypto.go:168-193 | the block is an integer below the modulus |
| Pkcs1.Deciphered | internal/qodertransport/cosy/crypto.go:164-199 | whoever inverts the power reads the message back from the ciphertext |

## Left out

- JSON: payload and tool-call decoding are arbitrary functions of their text, so every law holds for any decoder; encoding of chunks, and chunk `id`, `model` and `created`, are not part of this model.
- Text is a sequence of characters, and limits count characters where the code counts bytes: UTF-8, Unicode spaces beyond ASCII, and case folding beyond ASCII are not modelled.
- SseParser.Parser.constructor: the reader is a finite input followed by end-of-file; other read errors, and streams that never end, are not modelled. The `event:` field is recognised and ignored, as the code never uses its value.
- SseParser.Parser.ParseContext: a context that is done is modelled by the number of times it may still be consulted.
- The cosy classifier's envelope and status codes, and the bearer classifier's finish reason, are part of the arbitrary decoder; the per-delta phrase check of both is modelled.
- ToolFallback.TextToolFallback.ReadChunk: the recursion after discarded or buffered text is a loop here; `Process` and `ProcessText` split the Go method, as `AfterError` and `WaitAndReopen` split that of the waiting handle.
- Aggregate.Aggregator.Apply: a chunk carries at most one choice, as every producer in the repository makes them, and no identifier or model name.
- Aggregate.CollectStream: the completion's identifiers and finish reason are not modelled.
- QueueAwait.QueueAwaitHandle.ReadChunk: a cancelled stream may go on giving any results; the handle's own Cancel is not modelled.
- Scheduler.SchedulerState.SchedulerPick: one clock value is used for a whole pick, and one caller at a time; sorting is modelled as choosing some candidate of highest priority, ties being open in Go as well.
- Scheduler.DrawPartition: weights and draws are reals; floating-point rounding and NaN, for which the tail return is there, are not modelled.
- SingleFlight.InvNext and DeviceLogin.InvNext: steps are whole critical sections; the Go memory model below them is not modelled. Transaction IDs, 128-bit random values in the code, are taken to be fresh.
- Registry.PublishModels: the upstream request is left to the caller, as is hashing the user's identifier, whose digest is a parameter.
- Pkcs7Cbc.AesCbcDecrypt: AES itself is any cipher that permutes the blocks under every key.
- Pkcs1.RsaEncryptPkcs1v15: modular exponentiation is any function with values below the modulus; random generation is the sequence of bytes read.
- Context-tier choice and prompt token estimation (cosy/context_tier.go): computed once for each request, before the stream, and without effect on any state modelled here; token estimates in completions come from an arbitrary estimator.
- HTTP transports, headers, host callbacks, the C ABI, management endpoints, the web UI, quota and campaign requests, the daily claim loop, Retry-After dates and error-category tables: plumbing and single-branch facts.
