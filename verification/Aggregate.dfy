/** Collecting a stream into one completion: the executor's aggregator over chunks
    (executor_aggregate.go) and the bearer aggregator over parser events
    (bearer/aggregate.go). */
module Aggregate {
  import opened Prelude
  import opened Chunks
  import S = SseParser

  // ---- Reference: what a list of tool deltas adds up to ----

  function Indices(deltas: seq<ToolDelta>): set<int> {
    set d | d in deltas :: d.index
  }

  /** The deltas of one index, in arrival order. */
  function Of(deltas: seq<ToolDelta>, index: int): seq<ToolDelta> {
    if deltas == [] then []
    else
      var d := deltas[|deltas| - 1];
      Of(deltas[..|deltas| - 1], index) + if d.index == index then [d] else []
  }

  function LastNonEmpty(values: seq<string>): string {
    if values == [] then ""
    else if values[|values| - 1] != "" then values[|values| - 1]
    else LastNonEmpty(values[..|values| - 1])
  }

  function Map<A, B>(s: seq<A>, f: A -> B): seq<B> {
    seq(|s|, i requires 0 <= i < |s| => f(s[i]))
  }

  const IdOf := (d: ToolDelta) => d.id
  const NameOf := (d: ToolDelta) => d.name
  const ArgsOf := (d: ToolDelta) => d.args

  /** The call of one index: last ID and name given, all arguments in order. */
  function CallOf(deltas: seq<ToolDelta>, index: int): ToolCall {
    var own := Of(deltas, index);
    ToolCall(LastNonEmpty(Map(own, IdOf)), LastNonEmpty(Map(own, NameOf)), Concat(Map(own, ArgsOf)))
  }

  /** The table both aggregators build. */
  ghost predicate Tabulates(tools: map<int, ToolCall>, deltas: seq<ToolDelta>) {
    tools.Keys == Indices(deltas) && forall i :: i in tools ==> tools[i] == CallOf(deltas, i)
  }

  function Merge(call: ToolCall, d: ToolDelta): ToolCall {
    ToolCall(if d.id != "" then d.id else call.id,
             if d.name != "" then d.name else call.name,
             call.args + d.args)
  }

  const BLANK := ToolCall("", "", "")

  lemma MapSnoc<A, B>(s: seq<A>, a: A, f: A -> B)
    ensures Map(s + [a], f) == Map(s, f) + [f(a)]
  {}

  lemma CallOfNone(deltas: seq<ToolDelta>, index: int)
    requires index !in Indices(deltas)
    ensures Of(deltas, index) == [] && CallOf(deltas, index) == BLANK
  {
    if deltas != [] {
      var front := deltas[..|deltas| - 1];
      assert deltas[|deltas| - 1].index in Indices(deltas);
      assert Indices(front) <= Indices(deltas);
      CallOfNone(front, index);
    }
  }

  /** One more delta merges into the call of its own index and no other. */
  lemma CallOfSnoc(deltas: seq<ToolDelta>, d: ToolDelta, index: int)
    ensures CallOf(deltas + [d], index) ==
      if d.index == index then Merge(CallOf(deltas, index), d) else CallOf(deltas, index)
  {
    assert (deltas + [d])[..|deltas|] == deltas;
    var own := Of(deltas, index);
    if d.index == index {
      MapSnoc(own, d, IdOf);
      MapSnoc(own, d, NameOf);
      MapSnoc(own, d, ArgsOf);
      assert (Map(own, IdOf) + [d.id])[..|own|] == Map(own, IdOf);
      assert (Map(own, NameOf) + [d.name])[..|own|] == Map(own, NameOf);
      assert (Map(own, ArgsOf) + [d.args])[..|own|] == Map(own, ArgsOf);
    } else {
      assert own + [] == own;
    }
  }

  /** The arguments that the fragments of one index bring, in order of arrival. */
  function ArgsFrom(deltas: seq<ToolDelta>, index: int): string {
    if deltas == [] then ""
    else (if deltas[0].index == index then deltas[0].args else "") + ArgsFrom(deltas[1..], index)
  }

  lemma {:induction false} ArgsFromSnoc(deltas: seq<ToolDelta>, d: ToolDelta, index: int)
    ensures ArgsFrom(deltas + [d], index) == ArgsFrom(deltas, index) + if d.index == index then d.args else ""
  {
    if deltas == [] {
      assert [] + [d] == [d] && [d][1..] == [];
    } else {
      assert (deltas + [d])[1..] == deltas[1..] + [d];
      ArgsFromSnoc(deltas[1..], d, index);
    }
  }

  /** The `j`-th fragment gives `value`, and no later fragment of its index gives another. */
  ghost predicate LastGiven(deltas: seq<ToolDelta>, get: ToolDelta -> string, index: int, value: string) {
    if value == "" then forall j :: 0 <= j < |deltas| && deltas[j].index == index ==> get(deltas[j]) == ""
    else exists j :: 0 <= j < |deltas| && GivenAt(deltas, get, index, value, j)
  }

  ghost predicate GivenAt(deltas: seq<ToolDelta>, get: ToolDelta -> string, index: int, value: string, j: nat)
    requires j < |deltas|
  {
    && deltas[j].index == index && get(deltas[j]) == value
    && forall k :: j < k < |deltas| && deltas[k].index == index ==> get(deltas[k]) == ""
  }

  lemma LastGivenSnoc(deltas: seq<ToolDelta>, get: ToolDelta -> string, index: int, value: string, d: ToolDelta)
    requires LastGiven(deltas, get, index, value)
    ensures LastGiven(deltas + [d], get, index, if d.index == index && get(d) != "" then get(d) else value)
  {
    var all := deltas + [d];
    if d.index == index && get(d) != "" {
      assert GivenAt(all, get, index, get(d), |deltas|);
    } else if value != "" {
      var j :| 0 <= j < |deltas| && GivenAt(deltas, get, index, value, j);
      assert GivenAt(all, get, index, value, j);
    }
  }

  /** A call that comes in fragments, however interleaved with others, has all arguments of
      its own fragments in order, and the last identifier and name that any of them gives. */
  lemma {:induction false} FragmentsJoin(deltas: seq<ToolDelta>, index: int)
    ensures CallOf(deltas, index).args == ArgsFrom(deltas, index)
    ensures LastGiven(deltas, IdOf, index, CallOf(deltas, index).id)
    ensures LastGiven(deltas, NameOf, index, CallOf(deltas, index).name)
  {
    if deltas == [] {
      CallOfNone(deltas, index);
    } else {
      var front, d := deltas[..|deltas| - 1], deltas[|deltas| - 1];
      FragmentsJoin(front, index);
      CallOfSnoc(front, d, index);
      hide CallOf, ArgsFrom, LastGiven;
      assert deltas == front + [d];
      ArgsFromSnoc(front, d, index);
      LastGivenSnoc(front, IdOf, index, CallOf(front, index).id, d);
      LastGivenSnoc(front, NameOf, index, CallOf(front, index).name, d);
    }
  }

  lemma TabulatesSnoc(tools: map<int, ToolCall>, deltas: seq<ToolDelta>, d: ToolDelta)
    requires Tabulates(tools, deltas)
    ensures var call := if d.index in tools then tools[d.index] else BLANK;
      Tabulates(tools[d.index := Merge(call, d)], deltas + [d])
  {
    hide CallOf;
    var next := tools[d.index := Merge(if d.index in tools then tools[d.index] else BLANK, d)];
    assert (deltas + [d])[|deltas|] == d;
    assert Indices(deltas + [d]) == Indices(deltas) + {d.index};
    if d.index !in tools {
      CallOfNone(deltas, d.index);
    }
    forall i | i in next
      ensures next[i] == CallOf(deltas + [d], i)
    {
      CallOfSnoc(deltas, d, i);
    }
  }

  // ---- The calls each aggregator reports ----

  /** The executor reports the indices 0 to n-1 it finds, n being the number of calls. */
  function Dense(tools: map<int, ToolCall>, n: nat): seq<ToolCall> {
    if n == 0 then [] else Dense(tools, n - 1) + if n - 1 in tools then [tools[n - 1]] else []
  }

  ghost predicate Ascending(s: seq<int>) {
    forall i, j :: 0 <= i < j < |s| ==> s[i] < s[j]
  }

  /** The indices are exactly 0 to n-1. */
  ghost predicate Contiguous(keys: set<int>) {
    forall i :: i in keys <==> 0 <= i < |keys|
  }

  ghost function Below(keys: set<int>, n: nat): set<int> {
    set i | i in keys && 0 <= i < n
  }

  ghost function UpTo(n: nat): (s: set<int>)
    ensures forall i :: i in s <==> 0 <= i < n
  {
    if n == 0 then {} else UpTo(n - 1) + {n - 1}
  }

  lemma {:induction false} DenseLength(tools: map<int, ToolCall>, n: nat)
    ensures |Dense(tools, n)| == |Below(tools.Keys, n)|
  {
    if n == 0 {
      assert Below(tools.Keys, 0) == {};
    } else {
      DenseLength(tools, n - 1);
      var below := Below(tools.Keys, n - 1);
      assert Below(tools.Keys, n) == if n - 1 in tools then below + {n - 1} else below;
    }
  }

  lemma {:induction false} DenseAll(tools: map<int, ToolCall>, n: nat)
    requires forall i :: 0 <= i < n ==> i in tools
    ensures Dense(tools, n) == seq(n, i requires 0 <= i < n => tools[i])
  {
    if n > 0 {
      DenseAll(tools, n - 1);
    }
  }

  /** An ascending list of 0 to n-1 is the identity. */
  lemma {:induction false} AscendingContiguous(indices: seq<int>, i: nat)
    requires Ascending(indices) && i < |indices|
    requires forall k :: k in Elems(indices) <==> 0 <= k < |indices|
    ensures indices[i] == i
  {
    AscendingLow(indices, i);
    AscendingHigh(indices, i);
  }

  lemma {:induction false} AscendingLow(indices: seq<int>, i: nat)
    requires Ascending(indices) && i < |indices| && forall k :: k in Elems(indices) ==> 0 <= k
    ensures indices[i] >= i
  {
    assert indices[i] in Elems(indices);
    if i > 0 {
      AscendingLow(indices, i - 1);
    }
  }

  lemma {:induction false} AscendingHigh(indices: seq<int>, i: nat)
    requires Ascending(indices) && i < |indices| && forall k :: k in Elems(indices) ==> k < |indices|
    ensures indices[i] <= i
    decreases |indices| - i
  {
    assert indices[i] in Elems(indices);
    if i < |indices| - 1 {
      AscendingHigh(indices, i + 1);
    }
  }

  lemma AscendingCard(indices: seq<int>)
    requires Ascending(indices)
    ensures |Elems(indices)| == |indices|
  {
    forall i, j | 0 <= i < j < |indices|
      ensures Apart(indices, i, j)
    {}
    DistinctCard(indices);
  }

  lemma ContiguousIfFull(keys: set<int>)
    requires |Below(keys, |keys|)| == |keys|
    ensures Contiguous(keys)
  {
    SubsetOfEqualCard(Below(keys, |keys|), keys);
    UpToCard(|keys|);
    SubsetOfEqualCard(keys, UpTo(|keys|));
  }

  lemma SubsetOfEqualCard<T>(a: set<T>, b: set<T>)
    requires a <= b && |a| == |b|
    ensures a == b
  {
    assert b == a + (b - a);
  }

  lemma {:induction false} UpToCard(n: nat)
    ensures |UpTo(n)| == n
  {
    if n == 0 {
      assert UpTo(0) == {};
    } else {
      UpToCard(n - 1);
      assert UpTo(n) == UpTo(n - 1) + {n - 1};
    }
  }

  /** The indices in ascending order. */
  ghost function SortedIndices(keys: set<int>): (sorted: seq<int>)
    ensures Ascending(sorted) && Elems(sorted) == keys
  {
    if keys == {} then []
    else
      MaxExists(keys);
      var m :| m in keys && forall k :: k in keys ==> k <= m;
      var below := SortedIndices(keys - {m});
      AscendingSnoc(below, m);
      below + [m]
  }

  lemma AscendingSnoc(below: seq<int>, m: int)
    requires Ascending(below) && forall k :: k in Elems(below) ==> k < m
    ensures Ascending(below + [m]) && Elems(below + [m]) == Elems(below) + {m}
  {
    assert forall i :: 0 <= i < |below| ==> below[i] in Elems(below);
  }

  lemma {:induction false} MaxExists(keys: set<int>)
    requires keys != {}
    ensures exists m :: m in keys && forall k :: k in keys ==> k <= m
  {
    var x := SomeElement(keys);
    if keys == {x} {
      assert forall k :: k in keys ==> k <= x;
    } else {
      assert keys == (keys - {x}) + {x};
      MaxExists(keys - {x});
      var m :| m in keys - {x} && forall k :: k in keys - {x} ==> k <= m;
      var top := if x > m then x else m;
      assert top in keys && forall k :: k in keys ==> k <= top;
    }
  }

  lemma {:induction false} AscendingUnique(a: seq<int>, b: seq<int>)
    requires Ascending(a) && Ascending(b) && Elems(a) == Elems(b)
    ensures a == b
  {
    AscendingCard(a);
    AscendingCard(b);
    if a != [] {
      var n := |a| - 1;
      assert a[n] in Elems(b) && b[n] in Elems(a);
      assert a[n] == b[n];
      forall x | x in Elems(a[..n])
        ensures x in Elems(b[..n])
      {
        assert x in Elems(a);
      }
      forall x | x in Elems(b[..n])
        ensures x in Elems(a[..n])
      {
        assert x in Elems(b);
      }
      AscendingUnique(a[..n], b[..n]);
      assert a == a[..n] + [a[n]] && b == b[..n] + [b[n]];
    }
  }

  /** The bearer aggregator reports every call in the order of its index. */
  ghost function CallsInOrder(deltas: seq<ToolDelta>): seq<ToolCall> {
    Map(SortedIndices(Indices(deltas)), i => CallOf(deltas, i))
  }

  /** The two aggregators report the same calls exactly when the indices used are
      0 to n-1; otherwise the executor drops at least one call. */
  lemma AggregatorsAgree(deltas: seq<ToolDelta>)
    ensures Reported(deltas, |Indices(deltas)|) == CallsInOrder(deltas) <==> Contiguous(Indices(deltas))
    ensures !Contiguous(Indices(deltas)) ==> |Reported(deltas, |Indices(deltas)|)| < |CallsInOrder(deltas)|
  {
    hide CallOf, Indices;
    var keys := Indices(deltas);
    var tools := map i | i in keys :: CallOf(deltas, i);
    assert tools.Keys == keys;
    DenseIsReported(tools, deltas, |keys|);
    AscendingCard(SortedIndices(keys));
    ReportedLength(tools);
    if Contiguous(keys) {
      DenseAll(tools, |keys|);
      InOrderIfContiguous(deltas);
      hide Dense, Reported, CallsInOrder, Tabulates;
      assert Dense(tools, |keys|) == CallsInOrder(deltas);
    }
  }

  lemma InOrderIfContiguous(deltas: seq<ToolDelta>)
    requires Contiguous(Indices(deltas))
    ensures |CallsInOrder(deltas)| == |Indices(deltas)|
    ensures forall i :: 0 <= i < |CallsInOrder(deltas)| ==> CallsInOrder(deltas)[i] == CallOf(deltas, i)
  {
    var indices := SortedIndices(Indices(deltas));
    AscendingCard(indices);
    forall i | 0 <= i < |indices|
      ensures indices[i] == i
    {
      AscendingContiguous(indices, i);
    }
  }

  lemma ReportedLength(tools: map<int, ToolCall>)
    ensures |Dense(tools, |tools.Keys|)| <= |tools.Keys|
    ensures |Dense(tools, |tools.Keys|)| == |tools.Keys| ==> Contiguous(tools.Keys)
  {
    var keys := tools.Keys;
    DenseLength(tools, |keys|);
    SubsetCard(Below(keys, |keys|), keys);
    if |Below(keys, |keys|)| == |keys| {
      ContiguousIfFull(keys);
    }
  }

  // ---- Reference: what a list of chunks adds up to ----

  function ContentOf(chunks: seq<Chunk>): string {
    if chunks == [] then ""
    else
      var c := chunks[|chunks| - 1];
      ContentOf(chunks[..|chunks| - 1]) + if c.Choice? then c.content else ""
  }

  function ReasoningOf(chunks: seq<Chunk>): string {
    if chunks == [] then ""
    else
      var c := chunks[|chunks| - 1];
      ReasoningOf(chunks[..|chunks| - 1]) + if c.Choice? then c.reasoning else ""
  }

  /** The last finish reason given. */
  function FinishOf(chunks: seq<Chunk>): string {
    if chunks == [] then ""
    else
      var c := chunks[|chunks| - 1];
      if c.Choice? && c.finish.Some? then c.finish.value else FinishOf(chunks[..|chunks| - 1])
  }

  /** The last usage given. */
  function UsageOf(chunks: seq<Chunk>): Option<Usage> {
    if chunks == [] then None
    else
      var c := chunks[|chunks| - 1];
      if c.Bare? && c.usage.Some? then c.usage else UsageOf(chunks[..|chunks| - 1])
  }

  function DeltasOf(chunks: seq<Chunk>): seq<ToolDelta> {
    if chunks == [] then []
    else
      var c := chunks[|chunks| - 1];
      DeltasOf(chunks[..|chunks| - 1]) + if c.Choice? then c.tools else []
  }

  /** The calls with an index below `n`, in order. */
  function Reported(deltas: seq<ToolDelta>, n: nat): seq<ToolCall> {
    if n == 0 then []
    else Reported(deltas, n - 1) + if n - 1 in Indices(deltas) then [CallOf(deltas, n - 1)] else []
  }

  datatype Tokens = Exact(usage: Usage) | Estimated(prompt: int, completion: int)
  datatype Completion = Completion(content: string, reasoning: string, finish: string,
                                   calls: seq<ToolCall>, tokens: Tokens)
  datatype Outcome = Completed(completion: Completion) | Failed(error: Error)

  type Estimator = string -> int

  function CallTokens(estimate: Estimator, calls: seq<ToolCall>): int {
    if calls == [] then 0
    else
      var c := calls[|calls| - 1];
      CallTokens(estimate, calls[..|calls| - 1]) + estimate(c.name) + estimate(c.args)
  }

  function CompletionOf(chunks: seq<Chunk>, estimate: Estimator, inputTokens: int): Completion {
    var deltas := DeltasOf(chunks);
    var calls := Reported(deltas, |Indices(deltas)|);
    var usage := UsageOf(chunks);
    Completion(ContentOf(chunks), ReasoningOf(chunks), FinishOf(chunks), calls,
               if usage.Some? then Exact(usage.value)
               else Estimated(inputTokens, estimate(ContentOf(chunks)) + estimate(ReasoningOf(chunks))
                                           + CallTokens(estimate, calls)))
  }

  /** A chunk the aggregator adds up. */
  predicate Plain(r: Read) {
    r.Got? && !r.chunk.Done? && !r.chunk.Garbled?
  }

  /** The chunks before the first result that is not one. */
  function Body(results: seq<Read>): seq<Chunk> {
    if results == [] || !Plain(results[0]) then [] else [results[0].chunk] + Body(results[1..])
  }

  /** The first result that is not a plain chunk. */
  function Ending(results: seq<Read>): Read {
    if results == [] then Fail(EndOfStream)
    else if !Plain(results[0]) then results[0]
    else Ending(results[1..])
  }

  /** The outcome of aggregating a stream: a completion exactly if its plain chunks are
      followed by the done marker. */
  function Aggregated(results: seq<Read>, estimate: Estimator, inputTokens: int): Outcome {
    match Ending(results)
    case Got(Done) => Completed(CompletionOf(Body(results), estimate, inputTokens))
    case Got(_) => Failed(BadJson)
    case Fail(EndOfStream) => Failed(Incomplete)
    case Fail(e) => Failed(e)
  }

  lemma DenseIsReported(tools: map<int, ToolCall>, deltas: seq<ToolDelta>, n: nat)
    requires Tabulates(tools, deltas)
    ensures Dense(tools, n) == Reported(deltas, n)
  {}

  lemma TabledIsReported(tools: map<int, ToolCall>, deltas: seq<ToolDelta>)
    requires Tabulates(tools, deltas)
    ensures Dense(tools, |tools|) == Reported(deltas, |Indices(deltas)|)
  {
    assert |tools| == |tools.Keys|;
    DenseIsReported(tools, deltas, |tools|);
  }

  // ---- The executor's aggregator ----

  class Aggregator {
    var content: string
    var reasoning: string
    var finish: string
    var usage: Option<Usage>
    var tools: map<int, ToolCall>
    /** The chunks added up so far. */
    ghost var applied: seq<Chunk>

    ghost predicate Valid()
      reads this
    {
      && content == ContentOf(applied) && reasoning == ReasoningOf(applied)
      && finish == FinishOf(applied) && usage == UsageOf(applied)
      && Tabulates(tools, DeltasOf(applied))
    }

    constructor ()
      ensures Valid() && applied == []
    {
      content, reasoning, finish, usage, tools := "", "", "", None, map[];
      applied := [];
    }

    method Apply(event: Chunk)
      requires Valid() && !event.Done? && !event.Garbled?
      modifies this
      ensures Valid() && applied == old(applied) + [event]
    {
      applied := applied + [event];
      assert applied[..|applied| - 1] == old(applied);
      if event.Bare? {
        if event.usage.Some? {
          usage := event.usage;
        }
        assert DeltasOf(applied) == DeltasOf(old(applied));
        return;
      }
      content := content + event.content;
      reasoning := reasoning + event.reasoning;
      if event.finish.Some? {
        finish := event.finish.value;
      }
      AddTools(event.tools, DeltasOf(old(applied)));
    }

    method AddTools(deltas: seq<ToolDelta>, ghost before: seq<ToolDelta>)
      requires Tabulates(tools, before)
      modifies this`tools
      ensures Tabulates(tools, before + deltas)
    {
      hide Tabulates, CallOf, Indices;
      assert before + deltas[..0] == before;
      for i := 0 to |deltas|
        invariant Tabulates(tools, before + deltas[..i])
      {
        var delta := deltas[i];
        TabulatesSnoc(tools, before + deltas[..i], delta);
        assert before + deltas[..i] + [delta] == before + deltas[..i + 1];
        var tool := if delta.index in tools then tools[delta.index] else ToolCall(delta.id, "", "");
        if delta.id != "" {
          tool := tool.(id := delta.id);
        }
        if delta.name != "" {
          tool := tool.(name := delta.name);
        }
        tool := tool.(args := tool.args + delta.args);
        tools := tools[delta.index := tool];
      }
      assert deltas[..|deltas|] == deltas;
    }

    /** The calls found at 0 to n-1, n being the number of calls in the table. */
    method ListCalls() returns (calls: seq<ToolCall>)
      ensures calls == Dense(tools, |tools|)
    {
      calls := [];
      for index := 0 to |tools|
        invariant calls == Dense(tools, index)
      {
        if index in tools {
          calls := calls + [tools[index]];
        }
      }
    }

    /** The completion, with estimated token counts if none were reported. */
    method Finish(estimate: Estimator, inputTokens: int) returns (c: Completion)
      requires Valid()
      ensures c == CompletionOf(applied, estimate, inputTokens)
    {
      hide Dense, Reported, Tabulates, Indices, ContentOf, ReasoningOf, FinishOf, UsageOf, DeltasOf, CallTokens;
      var calls := ListCalls();
      TabledIsReported(tools, DeltasOf(applied));
      if usage.Some? {
        return Completion(content, reasoning, finish, calls, Exact(usage.value));
      }
      var callTokens := CountTokens(estimate, calls);
      var outputTokens := estimate(content) + estimate(reasoning) + callTokens;
      c := Completion(content, reasoning, finish, calls, Estimated(inputTokens, outputTokens));
    }
  }

  method CountTokens(estimate: Estimator, calls: seq<ToolCall>) returns (n: int)
    ensures n == CallTokens(estimate, calls)
  {
    n := 0;
    for i := 0 to |calls|
      invariant n == CallTokens(estimate, calls[..i])
    {
      assert calls[..i + 1][..i] == calls[..i];
      n := n + estimate(calls[i].name) + estimate(calls[i].args);
    }
    assert calls[..|calls|] == calls;
  }

  /** aggregateChat. */
  method AggregateChat(handle: StreamHandle, estimate: Estimator, inputTokens: int) returns (r: Outcome)
    modifies handle`results
    ensures r == Aggregated(old(handle.results), estimate, inputTokens)
  {
    hide ContentOf, ReasoningOf, FinishOf, UsageOf, DeltasOf, Tabulates, CompletionOf;
    var result := new Aggregator();
    var done := false;
    while !done
      invariant result.Valid() && fresh(result)
      invariant result.applied + Body(handle.results) == Body(old(handle.results)) || done
      invariant Ending(old(handle.results)) == if done then Got(Done) else Ending(handle.results)
      invariant done ==> result.applied == Body(old(handle.results))
      decreases |handle.results|, !done
    {
      ghost var rest := handle.results;
      var chunk := handle.ReadChunk();
      if chunk.Fail? {
        if chunk.error == EndOfStream {
          break;
        }
        return Failed(chunk.error);
      }
      if chunk.chunk.Done? {
        done := true;
        assert result.applied + [] == result.applied;
        break;
      }
      if chunk.chunk.Garbled? {
        return Failed(BadJson);
      }
      result.Apply(chunk.chunk);
    }
    if !done {
      return Failed(Incomplete);
    }
    var completion := result.Finish(estimate, inputTokens);
    r := Completed(completion);
  }

  // ---- The bearer aggregator ----

  /** The events before the first refusal or end of the stream. */
  function EventsBefore(results: seq<S.Result>): seq<S.Event> {
    if results == [] || results[0].Stop? || results[0].event.Refusal? then []
    else [results[0].event] + EventsBefore(results[1..])
  }

  /** That refusal or end. */
  function EventEnding(results: seq<S.Result>): S.Result {
    if results == [] then S.Stop(EndOfStream)
    else if results[0].Stop? || results[0].event.Refusal? then results[0]
    else EventEnding(results[1..])
  }

  /** The chunk an event stands for; terminal and unknown events add nothing. */
  function EventAsChunk(ev: S.Event): Chunk {
    match ev
    case Text(c) => Choice([], None, c, "")
    case Reasoning(c) => Choice([], None, "", c)
    case ToolPart(t) => Choice([t], None, "", "")
    case UsageInfo(u) => Bare(Some(u))
    case Terminal => Bare(None)
    case Unknown => Bare(None)
    case Refusal(_, _, _) => Bare(None)
  }

  datatype Collected = Collected(content: string, reasoning: string, calls: seq<ToolCall>, usage: Option<Usage>)
  datatype CollectOutcome = Complete(collected: Collected) | Broken(error: Error)

  ghost function CollectedFrom(events: seq<S.Event>): Collected {
    var chunks := Map(events, EventAsChunk);
    Collected(ContentOf(chunks), ReasoningOf(chunks), CallsInOrder(DeltasOf(chunks)), UsageOf(chunks))
  }

  ghost function CollectedOutcome(results: seq<S.Result>): CollectOutcome {
    match EventEnding(results)
    case Stop(EndOfStream) => Complete(CollectedFrom(EventsBefore(results)))
    case Stop(e) => Broken(e)
    case Ev(ev) => Broken(if ev.Refusal? then Upstream(ev.code) else EndOfStream)
  }

  /** sort.Ints on the keys of the table. */
  method SortInts(keys: set<int>) returns (sorted: seq<int>)
    ensures sorted == SortedIndices(keys)
  {
    sorted := [];
    var left := keys;
    while left != {}
      invariant left <= keys && Ascending(sorted) && Elems(sorted) == keys - left
      invariant forall i, k :: 0 <= i < |sorted| && k in left ==> sorted[i] < k
      decreases left
    {
      MinExists(left);
      var m :| m in left && forall k :: k in left ==> m <= k;
      assert Elems(sorted + [m]) == Elems(sorted) + {m};
      sorted, left := sorted + [m], left - {m};
    }
    AscendingUnique(sorted, SortedIndices(keys));
  }

  lemma {:induction false} MinExists(keys: set<int>)
    requires keys != {}
    ensures exists m :: m in keys && forall k :: k in keys ==> m <= k
  {
    var x := SomeElement(keys);
    if keys == {x} {
      assert forall k :: k in keys ==> x <= k;
    } else {
      assert keys == (keys - {x}) + {x};
      MinExists(keys - {x});
      var m :| m in keys - {x} && forall k :: k in keys - {x} ==> m <= k;
      var low := if x < m then x else m;
      assert low in keys && forall k :: k in keys ==> low <= k;
    }
  }

  /** What the bearer aggregator has gathered from the events so far. */
  ghost predicate Gathered(events: seq<S.Event>, content: string, reasoning: string,
                           tools: map<int, ToolCall>, usage: Option<Usage>)
  {
    var chunks := Map(events, EventAsChunk);
    && content == ContentOf(chunks) && reasoning == ReasoningOf(chunks)
    && usage == UsageOf(chunks) && Tabulates(tools, DeltasOf(chunks))
  }

  lemma GatheredSnoc(events: seq<S.Event>, content: string, reasoning: string,
                     tools: map<int, ToolCall>, usage: Option<Usage>, ev: S.Event)
    requires Gathered(events, content, reasoning, tools, usage)
    ensures Gathered(events + [ev],
      if ev.Text? then content + ev.content else content,
      if ev.Reasoning? then reasoning + ev.content else reasoning,
      if ev.ToolPart? then
        tools[ev.tool.index := Merge(if ev.tool.index in tools then tools[ev.tool.index] else BLANK, ev.tool)]
      else tools,
      if ev.UsageInfo? then Some(ev.usage) else usage)
  {
    var before := Map(events, EventAsChunk);
    MapSnoc(events, ev, EventAsChunk);
    SumsSnoc(before, EventAsChunk(ev));
    if ev.ToolPart? {
      TabulatesSnoc(tools, DeltasOf(before), ev.tool);
    }
    hide Tabulates, ContentOf, ReasoningOf, UsageOf, DeltasOf;
    assert ContentOf(before) + "" == ContentOf(before) && ReasoningOf(before) + "" == ReasoningOf(before);
    assert DeltasOf(before) + [] == DeltasOf(before);
  }

  lemma SumsSnoc(chunks: seq<Chunk>, c: Chunk)
    ensures var all := chunks + [c];
      && ContentOf(all) == ContentOf(chunks) + (if c.Choice? then c.content else "")
      && ReasoningOf(all) == ReasoningOf(chunks) + (if c.Choice? then c.reasoning else "")
      && UsageOf(all) == (if c.Bare? && c.usage.Some? then c.usage else UsageOf(chunks))
      && DeltasOf(all) == DeltasOf(chunks) + if c.Choice? then c.tools else []
  {
    var all := chunks + [c];
    assert all[..|chunks|] == chunks && all[|chunks|] == c;
  }

  lemma CollectStep(r: S.Result, rest: seq<S.Result>)
    ensures var all := [r] + rest;
      if r.Stop? || r.event.Refusal? then EventsBefore(all) == [] && EventEnding(all) == r
      else EventsBefore(all) == [r.event] + EventsBefore(rest) && EventEnding(all) == EventEnding(rest)
  {
    assert ([r] + rest)[1..] == rest;
  }

  /** collectStream: reads its own parser to the end; `ctx` says of each call on the parser
      how often the context may be consulted before it is done. */
  method CollectStream(parser: S.Parser, ctx: nat -> Option<nat>) returns (r: CollectOutcome)
    requires parser.Valid() && !parser.aborted
    modifies parser
    ensures r != Broken(Cancelled) ==> r == CollectedOutcome(old(parser.Outcome()))
    ensures r == Broken(Cancelled) ==> exists k :: ctx(k).Some?
  {
    hide S.Results, S.Scan, S.Lines, EventsBefore, EventEnding, Gathered, CollectedFrom;
    var content, reasoning, toolCalls, usage := "", "", map[], None;
    var calls := 0;
    ghost var events := [];
    assert Gathered([], "", "", map[], None) by {
      GatheredNothing();
    }
    assert [] + EventsBefore(parser.Outcome()) == EventsBefore(parser.Outcome());
    while true
      invariant parser.Valid() && !parser.aborted
      invariant EventsBefore(old(parser.Outcome())) == events + EventsBefore(parser.Outcome())
      invariant EventEnding(old(parser.Outcome())) == EventEnding(parser.Outcome())
      invariant Gathered(events, content, reasoning, toolCalls, usage)
      decreases |parser.Outcome()|
    {
      var evt := parser.ParseContext(ctx(calls));
      if evt == S.Stop(Cancelled) {
        return Broken(Cancelled);
      }
      calls := calls + 1;
      CollectStep(evt, parser.Outcome());
      if evt.Stop? {
        assert events + [] == events;
        if evt.error == EndOfStream {
          break;
        }
        return Broken(evt.error);
      }
      if evt.event.Refusal? {
        return Broken(Upstream(evt.event.code));
      }
      GatheredSnoc(events, content, reasoning, toolCalls, usage, evt.event);
      Associates(events, [evt.event], EventsBefore(parser.Outcome()));
      events := events + [evt.event];
      match evt.event {
        case Text(c) => content := content + c;
        case Reasoning(c) => reasoning := reasoning + c;
        case ToolPart(td) =>
          var acc := if td.index in toolCalls then toolCalls[td.index] else BLANK;
          if td.id != "" {
            acc := acc.(id := td.id);
          }
          if td.name != "" {
            acc := acc.(name := td.name);
          }
          acc := acc.(args := acc.args + td.args);
          toolCalls := toolCalls[td.index := acc];
        case UsageInfo(u) => usage := Some(u);
        case Terminal =>
        case Unknown =>
        case Refusal(_, _, _) =>
      }
    }
    var indices := SortInts(toolCalls.Keys);
    var listed := ListInOrder(toolCalls, indices);
    GatheredIs(events, content, reasoning, toolCalls, usage, listed);
    r := Complete(Collected(content, reasoning, listed, usage));
  }

  lemma GatheredNothing()
    ensures Gathered([], "", "", map[], None)
  {
    assert Map([], EventAsChunk) == [];
  }

  lemma GatheredIs(events: seq<S.Event>, content: string, reasoning: string,
                   tools: map<int, ToolCall>, usage: Option<Usage>, calls: seq<ToolCall>)
    requires Gathered(events, content, reasoning, tools, usage)
    requires |calls| == |SortedIndices(tools.Keys)|
    requires forall i :: 0 <= i < |calls| ==>
      SortedIndices(tools.Keys)[i] in tools && calls[i] == tools[SortedIndices(tools.Keys)[i]]
    ensures CollectedFrom(events) == Collected(content, reasoning, calls, usage)
  {
    hide CallOf, ContentOf, ReasoningOf, UsageOf, DeltasOf;
    assert calls == CallsInOrder(DeltasOf(Map(events, EventAsChunk)));
  }

  method ListInOrder(tools: map<int, ToolCall>, indices: seq<int>) returns (calls: seq<ToolCall>)
    requires Elems(indices) == tools.Keys
    ensures |calls| == |indices|
    ensures forall i :: 0 <= i < |calls| ==> indices[i] in tools && calls[i] == tools[indices[i]]
  {
    calls := [];
    for i := 0 to |indices|
      invariant |calls| == i
      invariant forall k :: 0 <= k < i ==> indices[k] in tools && calls[k] == tools[indices[k]]
    {
      assert indices[i] in Elems(indices);
      calls := calls + [tools[indices[i]]];
    }
  }
}
