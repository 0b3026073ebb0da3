/** Concurrent refreshes of one account (refreshSingleflight.do in refresh.go), as a
    state machine whose steps are the program's critical sections and blocking points.
    Any number of calls, for any keys, interleave in any order. */
module SingleFlight {
  import opened Prelude

  /** What fn returns; Nothing is the zero value a record holds until it is filled. */
  datatype Outcome = Nothing | Response(token: string) | Failure(reason: string)

  /** A refreshResult: shared by the call that made it and those that join it. */
  datatype Record = Record(key: string, leader: nat, closed: bool, value: Outcome)

  /** Where a call of do stands. */
  datatype Phase =
    | Arriving(key: string)                       // before the first critical section
    | Waiting(key: string, rec: nat)              // a follower, blocked on done
    | Running(key: string, rec: nat)              // a leader, inside fn
    | Filled(key: string, rec: nat, got: Option<Outcome>)   // fn is over; None: it panicked
    | Closing(key: string, rec: nat, got: Option<Outcome>)  // done is closed, not yet deleted
    | Returned(key: string, rec: nat, got: Option<Outcome>)

  datatype State = State(inflight: map<string, nat>, records: seq<Record>, calls: seq<Phase>)

  const INITIAL := State(map[], [], [])

  datatype Action =
    | Arrive(key: string)
    | Enter(call: nat)
    | Finish(call: nat, got: Option<Outcome>)
    | Close(call: nat)
    | Delete(call: nat)
    | Wake(call: nat)

  predicate Enabled(s: State, a: Action) {
    match a
    case Arrive(_) => true
    case Enter(c) => c < |s.calls| && s.calls[c].Arriving?
    case Finish(c, _) => c < |s.calls| && s.calls[c].Running?
    case Close(c) => c < |s.calls| && s.calls[c].Filled?
    case Delete(c) => c < |s.calls| && s.calls[c].Closing?
    case Wake(c) =>
      c < |s.calls| && s.calls[c].Waiting? && s.calls[c].rec < |s.records| && s.records[s.calls[c].rec].closed
  }

  function Next(s: State, a: Action): State
    requires Enabled(s, a)
    requires !a.Arrive? && !a.Enter? ==> s.calls[a.call].rec < |s.records|
  {
    match a
    case Arrive(key) => s.(calls := s.calls + [Arriving(key)])
    case Enter(c) =>
      var key := s.calls[c].key;
      if key in s.inflight then
        s.(calls := s.calls[c := Waiting(key, s.inflight[key])])
      else
        State(s.inflight[key := |s.records|],
              s.records + [Record(key, c, false, Nothing)],
              s.calls[c := Running(key, |s.records|)])
    case Finish(c, got) =>
      var p := s.calls[c];
      s.(records := if got.Some? then s.records[p.rec := s.records[p.rec].(value := got.value)] else s.records,
         calls := s.calls[c := Filled(p.key, p.rec, got)])
    case Close(c) =>
      var p := s.calls[c];
      s.(records := s.records[p.rec := s.records[p.rec].(closed := true)],
         calls := s.calls[c := Closing(p.key, p.rec, p.got)])
    case Delete(c) =>
      var p := s.calls[c];
      s.(inflight := s.inflight - {p.key}, calls := s.calls[c := Returned(p.key, p.rec, p.got)])
    case Wake(c) =>
      var p := s.calls[c];
      s.(calls := s.calls[c := Returned(p.key, p.rec, Some(s.records[p.rec].value))])
  }

  predicate Leading(p: Phase) {
    p.Running? || p.Filled? || p.Closing?
  }

  /** Each call is at a record of its own key; leaders own theirs, and it is in flight. */
  predicate CallOk(s: State, c: nat)
    requires c < |s.calls|
  {
    var p := s.calls[c];
    p.Arriving? ||
    (&& p.rec < |s.records| && s.records[p.rec].key == p.key
     && (Leading(p) ==> s.records[p.rec].leader == c && p.key in s.inflight && s.inflight[p.key] == p.rec)
     && (p.Returned? ==> s.records[p.rec].closed)
     && (p.Returned? && s.records[p.rec].leader != c ==> p.got == Some(s.records[p.rec].value)))
  }

  /** A record belongs to one leader, whose phase says what the record holds. */
  predicate RecordOk(s: State, r: nat)
    requires r < |s.records|
  {
    var rec := s.records[r];
    && rec.leader < |s.calls|
    && var p := s.calls[rec.leader];
       && !p.Arriving? && !p.Waiting? && p.rec == r
       && (rec.closed <==> p.Closing? || p.Returned?)
       && (p.Running? ==> rec.value == Nothing)
       && (!p.Running? ==> rec.value == if p.got.Some? then p.got.value else Nothing)
  }

  /** A record in flight is for its key, and its leader is still at work. */
  predicate FlightOk(s: State, k: string)
    requires k in s.inflight
  {
    var r := s.inflight[k];
    r < |s.records| && s.records[r].key == k
    && s.records[r].leader < |s.calls| && Leading(s.calls[s.records[r].leader])
  }

  ghost predicate Inv(s: State) {
    && (forall c :: 0 <= c < |s.calls| ==> CallOk(s, c))
    && (forall r :: 0 <= r < |s.records| ==> RecordOk(s, r))
    && (forall k :: k in s.inflight ==> FlightOk(s, k))
  }

  lemma InvInitial()
    ensures Inv(INITIAL)
  {}

  /** The call that takes a step other than its first is at a record. */
  lemma ActorAtRecord(s: State, a: Action)
    requires Inv(s) && Enabled(s, a)
    ensures !a.Arrive? && !a.Enter? ==>
      CallOk(s, a.call) && s.calls[a.call].rec < |s.records| && RecordOk(s, s.calls[a.call].rec)
  {
    assert !a.Arrive? ==> CallOk(s, a.call);
  }

  lemma RecordNext(s: State, a: Action, r: nat)
    requires Inv(s) && Enabled(s, a) && (!a.Arrive? && !a.Enter? ==> s.calls[a.call].rec < |s.records|)
    requires r < |Next(s, a).records|
    ensures RecordOk(Next(s, a), r)
  {
    ActorAtRecord(s, a);
    assert r < |s.records| ==> RecordOk(s, r);
    hide FlightOk, Inv;
  }

  lemma CallNext(s: State, a: Action, c: nat)
    requires Inv(s) && Enabled(s, a) && (!a.Arrive? && !a.Enter? ==> s.calls[a.call].rec < |s.records|)
    requires c < |Next(s, a).calls|
    ensures CallOk(Next(s, a), c)
  {
    ActorAtRecord(s, a);
    assert c < |s.calls| ==> CallOk(s, c);
    if c < |s.calls| && !s.calls[c].Arriving? {
      assert RecordOk(s, s.calls[c].rec);
    }
    if a.Enter? && s.calls[a.call].key in s.inflight {
      assert FlightOk(s, s.calls[a.call].key);
    }
    hide FlightOk, Inv;
  }

  lemma FlightNext(s: State, a: Action, k: string)
    requires Inv(s) && Enabled(s, a) && (!a.Arrive? && !a.Enter? ==> s.calls[a.call].rec < |s.records|)
    requires k in Next(s, a).inflight
    ensures FlightOk(Next(s, a), k)
  {
    ActorAtRecord(s, a);
    if k in s.inflight {
      assert FlightOk(s, k) && RecordOk(s, s.inflight[k]);
      assert CallOk(s, s.records[s.inflight[k]].leader);
    }
    hide Inv;
  }

  lemma InvNext(s: State, a: Action)
    requires Inv(s) && Enabled(s, a)
    ensures !a.Arrive? && !a.Enter? ==> CallOk(s, a.call) && s.calls[a.call].rec < |s.records|
    ensures Inv(Next(s, a))
  {
    ActorAtRecord(s, a);
    hide Next, CallOk, RecordOk, FlightOk;
    var s' := Next(s, a);
    forall r | 0 <= r < |s'.records|
      ensures RecordOk(s', r)
    {
      RecordNext(s, a, r);
    }
    forall c | 0 <= c < |s'.calls|
      ensures CallOk(s', c)
    {
      CallNext(s, a, c);
    }
    forall k | k in s'.inflight
      ensures FlightOk(s', k)
    {
      FlightNext(s, a, k);
    }
  }

  // ---- Over every run ----

  /** A run: the states passed through and the actions taken. */
  ghost predicate IsRun(states: seq<State>, actions: seq<Action>) {
    && |states| == |actions| + 1
    && states[0] == INITIAL
    && forall i :: 0 <= i < |actions| ==> Steps(states[i], actions[i], states[i + 1])
  }

  ghost predicate Steps(s: State, a: Action, s': State) {
    Enabled(s, a) && (!a.Arrive? && !a.Enter? ==> s.calls[a.call].rec < |s.records|) && s' == Next(s, a)
  }

  lemma {:induction false} RunKeepsInv(states: seq<State>, actions: seq<Action>, i: nat)
    requires IsRun(states, actions) && i < |states|
    ensures Inv(states[i])
  {
    if i == 0 {
      InvInitial();
    } else {
      RunKeepsInv(states, actions, i - 1);
      assert Steps(states[i - 1], actions[i - 1], states[i]);
      InvNext(states[i - 1], actions[i - 1]);
    }
  }

  /** At most one fn runs, and at most one leader is at work, for each key. */
  lemma OneLeaderPerKey(states: seq<State>, actions: seq<Action>, i: nat, c: nat, d: nat)
    requires IsRun(states, actions) && i < |states|
    requires c < |states[i].calls| && d < |states[i].calls|
    requires Leading(states[i].calls[c]) && Leading(states[i].calls[d])
    requires states[i].calls[c].key == states[i].calls[d].key
    ensures c == d
  {
    RunKeepsInv(states, actions, i);
    assert CallOk(states[i], c) && CallOk(states[i], d);
  }

  /** A leader about to delete finds its own record in flight, and nobody else's. */
  lemma DeleteIsOwn(states: seq<State>, actions: seq<Action>, i: nat, c: nat)
    requires IsRun(states, actions) && i < |states|
    requires Enabled(states[i], Delete(c))
    ensures var s := states[i];
      var p := s.calls[c];
      && p.key in s.inflight && s.inflight[p.key] == p.rec
      && p.rec < |s.records| && s.records[p.rec].leader == c
  {
    RunKeepsInv(states, actions, i);
    assert CallOk(states[i], c);
  }

  /** Once done is closed a record never changes again. */
  lemma {:induction false} ClosedIsFinal(states: seq<State>, actions: seq<Action>, i: nat, j: nat, r: nat)
    requires IsRun(states, actions) && i <= j < |states|
    requires r < |states[i].records| && states[i].records[r].closed
    ensures r < |states[j].records| && states[j].records[r] == states[i].records[r]
    decreases j - i
  {
    if i < j {
      ClosedIsFinal(states, actions, i, j - 1, r);
      var s, a := states[j - 1], actions[j - 1];
      assert Steps(s, a, states[j]);
      RunKeepsInv(states, actions, j - 1);
      assert RecordOk(s, r);
      if !a.Arrive? && !a.Enter? {
        assert CallOk(s, a.call);
      }
    }
  }

  /** The call that leads a record, and its result, never change either. */
  lemma {:induction false} ReturnedIsFinal(states: seq<State>, actions: seq<Action>, i: nat, j: nat, c: nat)
    requires IsRun(states, actions) && i <= j < |states|
    requires c < |states[i].calls| && states[i].calls[c].Returned?
    ensures c < |states[j].calls| && states[j].calls[c] == states[i].calls[c]
    decreases j - i
  {
    if i < j {
      ReturnedIsFinal(states, actions, i, j - 1, c);
      assert Steps(states[j - 1], actions[j - 1], states[j]);
    }
  }

  /** Every call that returns in a run returns what the leader of its record got from fn:
      the leader its own result or panic, a follower the stored result, or the zero value
      if fn panicked. */
  lemma EveryCallGetsItsLeadersResult(states: seq<State>, actions: seq<Action>, i: nat, c: nat)
    requires IsRun(states, actions) && i < |states|
    requires c < |states[i].calls| && states[i].calls[c].Returned?
    ensures var s := states[i];
      var p := s.calls[c];
      && p.rec < |s.records| && s.records[p.rec].leader < |s.calls|
      && var l := s.calls[s.records[p.rec].leader];
         && (l.Closing? || l.Returned?) && l.rec == p.rec && l.key == p.key
         && (s.records[p.rec].leader != c ==> p.got == Some(if l.got.Some? then l.got.value else Nothing))
  {
    RunKeepsInv(states, actions, i);
    assert CallOk(states[i], c);
    var r := states[i].calls[c].rec;
    assert RecordOk(states[i], r);
    assert CallOk(states[i], states[i].records[r].leader);
  }

  /** A call is waiting on record `r`, or has returned from it. */
  predicate JoinedTo(s: State, c: nat, r: nat) {
    c < |s.calls| && (s.calls[c].Waiting? || s.calls[c].Returned?) && s.calls[c].rec == r
  }

  /** A follower stays with the record it joined: at every later time it waits on that
      record or has returned from it. */
  lemma {:induction false} FollowerStays(states: seq<State>, actions: seq<Action>, i: nat, j: nat, c: nat)
    requires IsRun(states, actions) && i <= j < |states|
    requires c < |states[i].calls| && states[i].calls[c].Waiting?
    ensures JoinedTo(states[j], c, states[i].calls[c].rec)
    decreases j - i
  {
    if i < j {
      FollowerStays(states, actions, i, j - 1, c);
      assert Steps(states[j - 1], actions[j - 1], states[j]);
    }
  }

  /** Every follower that returns has exactly the result that the leader of the record it
      once joined got from fn, or the zero value if fn panicked. */
  lemma FollowerGetsWhatItJoined(states: seq<State>, actions: seq<Action>, i: nat, j: nat, c: nat)
    requires IsRun(states, actions) && i <= j < |states|
    requires c < |states[i].calls| && states[i].calls[c].Waiting?
    requires c < |states[j].calls| && states[j].calls[c].Returned?
    ensures var r := states[i].calls[c].rec;
      && r < |states[i].records| && r < |states[j].records|
      && states[i].records[r].leader == states[j].records[r].leader != c
      && states[i].records[r].leader < |states[j].calls|
      && var l := states[j].calls[states[i].records[r].leader];
         && (l.Closing? || l.Returned?) && l.rec == r
         && states[j].calls[c].got == Some(if l.got.Some? then l.got.value else Nothing)
  {
    RunKeepsInv(states, actions, i);
    assert CallOk(states[i], c);
    var r := states[i].calls[c].rec;
    assert RecordOk(states[i], r);
    FollowerStays(states, actions, i, j, c);
    LeaderStays(states, actions, i, j, r);
    EveryCallGetsItsLeadersResult(states, actions, j, c);
  }

  lemma {:induction false} LeaderStays(states: seq<State>, actions: seq<Action>, i: nat, j: nat, r: nat)
    requires IsRun(states, actions) && i <= j < |states| && r < |states[i].records|
    ensures r < |states[j].records| && states[j].records[r].leader == states[i].records[r].leader
    decreases j - i
  {
    if i < j {
      LeaderStays(states, actions, i, j - 1, r);
      assert Steps(states[j - 1], actions[j - 1], states[j]);
    }
  }

  /** A call that enters runs fn itself exactly if no other call is at work on its key; if
      one is, it waits on that call's record. */
  lemma EnterLeadsIff(states: seq<State>, actions: seq<Action>, i: nat, c: nat)
    requires IsRun(states, actions) && i < |actions| && actions[i] == Enter(c)
    ensures c < |states[i].calls| && states[i].calls[c].Arriving? && c < |states[i + 1].calls|
    ensures var s, p := states[i], states[i + 1].calls[c];
      var busy := exists d :: 0 <= d < |s.calls| && Leading(s.calls[d]) && s.calls[d].key == s.calls[c].key;
      && p.key == s.calls[c].key
      && (p.Running? <==> !busy)
      && (p.Waiting? <==> exists d :: 0 <= d < |s.calls| && Leading(s.calls[d]) && s.calls[d].key == p.key
                                      && s.calls[d].rec == p.rec)
  {
    var s := states[i];
    assert Steps(s, actions[i], states[i + 1]);
    RunKeepsInv(states, actions, i);
    var key := s.calls[c].key;
    if key in s.inflight {
      assert FlightOk(s, key);
      var r := s.inflight[key];
      assert RecordOk(s, r) && CallOk(s, s.records[r].leader);
      assert Leading(s.calls[s.records[r].leader]);
    } else {
      forall d | 0 <= d < |s.calls| && Leading(s.calls[d])
        ensures s.calls[d].key != key
      {
        assert CallOk(s, d);
      }
    }
  }

  /** The call led its record to the end of fn, with this result or panic. */
  predicate Led(s: State, c: nat, got: Option<Outcome>) {
    c < |s.calls| && (s.calls[c].Filled? || s.calls[c].Closing? || s.calls[c].Returned?)
    && s.calls[c].rec < |s.records| && s.records[s.calls[c].rec].leader == c && s.calls[c].got == got
  }

  lemma LedStep(s: State, a: Action, c: nat, got: Option<Outcome>)
    requires Inv(s) && Enabled(s, a) && (!a.Arrive? && !a.Enter? ==> s.calls[a.call].rec < |s.records|)
    ensures Led(Next(s, a), c, got) <==> Led(s, c, got) || a == Finish(c, got)
  {
    ActorAtRecord(s, a);
    assert c < |s.calls| ==> CallOk(s, c);
    if c < |s.calls| && !s.calls[c].Arriving? {
      assert RecordOk(s, s.calls[c].rec);
    }
    hide Inv, FlightOk;
  }

  /** A leader carries, and returns, exactly what its own fn gave. */
  lemma {:induction false} LedIffFinished(states: seq<State>, actions: seq<Action>, i: nat, c: nat,
                                          got: Option<Outcome>)
    requires IsRun(states, actions) && i < |states|
    ensures Led(states[i], c, got) <==> exists k: nat :: k < i && actions[k] == Finish(c, got)
  {
    if i > 0 {
      LedIffFinished(states, actions, i - 1, c, got);
      RunKeepsInv(states, actions, i - 1);
      assert Steps(states[i - 1], actions[i - 1], states[i]);
      LedStep(states[i - 1], actions[i - 1], c, got);
      hide Next, Enabled, Led, Inv;
      if k: nat :| k < i && actions[k] == Finish(c, got) {
        assert k < i - 1 || k == i - 1;
      }
    }
  }

  // ---- Progress ----

  /** No deadlock: as long as some call has not returned, some call can take a step. */
  lemma SomeCallCanStep(states: seq<State>, actions: seq<Action>, i: nat, c: nat) returns (a: Action)
    requires IsRun(states, actions) && i < |states|
    requires c < |states[i].calls| && !states[i].calls[c].Returned?
    ensures Enabled(states[i], a) && !a.Arrive?
  {
    RunKeepsInv(states, actions, i);
    var s := states[i];
    assert CallOk(s, c);
    match s.calls[c]
    case Arriving(_) => a := Enter(c);
    case Running(_, _) => a := Finish(c, None);
    case Filled(_, _, _) => a := Close(c);
    case Closing(_, _, _) => a := Delete(c);
    case Waiting(_, r) =>
      assert RecordOk(s, r);
      var l := s.records[r].leader;
      if s.records[r].closed {
        a := Wake(c);
      } else if s.calls[l].Running? {
        a := Finish(l, None);
      } else {
        a := Close(l);
      }
  }

  function StepsLeft(p: Phase): nat {
    match p
    case Arriving(_) => 4
    case Running(_, _) => 3
    case Filled(_, _, _) => 2
    case Closing(_, _, _) => 1
    case Waiting(_, _) => 1
    case Returned(_, _, _) => 0
  }

  function Work(calls: seq<Phase>): nat {
    if calls == [] then 0 else Work(calls[..|calls| - 1]) + StepsLeft(calls[|calls| - 1])
  }

  lemma {:induction false} WorkUpdate(calls: seq<Phase>, c: nat, p: Phase)
    requires c < |calls|
    ensures Work(calls[c := p]) == Work(calls) - StepsLeft(calls[c]) + StepsLeft(p)
  {
    var n := |calls| - 1;
    var u := calls[c := p];
    if c == n {
      assert u[..n] == calls[..n];
    } else {
      assert u[..n] == calls[..n][c := p];
      WorkUpdate(calls[..n], c, p);
    }
  }

  /** Every step but an arrival uses up work: each call takes at most four steps. */
  lemma StepsUseWork(s: State, a: Action)
    requires Inv(s) && Enabled(s, a) && !a.Arrive? && (!a.Enter? ==> s.calls[a.call].rec < |s.records|)
    ensures Work(Next(s, a).calls) < Work(s.calls)
  {
    WorkUpdate(s.calls, a.call, Next(s, a).calls[a.call]);
    assert Next(s, a).calls == s.calls[a.call := Next(s, a).calls[a.call]];
  }
}
