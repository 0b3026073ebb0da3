/** Bounded waiting on queue refusals before the first chunk (queue_wait.go).

    The class records every call it makes on its stream, its transport and its
    clock; `Protocol` is the grammar of such recordings, and the laws hold for
    every recording, whatever the transport and the upstream streams do. */
module QueueAwait {
  import opened Prelude
  import opened Chunks

  const SECOND := 1_000_000_000
  const TWO63 := 0x8000_0000_0000_0000
  const TWO64 := 0x1_0000_0000_0000_0000
  const QUEUE_UNAVAILABLE := "queue_unavailable"

  /** The largest hint whose nanoseconds fit a 64-bit duration. */
  const MAX_HINT := 9_223_372_036

  predicate In64(x: int) {
    -TWO63 <= x < TWO63
  }

  /** Two's complement wrap-around of 64-bit arithmetic. */
  function Wrap64(x: int): (y: int)
    ensures In64(y)
    ensures In64(x) ==> y == x
  {
    (x + TWO63) % TWO64 - TWO63
  }

  datatype Policy = Policy(maxWait: int, budget: int, maxAttempts: int)

  const DEFAULT_POLICY := Policy(35 * SECOND, 70 * SECOND, 3)

  datatype Event =
    | Opened                                    // StreamChat gave a stream
    | OpenFailed(error: Error)                  // StreamChat failed
    | Delivered(chunk: Chunk)                   // the stream gave a chunk
    | Refused(error: Error)                     // the stream gave an error
    | CancelledInner                            // the stream was cancelled
    | Slept(delay: int, outcome: Option<Error>) // the wait, and what cut it short

  /** What StreamChat gives: an error, or a stream with its results. */
  datatype Open = NoStream(error: Error) | Stream(results: seq<Read>)

  /** What goes on outside: the outcome of the n-th StreamChat call made here, counted
      from `first`, and what cuts the n-th wait short, if anything. */
  datatype World = World(first: nat, outcome: nat -> Open, interrupt: nat -> Option<Error>)

  function Opening(w: World, n: nat): Open {
    w.outcome(w.first + n)
  }

  /** The stream that the n-th call gave, if it gave one. */
  function StreamAt(w: World, n: nat): seq<Read> {
    if Opening(w, n).Stream? then Opening(w, n).results else []
  }

  /** The waiting hint of a structured queue refusal, 0 if it has none. */
  function Hint(e: Error): int {
    if e.Business? && e.category == QUEUE_UNAVAILABLE && e.queue.Some? then
      if e.queue.value.retryAfter > 0 then e.queue.value.retryAfter
      else if e.queue.value.waitTime > 0 then e.queue.value.waitTime
      else 0
    else 0
  }

  function DelayOf(e: Error): int {
    Wrap64(Hint(e) * SECOND)
  }

  // ---- What a recording says ----

  function Attempts(t: seq<Event>): nat {
    if t == [] then 0 else Attempts(Front(t)) + if Last(t).Opened? then 1 else 0
  }

  /** All StreamChat calls, failed ones included. */
  function Opens(t: seq<Event>): nat {
    if t == [] then 0 else Opens(Front(t)) + if Last(t).Opened? || Last(t).OpenFailed? then 1 else 0
  }

  /** The waiting time as the program adds it up. */
  function Waited(t: seq<Event>): int {
    if t == [] then 0
    else if Last(t).Slept? && Last(t).outcome.None? then Wrap64(Waited(Front(t)) + Last(t).delay)
    else Waited(Front(t))
  }

  /** The completed waiting time without wrap-around. */
  function TotalWait(t: seq<Event>): int {
    if t == [] then 0
    else TotalWait(Front(t)) + if Last(t).Slept? && Last(t).outcome.None? then Last(t).delay else 0
  }

  function CompletedWaits(t: seq<Event>): nat {
    if t == [] then 0
    else CompletedWaits(Front(t)) + if Last(t).Slept? && Last(t).outcome.None? then 1 else 0
  }

  /** Waits, whether completed or cut short. */
  function Sleeps(t: seq<Event>): nat {
    if t == [] then 0 else Sleeps(Front(t)) + if Last(t).Slept? then 1 else 0
  }

  /** What the stream open at the end of a recording still has to give. */
  function Rest(w: World, t: seq<Event>): seq<Read> {
    if t == [] then []
    else match Last(t)
      case Delivered(_) => Tail(Rest(w, Front(t)))
      case Refused(_) => Tail(Rest(w, Front(t)))
      case Opened => StreamAt(w, Opens(Front(t)))
      case OpenFailed(_) => Rest(w, Front(t))
      case CancelledInner => Rest(w, Front(t))
      case Slept(_, _) => Rest(w, Front(t))
  }

  predicate Started(t: seq<Event>) {
    exists i :: 0 <= i < |t| && t[i].Delivered?
  }

  /** What a recording amounts to: the rest of the open stream, and the counters. */
  datatype Waiter = Waiter(results: seq<Read>, opens: nat, sleeps: nat, attempts: int, waited: int, started: bool)

  function StateAfter(w: World, t: seq<Event>): Waiter {
    Waiter(Rest(w, t), Opens(t), Sleeps(t), Attempts(t), Waited(t), Started(t))
  }

  /** An error answered by waiting: a structured refusal with a hint, before any chunk,
      within the attempt count, the cap on one wait and the budget. */
  predicate Worth(p: Policy, s: Waiter, e: Error) {
    && !s.started
    && s.attempts < p.maxAttempts
    && Hint(e) > 0
    && DelayOf(e) <= p.maxWait
    && Wrap64(s.waited + DelayOf(e)) <= p.budget
  }

  predicate Waits(p: Policy, before: seq<Event>, e: Error) {
    Worth(p, Waiter([], 0, 0, Attempts(before), Waited(before), Started(before)), e)
  }

  /** The error being waited for at the end of a recording. */
  predicate Waiting(p: Policy, t: seq<Event>) {
    t != [] && Last(t).Refused? && Waits(p, Front(t), Last(t).error)
  }

  /** What may follow a recording: only an error that is waited for is followed by
      cancel, sleep and, if the sleep was completed, one reopen. */
  predicate Allowed(p: Policy, f: seq<Event>, e: Event) {
    f != [] &&
    match e
    case Delivered(_) => Readable(p, f)
    case Refused(_) => Readable(p, f)
    case CancelledInner => Waiting(p, f)
    case Slept(d, _) =>
      Last(f).CancelledInner? && |f| >= 2 && Last(Front(f)).Refused? && d == DelayOf(Last(Front(f)).error)
    case Opened => Last(f).Slept? && Last(f).outcome.None?
    case OpenFailed(_) => Last(f).Slept? && Last(f).outcome.None?
  }

  /** The grammar: a stream is opened, then each event follows what it may follow. */
  predicate Protocol(p: Policy, t: seq<Event>) {
    t != [] &&
    if |t| == 1 then t[0].Opened? else Protocol(p, Front(t)) && Allowed(p, Front(t), Last(t))
  }

  /** The program is about to read the stream. */
  predicate Readable(p: Policy, t: seq<Event>) {
    t != [] && !Waiting(p, t) && !Last(t).CancelledInner?
    && !(Last(t).Slept? && Last(t).outcome.None?)
  }

  /** An event that the outside brought about: results come from the open stream in
      order, waits end as the clock and the client have it, and openings as the
      transport has it. */
  predicate Happens(w: World, f: seq<Event>, e: Event) {
    match e
    case Delivered(chunk) => Head(Rest(w, f)) == Got(chunk)
    case Refused(error) => Head(Rest(w, f)) == Fail(error)
    case CancelledInner => true
    case Slept(_, outcome) => outcome == w.interrupt(Sleeps(f))
    case Opened => Opening(w, Opens(f)).Stream?
    case OpenFailed(error) => Opening(w, Opens(f)) == NoStream(error)
  }

  predicate True(w: World, t: seq<Event>) {
    t == [] || (True(w, Front(t)) && Happens(w, Front(t), Last(t)))
  }

  /** Every hint fits a 64-bit duration. */
  ghost predicate HintsFit(t: seq<Event>) {
    forall i :: 0 <= i < |t| && t[i].Refused? ==> Hint(t[i].error) <= MAX_HINT
  }

  // ---- The laws ----

  /** Hints that fit are exactly those whose nanoseconds do not wrap around. */
  lemma HintFitsIff(hint: int)
    requires 0 < hint < TWO63
    ensures hint <= MAX_HINT <==> Wrap64(hint * SECOND) == hint * SECOND
  {}

  lemma FrontTake<T>(t: seq<T>, k: nat)
    requires k < |t|
    ensures Front(t[..k + 1]) == t[..k] && Last(t[..k + 1]) == t[k]
  {}

  /** A part of an allowed recording is allowed. */
  lemma {:induction false} ProtocolTake(p: Policy, t: seq<Event>, k: nat)
    requires Protocol(p, t) && 0 < k <= |t|
    ensures Protocol(p, t[..k]) && (k > 1 ==> Allowed(p, t[..k - 1], t[k - 1]))
    decreases |t| - k
  {
    if k == |t| {
      assert t[..k] == t;
      assert Front(t) == t[..k - 1];
    } else {
      ProtocolTake(p, t, k + 1);
      FrontTake(t, k);
      if k > 1 {
        FrontTake(t, k - 1);
      }
    }
  }

  /** A reopen comes right after a refusal, the cancelling of the refusing stream and a
      completed wait of the hinted time; nothing had been delivered before. */
  lemma ReopenNeedsWait(p: Policy, t: seq<Event>, i: nat)
    requires Protocol(p, t) && 0 < i < |t| && (t[i].Opened? || t[i].OpenFailed?)
    ensures i >= 4 && t[i - 3].Refused? && t[i - 2].CancelledInner?
    ensures Waits(p, t[..i - 3], t[i - 3].error)
    ensures t[i - 1] == Slept(DelayOf(t[i - 3].error), None)
    ensures !Started(t[..i])
  {
    hide Protocol, Waits, DelayOf;
    ProtocolTake(p, t, i + 1);
    ProtocolTake(p, t, i);
    FrontTake(t, i - 1);
    assert t[i - 1].Slept? && t[i - 1].outcome.None?;
    LongerThanOne(p, t[..i]);
    FrontTake(t, i - 2);
    ProtocolTake(p, t, i - 1);
    LongerThanOne(p, t[..i - 1]);
    FrontTake(t, i - 3);
    ProtocolTake(p, t, i - 2);
    LongerThanOne(p, t[..i - 2]);
    NotStarted(p, t, i);
  }

  lemma LongerThanOne(p: Policy, t: seq<Event>)
    requires Protocol(p, t) && !Last(t).Opened?
    ensures |t| > 1
  {}

  lemma NotStarted(p: Policy, t: seq<Event>, i: nat)
    requires 3 <= i <= |t| && t[i - 3].Refused? && Waits(p, t[..i - 3], t[i - 3].error)
    requires !t[i - 2].Delivered? && !t[i - 1].Delivered?
    ensures !Started(t[..i])
  {
    if k :| 0 <= k < |t[..i]| && t[..i][k].Delivered? {
      assert k < i - 3 && t[..i - 3][k].Delivered?;
    }
  }

  lemma {:induction false} AttemptsBounded(p: Policy, t: seq<Event>)
    requires Protocol(p, t)
    ensures 1 <= Attempts(t) <= Max(1, p.maxAttempts)
    ensures (Waiting(p, t) || Last(t).CancelledInner? || Last(t).Slept?) ==> Attempts(t) < p.maxAttempts
  {
    if |t| > 1 {
      AttemptsBounded(p, Front(t));
    }
  }

  /** Each wait keeps to the cap, and what the program adds up keeps to the budget. */
  lemma {:induction false} WaitsBounded(p: Policy, t: seq<Event>)
    requires Protocol(p, t) && 0 <= p.budget
    ensures forall i :: 0 <= i < |t| && t[i].Slept? ==> t[i].delay <= p.maxWait
    ensures Waited(t) <= p.budget
    ensures Last(t).CancelledInner? ==>
      DelayOf(Last(Front(t)).error) <= p.maxWait && Wrap64(Waited(t) + DelayOf(Last(Front(t)).error)) <= p.budget
  {
    if |t| > 1 {
      var f := Front(t);
      WaitsBounded(p, f);
      assert forall i :: 0 <= i < |f| ==> t[i] == f[i];
      if Last(t).CancelledInner? {
        assert Waiting(p, f);
      }
    }
  }

  /** With hints that fit, every wait is at least one second, the program's sum is the
      true waiting time, and that keeps to the budget. */
  lemma {:induction false} TrueWaitBounded(p: Policy, t: seq<Event>)
    requires Protocol(p, t) && HintsFit(t) && 0 <= p.budget && p.budget + p.maxWait < TWO63
    ensures forall i :: 0 <= i < |t| && t[i].Slept? ==> SECOND <= t[i].delay <= p.maxWait
    ensures TotalWait(t) == Waited(t) && CompletedWaits(t) * SECOND <= TotalWait(t) <= p.budget
    ensures Last(t).CancelledInner? ==> SECOND <= DelayOf(Last(Front(t)).error)
    ensures Last(t).CancelledInner? ==> TotalWait(t) + DelayOf(Last(Front(t)).error) <= p.budget
  {
    WaitsBounded(p, t);
    if |t| > 1 {
      var f := Front(t);
      assert HintsFit(f);
      TrueWaitBounded(p, f);
      assert forall i :: 0 <= i < |f| ==> t[i] == f[i];
      if Last(t).CancelledInner? {
        assert Waiting(p, f) && f[|f| - 1].Refused?;
        HintFitsIff(Hint(Last(f).error));
        assert Wrap64(Waited(f) + DelayOf(Last(f).error)) <= p.budget;
      }
    }
  }

  lemma {:induction false} OpensAreWaits(p: Policy, t: seq<Event>)
    requires Protocol(p, t)
    ensures Opens(t) + (if Last(t).Slept? && Last(t).outcome.None? then 1 else 0) == 1 + CompletedWaits(t)
  {
    if |t| > 1 {
      OpensAreWaits(p, Front(t));
    }
  }

  /** StreamChat is called at most once more than the budget has seconds, however many
      reopens fail and however often the caller reads on. */
  lemma OpensBounded(p: Policy, t: seq<Event>)
    requires Protocol(p, t) && HintsFit(t) && 0 <= p.budget && p.budget + p.maxWait < TWO63
    ensures Opens(t) <= 1 + p.budget / SECOND
  {
    OpensAreWaits(p, t);
    TrueWaitBounded(p, t);
  }

  /** StreamChat calls that failed. */
  function Failed(t: seq<Event>): nat {
    if t == [] then 0 else Failed(Front(t)) + if Last(t).OpenFailed? then 1 else 0
  }

  /** Every call is an attempt or a failure, so the attempts are all the calls exactly if
      none failed. */
  lemma {:induction false} OpensAreAttempts(t: seq<Event>)
    ensures Opens(t) == Attempts(t) + Failed(t)
    ensures Opens(t) == Attempts(t) <==> forall i :: 0 <= i < |t| ==> !t[i].OpenFailed?
  {
    if t != [] {
      OpensAreAttempts(Front(t));
      assert forall i :: 0 <= i < |t| - 1 ==> t[i] == Front(t)[i];
      if Last(t).OpenFailed? {
        assert t[|t| - 1].OpenFailed?;
      }
    }
  }

  /** maxAttempts bounds all StreamChat calls for every caller that stops at its first
      error: before its last read, none of them had failed. */
  lemma TotalIfCallerStops(p: Policy, t: seq<Event>)
    requires Protocol(p, t) && forall i :: 0 <= i < |t| - 1 ==> !t[i].OpenFailed?
    ensures Opens(t) <= Max(1, p.maxAttempts)
  {
    AttemptsBounded(p, t);
    OpensAreAttempts(Front(t));
    if |t| > 1 {
      AttemptsBounded(p, Front(t));
    }
  }

  /** One round of a refusal with a one-second hint and a failed reopening. */
  const ASK := Business(10605, QUEUE_UNAVAILABLE, Some(QueueInfo(1, 0)))
  const ROUND := [Refused(ASK), CancelledInner, Slept(SECOND, None), OpenFailed(EndOfStream)]

  /** A caller that reads on after every failed reopening. */
  function Rounds(n: nat): seq<Event> {
    if n == 0 then [Opened] else Rounds(n - 1) + ROUND
  }

  /** The outside that makes it so: one stream of refusals, then no stream. */
  function Stubborn(n: nat): World {
    World(0, k => if k == 0 then Stream(seq(n, _ => Fail(ASK))) else NoStream(EndOfStream), _ => None)
  }

  /** What one more round adds to a recording that ends in a failed opening or is new. */
  lemma RoundAdds(p: Policy, w: World, t: seq<Event>)
    requires Protocol(p, t) && True(w, t) && (Last(t).OpenFailed? || Last(t).Opened?)
    requires !Started(t) && Attempts(t) == 1 < p.maxAttempts
    requires SECOND <= p.maxWait && 0 <= Waited(t) && Waited(t) + SECOND <= p.budget && p.budget < TWO63
    requires Head(Rest(w, t)) == Fail(ASK) && w.interrupt(Sleeps(t)) == None
    requires Opening(w, Opens(t)) == NoStream(EndOfStream)
    ensures var u := t + ROUND;
      && Protocol(p, u) && True(w, u) && Last(u).OpenFailed?
      && StateAfter(w, u) == Waiter(Tail(Rest(w, t)), Opens(t) + 1, Sleeps(t) + 1, 1, Waited(t) + SECOND, false)
  {
    hide Rest, Opens, Sleeps, Attempts, Waited, Started;
    var a := t + [Refused(ASK)];
    var b := a + [CancelledInner];
    var c := b + [Slept(SECOND, None)];
    var d := c + [OpenFailed(EndOfStream)];
    StateSnoc(w, t, Refused(ASK));
    StateSnoc(w, a, CancelledInner);
    StateSnoc(w, b, Slept(SECOND, None));
    StateSnoc(w, c, OpenFailed(EndOfStream));
    assert Front(a) == t && Front(b) == a && Front(c) == b && Front(d) == c;
    assert Protocol(p, a) && True(w, a);
    assert Waiting(p, a);
    assert Protocol(p, b) && True(w, b);
    assert Protocol(p, c) && True(w, c);
    assert t + ROUND == d;
  }

  lemma {:induction false} RoundsAllowed(p: Policy, n: nat, total: nat)
    requires n <= total && n * SECOND <= p.budget < TWO63 && SECOND <= p.maxWait && 1 < p.maxAttempts
    ensures var w, t := Stubborn(total), Rounds(n);
      && Protocol(p, t) && True(w, t) && HintsFit(t) && (Last(t).OpenFailed? || Last(t).Opened?)
      && StateAfter(w, t) == Waiter(seq(total - n, _ => Fail(ASK)), n + 1, n, 1, n * SECOND, false)
  {
    var w := Stubborn(total);
    if n == 0 {
      FirstOpened(w);
    } else {
      RoundsAllowed(p, n - 1, total);
      var t := Rounds(n - 1);
      RoundAdds(p, w, t);
      assert Tail(seq(total - (n - 1), _ => Fail(ASK))) == seq(total - n, _ => Fail(ASK));
      HintsFitRound(t);
    }
  }

  lemma HintsFitRound(t: seq<Event>)
    requires HintsFit(t)
    ensures HintsFit(t + ROUND)
  {
    var u := t + ROUND;
    forall i | 0 <= i < |u| && u[i].Refused?
      ensures Hint(u[i].error) <= MAX_HINT
    {
      if i >= |t| {
        assert u[i] == ROUND[i - |t|];
      }
    }
  }

  /** The bound that the comment on maxAttempts states for all StreamChat calls. */
  ghost predicate TotalBounded(p: Policy) {
    forall w, t :: Protocol(p, t) && True(w, t) && HintsFit(t) ==> Opens(t) <= Max(1, p.maxAttempts)
  }

  /** For callers that may read on after errors, that bound holds exactly for the policies
      that never wait, or whose budget pays for fewer waits than there are attempts. */
  lemma TotalBoundedIff(p: Policy)
    requires 0 <= p.budget && p.budget + p.maxWait < TWO63
    ensures TotalBounded(p) <==> p.maxAttempts <= 1 || p.maxWait < SECOND || p.budget < p.maxAttempts * SECOND
  {
    if p.maxAttempts <= 1 || p.maxWait < SECOND || p.budget < p.maxAttempts * SECOND {
      forall w, t | Protocol(p, t) && True(w, t) && HintsFit(t)
        ensures Opens(t) <= Max(1, p.maxAttempts)
      {
        FewWaits(p, t);
      }
    } else {
      var n: nat := p.maxAttempts;
      RoundsAllowed(p, n, n);
      assert Opens(Rounds(n)) == n + 1;
    }
  }

  lemma FewWaits(p: Policy, t: seq<Event>)
    requires Protocol(p, t) && HintsFit(t) && 0 <= p.budget && p.budget + p.maxWait < TWO63
    requires p.maxAttempts <= 1 || p.maxWait < SECOND || p.budget < p.maxAttempts * SECOND
    ensures Opens(t) <= Max(1, p.maxAttempts)
  {
    TrueWaitBounded(p, t);
    OpensAreWaits(p, t);
    if p.maxAttempts <= 1 || p.maxWait < SECOND {
      NoSleepNoWait(t);
      forall i | 0 <= i < |t|
        ensures !t[i].Slept?
      {
        if t[i].Slept? {
          SleepNeedsAttempts(p, t, i);
        }
      }
    }
  }

  lemma {:induction false} NoSleepNoWait(t: seq<Event>)
    ensures (forall i :: 0 <= i < |t| ==> !t[i].Slept?) ==> CompletedWaits(t) == 0
  {
    if t != [] {
      NoSleepNoWait(Front(t));
      assert forall i :: 0 <= i < |t| - 1 ==> t[i] == Front(t)[i];
    }
  }

  lemma SleepNeedsAttempts(p: Policy, t: seq<Event>, i: nat)
    requires Protocol(p, t) && i < |t| && t[i].Slept?
    ensures p.maxAttempts > 1
  {
    ProtocolTake(p, t, i + 1);
    AttemptsBounded(p, t[..i + 1]);
  }

  /** The policy in use is not among them: four calls where the comment allows three. */
  lemma DefaultExceedsTotal()
    ensures Protocol(DEFAULT_POLICY, Rounds(3)) && True(Stubborn(3), Rounds(3))
    ensures Opens(Rounds(3)) == 4 > DEFAULT_POLICY.maxAttempts && !TotalBounded(DEFAULT_POLICY)
  {
    RoundsAllowed(DEFAULT_POLICY, 3, 3);
    TotalBoundedIff(DEFAULT_POLICY);
  }

  /** A hint that does not fit can wrap around to a negative wait: the cap and the budget
      let it through, no time passes, and the budget grows by 292 years. */
  lemma OverflowingHint()
    ensures var e := Business(10605, QUEUE_UNAVAILABLE, Some(QueueInfo(MAX_HINT + 1, 0)));
      var t := [Opened, Refused(e), CancelledInner, Slept(DelayOf(e), None), Opened];
      && Protocol(DEFAULT_POLICY, t) && !HintsFit(t)
      && DelayOf(e) == -9_223_372_036_709_551_616
      && Waited(t) == -9_223_372_036_709_551_616
  {
    var e := Business(10605, QUEUE_UNAVAILABLE, Some(QueueInfo(MAX_HINT + 1, 0)));
    var t := [Opened, Refused(e), CancelledInner, Slept(DelayOf(e), None), Opened];
    assert Front(t) == [Opened, Refused(e), CancelledInner, Slept(DelayOf(e), None)];
    assert Front(Front(t)) == [Opened, Refused(e), CancelledInner];
    assert Front(Front(Front(t))) == [Opened, Refused(e)];
    assert Front(Front(Front(Front(t)))) == [Opened];
    assert Front([Opened, Refused(e), CancelledInner]) == [Opened, Refused(e)];
    assert Front([Opened, Refused(e)]) == [Opened] && Front([Opened]) == [];
    assert Waited([]) == 0 && Waited([Opened]) == 0 && Waited([Opened, Refused(e)]) == 0;
    assert Waited([Opened, Refused(e), CancelledInner]) == Waited([Opened, Refused(e)]);
    assert Protocol(DEFAULT_POLICY, [Opened]);
    assert Protocol(DEFAULT_POLICY, [Opened, Refused(e)]);
    assert Protocol(DEFAULT_POLICY, [Opened, Refused(e), CancelledInner]);
    assert t[1].Refused?;
  }

  // ---- What a reader gets ----

  /** What one event changes. */
  function Step(w: World, s: Waiter, e: Event): Waiter {
    match e
    case Delivered(_) => s.(results := Tail(s.results), started := true)
    case Refused(_) => s.(results := Tail(s.results))
    case CancelledInner => s
    case Slept(d, outcome) =>
      s.(sleeps := s.sleeps + 1, waited := if outcome.None? then Wrap64(s.waited + d) else s.waited)
    case Opened => s.(results := StreamAt(w, s.opens), opens := s.opens + 1, attempts := s.attempts + 1)
    case OpenFailed(_) => s.(opens := s.opens + 1)
  }

  lemma StateSnoc(w: World, t: seq<Event>, e: Event)
    ensures StateAfter(w, t + [e]) == Step(w, StateAfter(w, t), e)
  {
    assert Front(t + [e]) == t;
    StartedSnoc(t, e);
  }

  lemma StartedSnoc(t: seq<Event>, e: Event)
    ensures Started(t + [e]) <==> Started(t) || e.Delivered?
  {
    var u := t + [e];
    assert u[|t|] == e;
    if i :| 0 <= i < |t| && t[i].Delivered? {
      assert u[i].Delivered?;
    }
  }

  /** Where every recording starts. */
  function Fresh(w: World): Waiter {
    Waiter(StreamAt(w, 0), 1, 0, 1, 0, false)
  }

  lemma FirstOpened(w: World)
    requires Opening(w, 0).Stream?
    ensures True(w, [Opened]) && StateAfter(w, [Opened]) == Fresh(w)
  {
    assert [Opened] == [] + [Opened];
    StateSnoc(w, [], Opened);
    assert Front([Opened]) == [] && True(w, []) && Opens([]) == 0;
  }

  /** A wait and, if it is completed, a reopening: what goes wrong, if anything, and the
      state afterwards. */
  function Reopen(w: World, s: Waiter, delay: int): (Option<Error>, Waiter) {
    var cut := w.interrupt(s.sleeps);
    var slept := Step(w, s, Slept(delay, cut));
    if cut.Some? then (cut, slept)
    else
      match Opening(w, s.opens)
      case NoStream(e) => (Some(e), Step(w, slept, OpenFailed(e)))
      case Stream(_) => (None, Step(w, slept, Opened))
  }

  /** All that a reader still gets, before end-of-stream for ever: the results of the open
      stream, except that a refusal worth waiting for is replaced by what follows the
      wait, namely its failure or the results of the next stream. */
  function Awaited(w: World, p: Policy, s: Waiter): seq<Read>
    decreases Max(0, p.maxAttempts - s.attempts), |s.results|
  {
    if s.results == [] then []
    else
      match s.results[0]
      case Got(chunk) => [Got(chunk)] + Awaited(w, p, Step(w, s, Delivered(chunk)))
      case Fail(e) =>
        var refused := Step(w, s, Refused(e));
        if !Worth(p, s, e) then [Fail(e)] + Awaited(w, p, refused)
        else
          var (failure, next) := Reopen(w, refused, DelayOf(e));
          (if failure.Some? then [Fail(failure.value)] else []) + Awaited(w, p, next)
  }

  /** The next result is the open stream's, unless it is worth waiting for. */
  lemma PassesOn(w: World, p: Policy, s: Waiter)
    ensures var r := Head(s.results);
      && (r.Got? ==> Pops(Awaited(w, p, s), r, Awaited(w, p, Step(w, s, Delivered(r.chunk)))))
      && (r.Fail? && !Worth(p, s, r.error) ==>
            Pops(Awaited(w, p, s), r, Awaited(w, p, Step(w, s, Refused(r.error)))))
  {
    if s.results == [] {
      assert Step(w, s, Refused(EndOfStream)) == s;
    }
  }

  /** A refusal worth waiting for gives way to the failure of the wait or reopening, or
      to the new stream. */
  lemma GivesWay(w: World, p: Policy, s: Waiter)
    requires Head(s.results).Fail?
    ensures var e := Head(s.results).error;
      Worth(p, s, e) ==>
      var (failure, next) := Reopen(w, Step(w, s, Refused(e)), DelayOf(e));
      if failure.Some? then Pops(Awaited(w, p, s), Fail(failure.value), Awaited(w, p, next))
      else Awaited(w, p, s) == Awaited(w, p, next)
  {}

  /** After the first chunk the handle is transparent. */
  lemma {:induction false} StartedPasses(w: World, p: Policy, s: Waiter)
    requires s.started
    ensures Awaited(w, p, s) == s.results
    decreases |s.results|
  {
    if s.results != [] {
      var e := if s.results[0].Got? then Delivered(s.results[0].chunk) else Refused(s.results[0].error);
      StartedPasses(w, p, Step(w, s, e));
      assert s.results == [s.results[0]] + s.results[1..];
    }
  }

  /** What is read of a stream by a caller that stops at the first error. */
  function Seen(s: seq<Read>): seq<Read> {
    if s == [] then [] else if s[0].Fail? then [s[0]] else [s[0]] + Seen(s[1..])
  }

  /** The stream of the n-th call opens with a queue refusal that has a hint. */
  predicate RefusesFirst(w: World, n: nat) {
    && Opening(w, n).Stream? && StreamAt(w, n) != []
    && StreamAt(w, n)[0].Fail? && Hint(StreamAt(w, n)[0].error) > 0
  }

  /** The stream of the n-th call is refused, and the wait is cut short by `e` or the next
      call fails with it. */
  ghost predicate FailsAfter(w: World, n: nat, e: Error) {
    RefusesFirst(w, n) && (Opening(w, n + 1) == NoStream(e) || exists k: nat :: w.interrupt(k) == Some(e))
  }

  /** What such a caller sees is one of the streams opened, whole and untouched, all those
      before it having been refused at once; or else the failure of a wait or opening. */
  lemma {:induction false} OneStream(w: World, p: Policy, s: Waiter) returns (n: nat)
    requires !s.started && s.opens > 0 && s.results == StreamAt(w, s.opens - 1) && Opening(w, s.opens - 1).Stream?
    ensures s.opens - 1 <= n && Opening(w, n).Stream?
    ensures forall k: nat :: s.opens - 1 <= k < n ==> RefusesFirst(w, k)
    ensures var got := Awaited(w, p, s);
      || Seen(got) == Seen(StreamAt(w, n))
      || (got != [] && got[0].Fail? && FailsAfter(w, n, got[0].error))
    decreases p.maxAttempts - s.attempts
  {
    n := s.opens - 1;
    if s.results == [] {
      return;
    }
    var got, r := Awaited(w, p, s), s.results[0];
    if r.Got? {
      StartedPasses(w, p, Step(w, s, Delivered(r.chunk)));
      assert got == [r] + s.results[1..] == s.results;
    } else if Worth(p, s, r.error) {
      var (failure, next) := Reopen(w, Step(w, s, Refused(r.error)), DelayOf(r.error));
      assert RefusesFirst(w, n);
      if failure.None? {
        assert got == [] + Awaited(w, p, next) == Awaited(w, p, next);
        n := OneStream(w, p, next);
      } else {
        assert got[0] == Fail(failure.value);
        assert w.interrupt(s.sleeps) == failure || Opening(w, n + 1) == NoStream(failure.value);
      }
    } else {
      assert got[0] == r && Seen(got) == [r] && Seen(s.results) == [r];
    }
  }

  /** The hint is the retry-after time if that is positive, else the wait time if that is;
      only a structured queue refusal has one. */
  lemma HintPrecedence(e: Error)
    ensures Hint(e) > 0 <==> e.Business? && e.category == "queue_unavailable" && e.queue.Some?
                             && (e.queue.value.retryAfter > 0 || e.queue.value.waitTime > 0)
    ensures Hint(e) > 0 ==>
      Hint(e) == if e.queue.value.retryAfter > 0 then e.queue.value.retryAfter else e.queue.value.waitTime
  {}

  /** In seconds: a refusal is waited for exactly before any chunk, with attempts left, and if
      the hinted time fits one wait and what is left of the budget; the wait is that long. */
  lemma WaitsIffAffordable(w: World, p: Policy, s: Waiter, e: Error, seconds: int)
    requires s.results != [] && s.results[0] == Fail(e) && 0 < seconds <= MAX_HINT && seconds == Hint(e)
    requires 0 <= s.waited <= p.budget && p.budget + seconds * 1_000_000_000 < TWO63
    ensures var refused := Step(w, s, Refused(e));
      var (failure, next) := Reopen(w, refused, seconds * 1_000_000_000);
      if !s.started && s.attempts < p.maxAttempts && seconds * 1_000_000_000 <= p.maxWait
         && s.waited + seconds * 1_000_000_000 <= p.budget
      then Awaited(w, p, s) == (if failure.Some? then [Fail(failure.value)] else []) + Awaited(w, p, next)
      else Awaited(w, p, s) == [Fail(e)] + Awaited(w, p, refused)
  {
    HintFitsIff(seconds);
    hide Reopen;
  }

  // ---- The program ----

  /** An arbitrary transport: the outcome of its n-th call. */
  class Transport {
    const outcome: nat -> Open
    var calls: nat

    constructor (outcome: nat -> Open)
      ensures this.outcome == outcome && calls == 0
    {
      this.outcome, calls := outcome, 0;
    }

    method StreamChat() returns (e: Option<Error>, handle: StreamHandle?)
      modifies this`calls
      ensures calls == old(calls) + 1
      ensures outcome(old(calls)).NoStream? ==> e == Some(outcome(old(calls)).error)
      ensures outcome(old(calls)).Stream? ==>
        e.None? && handle != null && fresh(handle) && handle.results == outcome(old(calls)).results && !handle.cancelled
    {
      var o := outcome(calls);
      calls := calls + 1;
      e, handle := None, null;
      match o
      case NoStream(error) => e := Some(error);
      case Stream(results) => handle := new StreamHandle(results);
    }
  }

  class QueueAwaitHandle {
    var inner: StreamHandle
    const transport: Transport
    const policy: Policy
    /** What cuts the n-th wait short, if anything: the client going away. */
    const interrupt: nat -> Option<Error>
    /** Which of the transport's calls opened the first stream. */
    ghost const first: nat
    /** Waits so far: the index of the next one. */
    var waits: nat
    var attempts: int
    var waited: int
    var started: bool
    ghost var trace: seq<Event>

    ghost function Outside(): World {
      World(first, transport.outcome, interrupt)
    }

    /** Where the program stands. */
    ghost function Now(): Waiter
      reads this, inner, transport
      requires transport.calls >= first
    {
      Waiter(inner.results, transport.calls - first, waits, attempts, waited, started)
    }

    /** The recording is allowed and true, and the program stands where it says. */
    ghost predicate Recorded()
      reads this, inner, transport
    {
      && Protocol(policy, trace) && True(Outside(), trace)
      && transport.calls >= first && Now() == StateAfter(Outside(), trace)
    }

    ghost predicate Valid()
      reads this, inner, transport
    {
      Recorded() && Readable(policy, trace)
    }

    /** All that is still to be delivered, before end-of-stream for ever. */
    ghost function Stream(): seq<Read>
      reads this, inner, transport
      requires transport.calls >= first
    {
      Awaited(Outside(), policy, Now())
    }

    /** After queueAwait has opened the first stream. */
    constructor (inner: StreamHandle, transport: Transport, policy: Policy, interrupt: nat -> Option<Error>)
      requires transport.calls > 0 && transport.outcome(transport.calls - 1) == Open.Stream(inner.results)
      ensures Valid() && trace == [Opened] && this.inner == inner
      ensures this.transport == transport && this.policy == policy && this.interrupt == interrupt
      ensures first == transport.calls - 1 && Now() == Fresh(Outside())
    {
      this.inner, this.transport, this.policy, this.interrupt := inner, transport, policy, interrupt;
      first := transport.calls - 1;
      waits, attempts, waited, started := 0, 1, 0, false;
      trace := [Opened];
      new;
      FirstOpened(Outside());
    }

    /** Delivers the next result of the awaited stream; every call made on the way is
        recorded. */
    method ReadChunk() returns (r: Read)
      requires Valid()
      modifies this, inner, transport
      ensures Valid() && old(trace) < trace
      ensures Pops(old(Stream()), r, Stream())
      ensures r.Got? ==> Last(trace) == Delivered(r.chunk)
      ensures r.Fail? ==>
        || Last(trace) == Refused(r.error)
        || Last(trace) == OpenFailed(r.error)
        || (Last(trace).Slept? && Last(trace).outcome == Some(r.error))
    {
      hide Protocol, True, Rest, Opens, Sleeps, Attempts, Waited, Started, Worth, Waits, Awaited, Reopen, DelayOf;
      while true
        invariant Valid() && old(trace) <= trace
        invariant inner == old(inner) || fresh(inner)
        invariant Stream() == old(Stream())
        decreases policy.maxAttempts - attempts
      {
        ghost var s := Now();
        PassesOn(Outside(), policy, s);
        var chunk := inner.ReadChunk();
        assert chunk == Head(s.results) && inner.results == Tail(s.results);
        if chunk.Got? {
          started := true;
          Record(Delivered(chunk.chunk));
          return chunk;
        }
        var again, failure := AfterError(chunk.error, s);
        if !again {
          return Fail(failure);
        }
      }
    }

    /** What an error of the stream leads to: it is returned, or it is waited for and the
        stream opened anew, or what goes wrong meanwhile is returned. */
    method AfterError(err: Error, ghost s: Waiter) returns (again: bool, failure: Error)
      requires Protocol(policy, trace) && True(Outside(), trace) && Readable(policy, trace)
      requires s == StateAfter(Outside(), trace) && Head(s.results) == Fail(err)
      requires transport.calls >= first && Now() == s.(results := Tail(s.results))
      modifies this, inner, transport
      ensures Valid() && old(trace) < trace
      ensures inner == old(inner) || fresh(inner)
      ensures again ==>
        Stream() == Awaited(Outside(), policy, s) && old(attempts) < policy.maxAttempts && old(attempts) < attempts
      ensures !again ==> Pops(Awaited(Outside(), policy, s), Fail(failure), Stream())
      ensures !again ==>
        || Last(trace) == Refused(failure)
        || Last(trace) == OpenFailed(failure)
        || (Last(trace).Slept? && Last(trace).outcome == Some(failure))
    {
      hide Protocol, True, Rest, Opens, Sleeps, Attempts, Waited, Started, Worth, Waits, Awaited, Reopen, DelayOf;
      PassesOn(Outside(), policy, s);
      GivesWay(Outside(), policy, s);
      WaitsIsWorth(Outside(), policy, trace, err);
      WorthIgnoresResults(policy, s, inner.results, err);
      var delay := Delay(err);
      Record(Refused(err));
      if delay.None? {
        return false, err;
      }
      var trouble := WaitAndReopen(delay.value);
      again, failure := trouble.None?, if trouble.Some? then trouble.value else err;
    }

    /** How long to wait for an error, if it is one to wait for. */
    method Delay(err: Error) returns (d: Option<int>)
      requires transport.calls >= first
      ensures d == if Worth(policy, Now(), err) then Some(DelayOf(err)) else None
      ensures d.Some? ==> attempts < policy.maxAttempts
    {
      if started {
        return None;
      }
      if !err.Business? || err.category != QUEUE_UNAVAILABLE || err.queue.None? {
        return None;
      }
      if attempts >= policy.maxAttempts {
        return None;
      }
      var hint := err.queue.value.retryAfter;
      if hint <= 0 {
        hint := err.queue.value.waitTime;
      }
      if hint <= 0 {
        return None;
      }
      var delay := Wrap64(hint * SECOND);
      if delay > policy.maxWait || Wrap64(waited + delay) > policy.budget {
        return None;
      }
      d := Some(delay);
    }

    /** Cancels the stream, waits, and opens the stream anew. */
    method WaitAndReopen(delay: int) returns (failure: Option<Error>)
      requires Recorded() && Waiting(policy, trace) && delay == DelayOf(Last(trace).error)
      modifies this, inner, transport
      ensures Valid() && old(trace) <= trace && old(inner).cancelled
      ensures (failure, Now()) == Reopen(Outside(), old(Now()), delay)
      ensures inner == old(inner) || fresh(inner)
      ensures failure.None? ==> attempts == old(attempts) + 1
      ensures failure.Some? ==>
        Last(trace) == OpenFailed(failure.value) || (Last(trace).Slept? && Last(trace).outcome == failure)
    {
      hide Protocol, True, Rest, Opens, Sleeps, Attempts, Waited, Started, Waits, DelayOf;
      inner.Cancel();
      Record(CancelledInner);
      failure := interrupt(waits);
      waits := waits + 1;
      Record(Slept(delay, failure));
      if failure.Some? {
        return;
      }
      waited := Wrap64(waited + delay);
      failure := OpenAgain();
    }

    /** After a completed wait: one more StreamChat. */
    method OpenAgain() returns (failure: Option<Error>)
      requires Recorded() && trace != [] && Last(trace).Slept? && Last(trace).outcome.None?
      modifies this, transport
      ensures Valid() && old(trace) <= trace
      ensures inner == old(inner) || fresh(inner)
      ensures match Opening(Outside(), old(Now()).opens)
        case NoStream(e) =>
          failure == Some(e) && Last(trace) == OpenFailed(e) && Now() == Step(Outside(), old(Now()), OpenFailed(e))
        case Stream(_) =>
          failure == None && Last(trace) == Opened && Now() == Step(Outside(), old(Now()), Opened)
    {
      hide Protocol, True, Rest, Opens, Sleeps, Attempts, Waited, Started, Waits;
      var openError, next := transport.StreamChat();
      if openError.Some? {
        Record(OpenFailed(openError.value));
        return openError;
      }
      inner := next;
      attempts := attempts + 1;
      Record(Opened);
      failure := None;
    }

    ghost method Record(e: Event)
      requires Protocol(policy, trace) && True(Outside(), trace)
      requires Allowed(policy, trace, e) && Happens(Outside(), trace, e)
      modifies this`trace
      ensures trace == old(trace) + [e] && Front(trace) == old(trace) && Last(trace) == e
      ensures Protocol(policy, trace) && True(Outside(), trace)
      ensures StateAfter(Outside(), trace) == Step(Outside(), StateAfter(Outside(), old(trace)), e)
    {
      trace := trace + [e];
      StateSnoc(Outside(), old(trace), e);
    }
  }

  lemma WaitsIsWorth(w: World, p: Policy, t: seq<Event>, e: Error)
    ensures Waits(p, t, e) <==> Worth(p, StateAfter(w, t), e)
  {}

  lemma WorthIgnoresResults(p: Policy, s: Waiter, results: seq<Read>, e: Error)
    ensures Worth(p, s, e) <==> Worth(p, s.(results := results), e)
  {}

  /** queueAwait: opens the first stream, which is not retried. */
  method OpenAwaiting(transport: Transport, policy: Policy, interrupt: nat -> Option<Error>)
    returns (e: Option<Error>, handle: QueueAwaitHandle?)
    modifies transport
    ensures transport.calls == old(transport.calls) + 1
    ensures e.Some? <==> transport.outcome(old(transport.calls)).NoStream?
    ensures e.Some? ==> e.value == transport.outcome(old(transport.calls)).error && handle == null
    ensures e.None? ==> handle != null && fresh(handle) && fresh(handle.inner) && handle.Valid()
    ensures e.None? ==> handle.transport == transport && handle.policy == policy && handle.interrupt == interrupt
    ensures e.None? ==> handle.trace == [Opened] && handle.first == old(transport.calls)
    ensures e.None? ==> handle.Stream() == Awaited(handle.Outside(), policy, Fresh(handle.Outside()))
  {
    handle := null;
    var openError, inner := transport.StreamChat();
    e := openError;
    if e.None? {
      handle := new QueueAwaitHandle(inner, transport, policy, interrupt);
    }
  }
}
