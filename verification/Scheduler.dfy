/** The account scheduler (scheduler.go, and schedulerState in scheduler_state.go).
    Times are nanoseconds; one call uses one clock value and one random draw. */
module Scheduler {
  import opened Prelude
  import opened LruMap
  import Chunks
  import Q = QueueAwait
  import Text

  const PLUGIN_ID := "qoder"
  const QUOTA_TTL := 300 * Q.SECOND
  const QUEUE_COOLDOWN := 60 * Q.SECOND
  const STICKY_MAX := 1024
  const EPSILON := 0.1

  datatype Snapshot = Snapshot(remaining: real, exhausted: bool, obtained: int)
  datatype Candidate = Candidate(id: string, provider: string, priority: int)
  datatype Value = Str(s: string) | OtherValue
  datatype Request = Request(model: string, candidates: seq<Candidate>,
                             headers: map<string, seq<string>>, metadata: map<string, Value>)
  datatype Response = Delegate | Pick(authID: string)

  /** What the scheduler knows: quota and cooldown tables, and the calls made on its
      sticky memory. */
  datatype View = View(quota: map<string, Snapshot>, cooldown: map<string, int>, history: seq<Op>)

  function CooldownKey(authID: string, model: string): string {
    authID + ":" + model
  }

  /** The snapshot of an account, if it has one that is not too old. */
  function QuotaOf(v: View, authID: string, now: int): Option<Snapshot> {
    if authID in v.quota && now - v.quota[authID].obtained <= QUOTA_TTL then Some(v.quota[authID]) else None
  }

  predicate Exhausted(v: View, authID: string, now: int) {
    QuotaOf(v, authID, now).Some? && QuotaOf(v, authID, now).value.exhausted
  }

  predicate CoolingDown(v: View, authID: string, model: string, now: int) {
    CooldownKey(authID, model) in v.cooldown && now <= v.cooldown[CooldownKey(authID, model)]
  }

  /** A candidate that may be picked. */
  predicate Eligible(v: View, c: Candidate, model: string, now: int) {
    && !Text.Blank(c.id) && c.provider == PLUGIN_ID
    && !CoolingDown(v, c.id, model, now) && !Exhausted(v, c.id, now)
  }

  function EligibleOf(v: View, cs: seq<Candidate>, model: string, now: int): seq<Candidate> {
    if cs == [] then []
    else
      var c := cs[|cs| - 1];
      EligibleOf(v, cs[..|cs| - 1], model, now) + if Eligible(v, c, model, now) then [c] else []
  }

  function HeaderValue(req: Request, name: string): string {
    if name in req.headers && |req.headers[name]| > 0 then req.headers[name][0] else ""
  }

  function StickyKey(req: Request): Option<string> {
    if HeaderValue(req, "X-Conversation-ID") != "" then Some("conv:" + HeaderValue(req, "X-Conversation-ID"))
    else if HeaderValue(req, "x-session-id") != "" then Some("sess:" + HeaderValue(req, "x-session-id"))
    else if "conversation_id" in req.metadata && req.metadata["conversation_id"].Str?
      && req.metadata["conversation_id"].s != ""
    then Some("conv:" + req.metadata["conversation_id"].s)
    else None
  }

  // ---- The weighted draw ----

  datatype Item = Item(id: string, weight: real)

  function Weight(s: Snapshot): real {
    (if s.remaining > 0.0 then s.remaining else 0.0) + EPSILON
  }

  /** The candidates that have a snapshot, with their weights. */
  function Items(v: View, cs: seq<Candidate>, now: int): (items: seq<Item>)
    ensures forall i :: 0 <= i < |items| ==> items[i].weight >= EPSILON
  {
    if cs == [] then []
    else
      var c := cs[|cs| - 1];
      var q := QuotaOf(v, c.id, now);
      Items(v, cs[..|cs| - 1], now) + if q.Some? then [Item(c.id, Weight(q.value))] else []
  }

  /** The total weight of the first `n` items. */
  function Before(items: seq<Item>, n: nat): real
    requires n <= |items|
  {
    if n == 0 then 0.0 else Before(items, n - 1) + items[n - 1].weight
  }

  /** `x` falls into the interval of item `i`: above what comes before it, up to and
      including its own end; the first interval also holds 0. */
  predicate Drawn(items: seq<Item>, x: real, i: nat) {
    i < |items| && (i == 0 || Before(items, i) < x) && x <= Before(items, i + 1)
  }

  lemma {:induction false} BeforeGrows(items: seq<Item>, i: nat, j: nat)
    requires i <= j <= |items| && forall k :: 0 <= k < |items| ==> items[k].weight >= EPSILON
    ensures Before(items, i) <= Before(items, j)
    decreases j - i
  {
    if i < j {
      BeforeGrows(items, i, j - 1);
    }
  }

  /** Every draw below the total falls into exactly one interval, and the interval of an
      item is as long as its weight, max(remaining, 0) + 0.1: the intervals partition the
      draws, and the fall-through after the loop is never reached. */
  lemma DrawPartition(items: seq<Item>, x: real) returns (i: nat)
    requires items != [] && forall k :: 0 <= k < |items| ==> items[k].weight >= EPSILON
    requires 0.0 <= x < Before(items, |items|)
    ensures Drawn(items, x, i)
    ensures forall j: nat :: Drawn(items, x, j) ==> j == i
    ensures Before(items, i + 1) - Before(items, i) == items[i].weight
  {
    i := 0;
    while x > Before(items, i + 1)
      invariant i < |items| && (i == 0 || Before(items, i) < x)
      decreases |items| - i
    {
      i := i + 1;
    }
    forall j: nat | Drawn(items, x, j)
      ensures j == i
    {
      if j < i {
        BeforeGrows(items, j + 1, i);
      } else if i < j {
        BeforeGrows(items, i + 1, j);
      }
    }
  }

  /** Where a draw in [0, 1) falls on the total weight. */
  function Point(items: seq<Item>, draw: real): real {
    draw * Before(items, |items|)
  }

  // ---- The draw in terms of the quota table ----

  /** The account has a snapshot at most five minutes old. */
  predicate HasSnapshot(v: View, id: string, now: int) {
    id in v.quota && now - v.quota[id].obtained <= 300_000_000_000
  }

  /** What an account counts for: its remaining quota, if any, and a tenth. */
  function Share(v: View, id: string): real {
    if id !in v.quota then 0.0
    else if v.quota[id].remaining > 0.0 then v.quota[id].remaining + 0.1
    else 0.1
  }

  /** The candidates with a snapshot, in order. */
  function Holders(v: View, cs: seq<Candidate>, now: int): seq<Candidate> {
    if cs == [] then []
    else (if HasSnapshot(v, cs[0].id, now) then [cs[0]] else []) + Holders(v, cs[1..], now)
  }

  function Sum(v: View, cs: seq<Candidate>): real {
    if cs == [] then 0.0 else Share(v, cs[0].id) + Sum(v, cs[1..])
  }

  lemma {:induction false} HoldersAppend(v: View, a: seq<Candidate>, b: seq<Candidate>, now: int)
    ensures Holders(v, a + b, now) == Holders(v, a, now) + Holders(v, b, now)
  {
    if a == [] {
      assert a + b == b;
    } else {
      assert (a + b)[1..] == a[1..] + b;
      HoldersAppend(v, a[1..], b, now);
    }
  }

  lemma {:induction false} HoldersMember(v: View, cs: seq<Candidate>, now: int, c: Candidate)
    ensures c in Holders(v, cs, now) <==> c in cs && HasSnapshot(v, c.id, now)
  {
    if cs != [] {
      HoldersMember(v, cs[1..], now, c);
      assert cs == [cs[0]] + cs[1..];
    }
  }

  /** The items of the draw are the holders with their shares, in order. */
  lemma {:induction false} ItemsAreHolders(v: View, cs: seq<Candidate>, now: int)
    ensures |Items(v, cs, now)| == |Holders(v, cs, now)|
    ensures forall i :: 0 <= i < |Holders(v, cs, now)| ==>
      Items(v, cs, now)[i] == Item(Holders(v, cs, now)[i].id, Share(v, Holders(v, cs, now)[i].id))
  {
    if cs != [] {
      var before, c := cs[..|cs| - 1], cs[|cs| - 1];
      ItemsAreHolders(v, before, now);
      HoldersAppend(v, before, [c], now);
      assert cs == before + [c];
      OneHolder(v, c, now);
    }
  }

  lemma OneHolder(v: View, c: Candidate, now: int)
    ensures Holders(v, [c], now) == if HasSnapshot(v, c.id, now) then [c] else []
    ensures HasSnapshot(v, c.id, now) <==> QuotaOf(v, c.id, now).Some?
    ensures HasSnapshot(v, c.id, now) ==> Weight(QuotaOf(v, c.id, now).value) == Share(v, c.id)
  {
    assert Holders(v, [c][1..], now) == [];
  }

  lemma {:induction false} SumSnoc(v: View, cs: seq<Candidate>, c: Candidate)
    ensures Sum(v, cs + [c]) == Sum(v, cs) + Share(v, c.id)
  {
    if cs == [] {
      assert [] + [c] == [c] && Sum(v, [c][1..]) == 0.0;
    } else {
      assert (cs + [c])[1..] == cs[1..] + [c];
      SumSnoc(v, cs[1..], c);
    }
  }

  lemma {:induction false} BeforeIsSum(v: View, cs: seq<Candidate>, now: int, i: nat)
    requires i <= |Holders(v, cs, now)|
    ensures i <= |Items(v, cs, now)| && Before(Items(v, cs, now), i) == Sum(v, Holders(v, cs, now)[..i])
  {
    ItemsAreHolders(v, cs, now);
    if i > 0 {
      var hs := Holders(v, cs, now);
      BeforeIsSum(v, cs, now, i - 1);
      assert hs[..i] == hs[..i - 1] + [hs[i - 1]];
      SumSnoc(v, hs[..i - 1], hs[i - 1]);
    }
  }

  /** Where the shares of the first `i` holders end on the scale from 0 to 1. */
  function Mark(v: View, hs: seq<Candidate>, i: nat): real
    requires i <= |hs| && Sum(v, hs) > 0.0
  {
    Sum(v, hs[..i]) / Sum(v, hs)
  }

  /** The draw picks the `i`-th holder: it lies above the end of the one before, if any, and
      not above its own. */
  ghost predicate PicksHolder(v: View, cs: seq<Candidate>, now: int, draw: real, i: nat) {
    var hs := Holders(v, cs, now);
    i < |hs| && Sum(v, hs) > 0.0 && (i == 0 || Mark(v, hs, i) < draw) && draw <= Mark(v, hs, i + 1)
  }

  lemma SumOfHolders(v: View, cs: seq<Candidate>, now: int)
    ensures Holders(v, cs, now) != [] ==> Sum(v, Holders(v, cs, now)) > 0.0
    ensures Sum(v, Holders(v, cs, now)) == Before(Items(v, cs, now), |Items(v, cs, now)|)
  {
    var hs, items := Holders(v, cs, now), Items(v, cs, now);
    ItemsAreHolders(v, cs, now);
    BeforeIsSum(v, cs, now, |hs|);
    assert hs[..|hs|] == hs;
    if hs != [] {
      BeforeGrows(items, 1, |items|);
    }
  }

  lemma ScaleCompare(a: real, total: real, draw: real)
    requires total > 0.0
    ensures a < draw * total <==> a / total < draw
    ensures draw * total <= a <==> draw <= a / total
  {
    var q := a / total;
    assert q * total == a;
    if q < draw {
      assert (draw - q) * total > 0.0;
    } else {
      assert (q - draw) * total >= 0.0;
    }
  }

  lemma MarkCompare(v: View, hs: seq<Candidate>, i: nat, draw: real)
    requires i <= |hs| && Sum(v, hs) > 0.0
    ensures Sum(v, hs[..i]) < draw * Sum(v, hs) <==> Mark(v, hs, i) < draw
    ensures draw * Sum(v, hs) <= Sum(v, hs[..i]) <==> draw <= Mark(v, hs, i)
  {
    hide Sum;
    ScaleCompare(Sum(v, hs[..i]), Sum(v, hs), draw);
  }

  lemma DrawnIsPicked(v: View, cs: seq<Candidate>, now: int, draw: real, i: nat)
    ensures Drawn(Items(v, cs, now), Point(Items(v, cs, now), draw), i) <==> PicksHolder(v, cs, now, draw, i)
  {
    hide Sum, Items, Holders, Before, Mark, Point;
    var hs, items := Holders(v, cs, now), Items(v, cs, now);
    ItemsAreHolders(v, cs, now);
    SumOfHolders(v, cs, now);
    PointIs(items, draw);
    if i < |hs| {
      BeforeIsSum(v, cs, now, i);
      BeforeIsSum(v, cs, now, i + 1);
      MarkCompare(v, hs, i, draw);
      MarkCompare(v, hs, i + 1, draw);
    }
  }

  lemma PointIs(items: seq<Item>, draw: real)
    ensures Point(items, draw) == draw * Before(items, |items|)
  {}

  /** The ends divide the scale from 0 to 1 into lengths of share over sum. */
  lemma MarksAreShares(v: View, hs: seq<Candidate>, j: nat)
    requires j < |hs| && Sum(v, hs) > 0.0
    ensures Mark(v, hs, j + 1) - Mark(v, hs, j) == Share(v, hs[j].id) / Sum(v, hs)
  {
    assert hs[..j + 1] == hs[..j] + [hs[j]];
    SumSnoc(v, hs[..j], hs[j]);
    hide Sum, Share;
    DivideSum(Sum(v, hs[..j]), Share(v, hs[j].id), Sum(v, hs[..j + 1]), Sum(v, hs));
  }

  lemma MarkEnds(v: View, hs: seq<Candidate>)
    requires Sum(v, hs) > 0.0
    ensures Mark(v, hs, 0) == 0.0 && Mark(v, hs, |hs|) == 1.0
  {
    assert hs[..0] == [] && hs[..|hs|] == hs;
    EmptySum(v);
    hide Sum;
    DivideSelf(Sum(v, hs));
  }

  lemma DivideSelf(total: real)
    requires total > 0.0
    ensures total / total == 1.0 && 0.0 / total == 0.0
  {}

  lemma EmptySum(v: View)
    ensures Sum(v, []) == 0.0
  {}

  /** If anyone holds a snapshot, each draw picks exactly one holder, and the draws that pick
      a holder form an interval as long as its share of the sum of all shares. */
  lemma DrawsAreShares(v: View, cs: seq<Candidate>, now: int, draw: real) returns (i: nat)
    requires Holders(v, cs, now) != [] && 0.0 <= draw < 1.0
    ensures PicksHolder(v, cs, now, draw, i) && forall j: nat :: PicksHolder(v, cs, now, draw, j) ==> j == i
    ensures var hs := Holders(v, cs, now);
      && Sum(v, hs) > 0.0 && Mark(v, hs, 0) == 0.0 && Mark(v, hs, |hs|) == 1.0
      && forall j: nat :: j < |hs| ==> Mark(v, hs, j + 1) - Mark(v, hs, j) == Share(v, hs[j].id) / Sum(v, hs)
  {
    hide Sum, Items, Holders, Before, Mark, Point, Drawn, PicksHolder, Share;
    var hs, items := Holders(v, cs, now), Items(v, cs, now);
    ItemsAreHolders(v, cs, now);
    SumOfHolders(v, cs, now);
    PointBelowTotal(items, draw);
    i := DrawPartition(items, Point(items, draw));
    forall j: nat
      ensures Drawn(items, Point(items, draw), j) <==> PicksHolder(v, cs, now, draw, j)
    {
      DrawnIsPicked(v, cs, now, draw, j);
    }
    MarkEnds(v, hs);
    forall j: nat | j < |hs|
      ensures Mark(v, hs, j + 1) - Mark(v, hs, j) == Share(v, hs[j].id) / Sum(v, hs)
    {
      MarksAreShares(v, hs, j);
    }
  }

  lemma DivideSum(a: real, b: real, sum: real, total: real)
    requires total > 0.0 && sum == a + b
    ensures sum / total - a / total == b / total
  {}

  // ---- What a pick may do ----

  /** The choice without a usable sticky binding: a weighted draw among the candidates
      with a snapshot or, if none has one, any candidate of the highest priority. */
  ghost predicate FreshChoice(v: View, cs: seq<Candidate>, now: int, draw: real, id: string) {
    var items := Items(v, cs, now);
    if items != [] then exists i: nat :: Drawn(items, Point(items, draw), i) && items[i].id == id
    else exists c :: c in cs && c.id == id && forall d :: d in cs ==> d.priority <= c.priority
  }

  ghost predicate HasId(cs: seq<Candidate>, id: string) {
    exists c :: c in cs && c.id == id
  }

  /** One pick: delegate exactly if no candidate is eligible; keep the account bound to
      the session if it is eligible, else choose afresh; then bind the session to it. */
  ghost predicate PickStep(v: View, req: Request, now: int, draw: real, r: Response, v': View) {
    var cs := EligibleOf(v, req.candidates, req.model, now);
    if cs == [] then r == Delegate && v' == v
    else
      r.Pick? &&
      match StickyKey(req)
      case None => v' == v && FreshChoice(v, cs, now, draw, r.authID)
      case Some(k) =>
        var bound := Recall(STICKY_MAX, v.history, k);
        && v' == v.(history := v.history + [Get(k)] + [Set(k, r.authID)])
        && if bound.Some? && HasId(cs, bound.value) then r.authID == bound.value
           else FreshChoice(v, cs, now, draw, r.authID)
  }

  /** A fresh choice in terms of the quota table: the holder that the draw picks or, without
      any, a candidate that none exceeds in priority. */
  ghost predicate ByShareOrPriority(v: View, cs: seq<Candidate>, now: int, draw: real, id: string) {
    || (exists i: nat :: PicksHolder(v, cs, now, draw, i) && Holders(v, cs, now)[i].id == id)
    || (Holders(v, cs, now) == []
        && exists c :: c in cs && c.id == id && !exists d :: d in cs && d.priority > c.priority)
  }

  lemma FreshChoiceMeans(v: View, cs: seq<Candidate>, now: int, draw: real, id: string)
    ensures FreshChoice(v, cs, now, draw, id) <==> ByShareOrPriority(v, cs, now, draw, id)
  {
    var hs, items := Holders(v, cs, now), Items(v, cs, now);
    ItemsAreHolders(v, cs, now);
    forall j: nat
      ensures Drawn(items, Point(items, draw), j) <==> PicksHolder(v, cs, now, draw, j)
    {
      DrawnIsPicked(v, cs, now, draw, j);
    }
    hide Drawn, Items, Holders, PicksHolder;
    if i: nat :| PicksHolder(v, cs, now, draw, i) && hs[i].id == id {
      assert Drawn(items, Point(items, draw), i);
    }
  }

  /** A request without a usable binding gets its account by share or by priority. */
  lemma UnboundPick(v: View, req: Request, now: int, draw: real, r: Response, v': View)
    requires PickStep(v, req, now, draw, r, v') && r.Pick?
    requires StickyKey(req).Some? ==>
      var bound := Recall(STICKY_MAX, v.history, StickyKey(req).value);
      bound.None? || !HasId(EligibleOf(v, req.candidates, req.model, now), bound.value)
    ensures ByShareOrPriority(v, EligibleOf(v, req.candidates, req.model, now), now, draw, r.authID)
  {
    FreshChoiceMeans(v, EligibleOf(v, req.candidates, req.model, now), now, draw, r.authID);
  }

  // ---- Which requests share a session ----

  datatype Session = Conversation(id: string) | HeaderSession(id: string)

  predicate GivesHeader(req: Request, name: string) {
    name in req.headers && |req.headers[name]| > 0 && req.headers[name][0] != ""
  }

  /** The conversation header comes first, then the session header, then the metadata. */
  ghost predicate InSession(req: Request, s: Session) {
    || (GivesHeader(req, "X-Conversation-ID") && s == Conversation(req.headers["X-Conversation-ID"][0]))
    || (!GivesHeader(req, "X-Conversation-ID")
        && GivesHeader(req, "x-session-id") && s == HeaderSession(req.headers["x-session-id"][0]))
    || (!GivesHeader(req, "X-Conversation-ID") && !GivesHeader(req, "x-session-id")
        && s.Conversation? && s.id != ""
        && "conversation_id" in req.metadata && req.metadata["conversation_id"] == Str(s.id))
  }

  /** A request has a key exactly if it is in a session, and two requests have the same key
      exactly if they are in the same one. */
  lemma StickyKeyIsSession(a: Request, b: Request)
    ensures StickyKey(a).Some? <==> exists s :: InSession(a, s)
    ensures StickyKey(a).Some? ==>
      (StickyKey(a) == StickyKey(b) <==> exists s :: InSession(a, s) && InSession(b, s))
  {
    if StickyKey(a).Some? {
      var s := SessionFor(a);
      if StickyKey(b).Some? {
        var t := SessionFor(b);
        KeysTell(s, t);
      }
    }
  }

  function KeyFor(s: Session): string {
    (if s.Conversation? then "conv:" else "sess:") + s.id
  }

  lemma SessionFor(req: Request) returns (s: Session)
    requires StickyKey(req).Some?
    ensures InSession(req, s) && StickyKey(req) == Some(KeyFor(s))
    ensures forall t :: InSession(req, t) ==> t == s
  {
    s := if GivesHeader(req, "X-Conversation-ID") then Conversation(req.headers["X-Conversation-ID"][0])
         else if GivesHeader(req, "x-session-id") then HeaderSession(req.headers["x-session-id"][0])
         else Conversation(req.metadata["conversation_id"].s);
  }

  lemma KeysTell(s: Session, t: Session)
    ensures KeyFor(s) == KeyFor(t) <==> s == t
  {
    assert KeyFor(s)[5..] == s.id && KeyFor(t)[5..] == t.id;
    assert KeyFor(s)[0] == (if s.Conversation? then 'c' else 's');
    assert KeyFor(t)[0] == (if t.Conversation? then 'c' else 's');
  }

  lemma {:induction false} EligibleMember(v: View, cs: seq<Candidate>, model: string, now: int, c: Candidate)
    ensures c in EligibleOf(v, cs, model, now) <==> c in cs && Eligible(v, c, model, now)
  {
    if cs != [] {
      EligibleMember(v, cs[..|cs| - 1], model, now, c);
      assert cs == cs[..|cs| - 1] + [cs[|cs| - 1]];
    }
  }

  lemma {:induction false} ItemsMember(v: View, cs: seq<Candidate>, now: int, i: nat)
    requires i < |Items(v, cs, now)|
    ensures HasId(cs, Items(v, cs, now)[i].id)
  {
    var front := cs[..|cs| - 1];
    if i < |Items(v, front, now)| {
      ItemsMember(v, front, now, i);
      var c :| c in front && c.id == Items(v, front, now)[i].id;
      assert c in cs;
    } else {
      assert cs[|cs| - 1] in cs;
    }
  }

  /** Safety: a handled pick is the account of an eligible candidate of the request, and
      the pick is delegated exactly if there is none. */
  lemma PickIsSafe(v: View, req: Request, now: int, draw: real, r: Response, v': View)
    requires PickStep(v, req, now, draw, r, v')
    ensures r.Pick? ==> exists c :: c in req.candidates && c.id == r.authID && Eligible(v, c, req.model, now)
    ensures r == Delegate <==> forall c :: c in req.candidates ==> !Eligible(v, c, req.model, now)
    ensures v'.quota == v.quota && v'.cooldown == v.cooldown
  {
    var cs := EligibleOf(v, req.candidates, req.model, now);
    hide Eligible, EligibleOf, FreshChoice, Recall, StickyKey;
    forall c
      ensures c in cs <==> c in req.candidates && Eligible(v, c, req.model, now)
    {
      EligibleMember(v, req.candidates, req.model, now, c);
    }
    if r.Pick? {
      if FreshChoice(v, cs, now, draw, r.authID) {
        FreshIsMember(v, cs, now, draw, r.authID);
      }
      assert HasId(cs, r.authID);
      assert cs[0] in cs;
    }
  }

  lemma FreshIsMember(v: View, cs: seq<Candidate>, now: int, draw: real, id: string)
    requires FreshChoice(v, cs, now, draw, id)
    ensures HasId(cs, id)
  {
    var items := Items(v, cs, now);
    hide Point, Before;
    if items != [] {
      var i: nat :| Drawn(items, Point(items, draw), i) && items[i].id == id;
      ItemsMember(v, cs, now, i);
    }
  }

  // ---- Runs, and session affinity ----

  datatype Step =
    | Picked(req: Request, now: int, draw: real, response: Response)
    | QuotaNoted(authID: string, snapshot: Snapshot)
    | CooldownNoted(key: string, expiry: int)

  ghost predicate Transition(v: View, step: Step, v': View) {
    match step
    case Picked(req, now, draw, r) => PickStep(v, req, now, draw, r, v')
    case QuotaNoted(id, snap) => v' == v.(quota := v.quota[id := snap])
    case CooldownNoted(key, expiry) => v' == v.(cooldown := v.cooldown[key := expiry])
  }

  /** A run of the scheduler from any state: picks and notes in any order. */
  ghost predicate IsTrace(views: seq<View>, steps: seq<Step>) {
    |views| == |steps| + 1
    && forall i :: 0 <= i < |steps| ==> Transition(views[i], steps[i], views[i + 1])
  }

  /** The session key a handled pick uses. */
  function SessionOf(step: Step): Option<string> {
    if step.Picked? && step.response.Pick? then StickyKey(step.req) else None
  }

  /** The other session keys used by the steps from `i` up to `j`. */
  ghost function OtherKeys(steps: seq<Step>, i: nat, j: nat, k: string): set<string>
    requires i <= j <= |steps|
  {
    if i == j then {}
    else
      var before := OtherKeys(steps, i, j - 1, k);
      match SessionOf(steps[j - 1])
      case None => before
      case Some(other) => if other == k then before else before + {other}
  }

  /** The account is among the eligible candidates whenever the session picks. */
  ghost predicate StaysEligible(views: seq<View>, steps: seq<Step>, m: nat, k: string, id: string)
    requires m < |steps| && m < |views|
  {
    SessionOf(steps[m]) == Some(k) ==>
      HasId(EligibleOf(views[m], steps[m].req.candidates, steps[m].req.model, steps[m].now), id)
  }

  /** Session `k` is bound to `id`, and no key but `others` was used since. */
  ghost predicate Bound(v: View, k: string, id: string, others: set<string>) {
    && LastSet(v.history, k) == Some(id)
    && k in Uses(STICKY_MAX, v.history)
    && Since(Uses(STICKY_MAX, v.history), k) <= others
  }

  lemma PickBinds(v: View, step: Step, v': View, k: string, others: set<string>)
    requires Transition(v, step, v') && SessionOf(step) == Some(k)
    ensures Bound(v', k, step.response.authID, others)
  {
    var h := v.history + [Get(k)];
    AfterSet(STICKY_MAX, h, k, step.response.authID);
  }

  lemma OtherKeepsBound(v: View, step: Step, v': View, k: string, id: string, others: set<string>)
    requires Transition(v, step, v') && Bound(v, k, id, others) && SessionOf(step) != Some(k)
    ensures Bound(v', k, id, if SessionOf(step).Some? then others + {SessionOf(step).value} else others)
  {
    if SessionOf(step).Some? {
      var other, h := SessionOf(step).value, v.history;
      AfterOther(STICKY_MAX, h, Get(other), k);
      AfterOther(STICKY_MAX, h + [Get(other)], Set(other, step.response.authID), k);
    } else {
      assert v'.history == v.history;
    }
  }

  lemma BoundIsKept(v: View, step: Step, v': View, k: string, id: string, others: set<string>)
    requires Transition(v, step, v') && Bound(v, k, id, others) && |others| < STICKY_MAX
    requires SessionOf(step) == Some(k)
    requires HasId(EligibleOf(v, step.req.candidates, step.req.model, step.now), id)
    ensures step.response == Pick(id)
  {
    RecallIfYoung(STICKY_MAX, v.history, k, others);
  }

  lemma {:induction false} AffinityUpTo(views: seq<View>, steps: seq<Step>, i: nat, j: nat, k: string)
    requires IsTrace(views, steps) && i < j <= |steps|
    requires SessionOf(steps[i]) == Some(k)
    requires forall m :: i < m < j ==> StaysEligible(views, steps, m, k, steps[i].response.authID)
    requires |OtherKeys(steps, i, j, k)| < STICKY_MAX
    ensures Bound(views[j], k, steps[i].response.authID, OtherKeys(steps, i, j, k))
    decreases j
  {
    hide Transition, Bound, EligibleOf, HasId, StickyKey;
    var id := steps[i].response.authID;
    var s, v, v' := steps[j - 1], views[j - 1], views[j];
    assert Transition(v, s, v');
    if i == j - 1 {
      PickBinds(v, s, v', k, OtherKeys(steps, i, j, k));
    } else {
      SubsetCard(OtherKeys(steps, i, j - 1, k), OtherKeys(steps, i, j, k));
      AffinityUpTo(views, steps, i, j - 1, k);
      if SessionOf(s) == Some(k) {
        assert StaysEligible(views, steps, j - 1, k, id);
        BoundIsKept(v, s, v', k, id, OtherKeys(steps, i, j - 1, k));
        PickBinds(v, s, v', k, OtherKeys(steps, i, j, k));
      } else {
        OtherKeepsBound(v, s, v', k, id, OtherKeys(steps, i, j - 1, k));
      }
    }
  }

  /** Affinity: repeated picks of one session return the same account as long as it is
      eligible at each of them and fewer than 1024 other sessions are used in between. */
  lemma Affinity(views: seq<View>, steps: seq<Step>, i: nat, j: nat, k: string)
    requires IsTrace(views, steps) && i < j < |steps|
    requires SessionOf(steps[i]) == Some(k) && SessionOf(steps[j]) == Some(k)
    requires forall m :: i < m <= j ==> StaysEligible(views, steps, m, k, steps[i].response.authID)
    requires |OtherKeys(steps, i, j, k)| < STICKY_MAX
    ensures steps[j].response == steps[i].response
  {
    AffinityUpTo(views, steps, i, j, k);
    assert Transition(views[j], steps[j], views[j + 1]);
    assert StaysEligible(views, steps, j, k, steps[i].response.authID);
    BoundIsKept(views[j], steps[j], views[j + 1], k, steps[i].response.authID, OtherKeys(steps, i, j, k));
  }

  // ---- Safety over runs ----

  const EMPTY := View(map[], map[], [])

  /** The snapshot last noted for an account. */
  function LastQuota(past: seq<Step>, authID: string): Option<Snapshot> {
    if past == [] then None
    else
      var step := past[|past| - 1];
      if step.QuotaNoted? && step.authID == authID then Some(step.snapshot)
      else LastQuota(past[..|past| - 1], authID)
  }

  /** The expiry last noted for a cooldown key. */
  function LastExpiry(past: seq<Step>, key: string): Option<int> {
    if past == [] then None
    else
      var step := past[|past| - 1];
      if step.CooldownNoted? && step.key == key then Some(step.expiry)
      else LastExpiry(past[..|past| - 1], key)
  }

  /** What may be picked, by what was noted last: no cooldown that lasts, and no
      exhaustion reported within the last five minutes. */
  predicate Usable(past: seq<Step>, c: Candidate, model: string, now: int) {
    var snap, expiry := LastQuota(past, c.id), LastExpiry(past, CooldownKey(c.id, model));
    && !Text.Blank(c.id) && c.provider == PLUGIN_ID
    && (expiry.Some? ==> expiry.value < now)
    && (snap.Some? && snap.value.exhausted ==> snap.value.obtained + QUOTA_TTL < now)
  }

  /** The tables hold what was noted last, whatever came in between. */
  lemma {:induction false} TablesHoldTheLast(views: seq<View>, steps: seq<Step>, i: nat, authID: string, key: string)
    requires IsTrace(views, steps) && views[0] == EMPTY && i <= |steps|
    ensures LastQuota(steps[..i], authID) == if authID in views[i].quota then Some(views[i].quota[authID]) else None
    ensures LastExpiry(steps[..i], key) == if key in views[i].cooldown then Some(views[i].cooldown[key]) else None
    decreases i
  {
    if i > 0 {
      TablesHoldTheLast(views, steps, i - 1, authID, key);
      hide FreshChoice, EligibleOf, StickyKey, Recall;
      assert steps[..i][..i - 1] == steps[..i - 1];
      assert Transition(views[i - 1], steps[i - 1], views[i]);
    }
  }

  /** Every pick in every run names a candidate that is usable by what was noted before,
      and is delegated exactly if the request has none. */
  lemma RunsPickSafely(views: seq<View>, steps: seq<Step>, i: nat)
    requires IsTrace(views, steps) && views[0] == EMPTY && i < |steps| && steps[i].Picked?
    ensures var Picked(req, now, _, r) := steps[i];
      && (r.Pick? ==> exists c :: c in req.candidates && c.id == r.authID && Usable(steps[..i], c, req.model, now))
      && (r == Delegate <==> forall c :: c in req.candidates ==> !Usable(steps[..i], c, req.model, now))
  {
    var Picked(req, now, draw, r) := steps[i];
    assert Transition(views[i], steps[i], views[i + 1]);
    PickIsSafe(views[i], req, now, draw, r, views[i + 1]);
    forall c
      ensures Usable(steps[..i], c, req.model, now) <==> Eligible(views[i], c, req.model, now)
    {
      TablesHoldTheLast(views, steps, i, c.id, CooldownKey(c.id, req.model));
    }
    hide Usable, Eligible, PickStep;
  }

  // ---- Cooldown keys ----

  /** Two accounts can share a cooldown, for some models, exactly if one identifier
      continues the other after a colon. Accounts without colons never do. */
  lemma CooldownKeysCollide(a: string, b: string)
    ensures (exists m, n :: CooldownKey(a, m) == CooldownKey(b, n)) <==> a + ":" <= b + ":" || b + ":" <= a + ":"
  {
    if m, n :| CooldownKey(a, m) == CooldownKey(b, n) {
      assert CooldownKey(a, m)[..|a| + 1] == a + ":";
      assert CooldownKey(b, n)[..|b| + 1] == b + ":";
    }
    if a + ":" <= b + ":" {
      var m := (b + ":")[|a| + 1..];
      assert CooldownKey(a, m) == CooldownKey(b, "");
    }
    if b + ":" <= a + ":" {
      var n := (a + ":")[|b| + 1..];
      assert CooldownKey(a, "") == CooldownKey(b, n);
    }
  }

  // ---- The program ----

  class SchedulerState {
    var quota: map<string, Snapshot>
    var cooldown: map<string, int>
    const sticky: Lru

    ghost predicate Valid()
      reads this, sticky
    {
      sticky.Valid() && sticky.cap == STICKY_MAX
    }

    ghost function Known(): View
      reads this, sticky
    {
      View(quota, cooldown, sticky.history)
    }

    constructor ()
      ensures Valid() && fresh(sticky) && Known() == View(map[], map[], [])
    {
      quota, cooldown := map[], map[];
      sticky := new Lru(STICKY_MAX);
    }

    method SetQuota(authID: string, remaining: real, exhausted: bool, now: int)
      requires Valid()
      modifies this`quota
      ensures Valid()
      ensures Transition(old(Known()), QuotaNoted(authID, Snapshot(remaining, exhausted, now)), Known())
    {
      quota := quota[authID := Snapshot(remaining, exhausted, now)];
    }

    method GetQuota(authID: string, now: int) returns (snap: Option<Snapshot>)
      requires Valid()
      ensures snap == QuotaOf(Known(), authID, now)
    {
      if authID !in quota || now - quota[authID].obtained > QUOTA_TTL {
        return None;
      }
      snap := Some(quota[authID]);
    }

    method IsExhausted(authID: string, now: int) returns (exhausted: bool)
      requires Valid()
      ensures exhausted == Exhausted(Known(), authID, now)
    {
      var snap := GetQuota(authID, now);
      exhausted := snap.Some? && snap.value.exhausted;
    }

    method SetCooldown(authID: string, model: string, ttl: int, now: int)
      requires Valid()
      modifies this`cooldown
      ensures Valid()
      ensures Transition(old(Known()), CooldownNoted(CooldownKey(authID, model), now + ttl), Known())
      ensures forall t :: CoolingDown(Known(), authID, model, t) <==> t <= now + ttl
    {
      cooldown := cooldown[CooldownKey(authID, model) := now + ttl];
    }

    method IsCoolingDown(authID: string, model: string, now: int) returns (cooling: bool)
      requires Valid()
      ensures cooling == CoolingDown(Known(), authID, model, now)
    {
      var key := CooldownKey(authID, model);
      if key !in cooldown {
        return false;
      }
      if now > cooldown[key] {
        return false;
      }
      cooling := true;
    }

    /** noteSchedulerFailure: only a queue refusal for a named account and model starts a
        cooldown, of the hinted length if there is one. */
    method NoteFailure(authID: string, model: string, err: Chunks.Error, now: int)
      requires Valid()
      modifies this`cooldown
      ensures Valid()
      ensures var queued := err.Business? && err.category == Q.QUEUE_UNAVAILABLE;
        var ttl := if queued && err.queue.Some? && err.queue.value.retryAfter > 0
                   then Q.Wrap64(err.queue.value.retryAfter * Q.SECOND) else QUEUE_COOLDOWN;
        if !queued || Text.Blank(authID) || Text.Blank(model) then Known() == old(Known())
        else Transition(old(Known()), CooldownNoted(CooldownKey(authID, model), now + ttl), Known())
    {
      if !err.Business? || err.category != Q.QUEUE_UNAVAILABLE {
        return;
      }
      if Text.Trim(authID) == "" || Text.Trim(model) == "" {
        return;
      }
      var ttl := QUEUE_COOLDOWN;
      if err.queue.Some? && err.queue.value.retryAfter > 0 {
        ttl := Q.Wrap64(err.queue.value.retryAfter * Q.SECOND);
      }
      SetCooldown(authID, model, ttl, now);
    }

    /** usableCandidates, ownCandidates and filterUnavailable, one after the other. */
    method FilterEligible(all: seq<Candidate>, model: string, now: int) returns (eligible: seq<Candidate>)
      requires Valid()
      ensures eligible == EligibleOf(Known(), all, model, now)
    {
      eligible := [];
      for i := 0 to |all|
        invariant eligible == EligibleOf(Known(), all[..i], model, now)
      {
        var c := all[i];
        assert all[..i + 1][..i] == all[..i];
        if Text.Trim(c.id) == "" {
          continue;
        }
        if c.provider != PLUGIN_ID {
          continue;
        }
        var cooling := IsCoolingDown(c.id, model, now);
        if cooling {
          continue;
        }
        var exhausted := IsExhausted(c.id, now);
        if exhausted {
          continue;
        }
        eligible := eligible + [c];
      }
      assert all[..|all|] == all;
    }

    /** quotaWeightedPick: None stands for the empty string. */
    method QuotaWeightedPick(cs: seq<Candidate>, now: int, draw: real) returns (id: Option<string>)
      requires Valid() && 0.0 <= draw < 1.0
      ensures id.None? <==> Items(Known(), cs, now) == []
      ensures id.None? <==> Holders(Known(), cs, now) == []
      ensures id.Some? ==> FreshChoice(Known(), cs, now, draw, id.value)
      ensures id.Some? ==>
        exists i: nat :: PicksHolder(Known(), cs, now, draw, i) && Holders(Known(), cs, now)[i].id == id.value
    {
      var items: seq<Item>, total := [], 0.0;
      for i := 0 to |cs|
        invariant items == Items(Known(), cs[..i], now) && total == Before(items, |items|)
      {
        assert cs[..i + 1][..i] == cs[..i];
        var snap := GetQuota(cs[i].id, now);
        if snap.None? {
          continue;
        }
        var w := (if snap.value.remaining > 0.0 then snap.value.remaining else 0.0) + EPSILON;
        BeforeSnoc(items, Item(cs[i].id, w));
        items := items + [Item(cs[i].id, w)];
        total := total + w;
      }
      assert cs[..|cs|] == cs;
      ItemsAreHolders(Known(), cs, now);
      if |items| == 0 {
        return None;
      }
      id := DrawFrom(items, total, draw);
      FreshChoiceMeans(Known(), cs, now, draw, id.value);
    }

    method FindCandidate(cs: seq<Candidate>, authID: string) returns (found: Option<Candidate>)
      ensures found.Some? ==> found.value in cs && found.value.id == authID
      ensures found.None? ==> !HasId(cs, authID)
    {
      for i := 0 to |cs|
        invariant forall k :: 0 <= k < i ==> cs[k].id != authID
      {
        if cs[i].id == authID {
          return Some(cs[i]);
        }
      }
      found := None;
    }

    /** schedulerPick. */
    method SchedulerPick(req: Request, now: int, draw: real) returns (r: Response)
      requires Valid() && 0.0 <= draw < 1.0
      modifies sticky
      ensures Valid()
      ensures PickStep(old(Known()), req, now, draw, r, Known())
    {
      hide Recall, Eligible, EligibleOf, FreshChoice, StickyKey;
      var eligible := FilterEligible(req.candidates, req.model, now);
      if |eligible| == 0 {
        return Delegate;
      }
      var key := StickyKey(req);
      if key.Some? {
        var bound := sticky.Lookup(key.value);
        if bound.Some? {
          var c := FindCandidate(eligible, bound.value);
          if c.Some? {
            sticky.Store(key.value, c.value.id);
            return Pick(c.value.id);
          }
        }
      }
      var chosen := ChooseFresh(eligible, now, draw);
      FreshIgnoresHistory(old(Known()), Known(), eligible, now, draw, chosen);
      if key.Some? {
        sticky.Store(key.value, chosen);
      }
      r := Pick(chosen);
    }

    /** The weighted draw, or else the highest priority. sort.Slice is not stable, so any
        candidate of the highest priority may come first. */
    method ChooseFresh(eligible: seq<Candidate>, now: int, draw: real) returns (id: string)
      requires Valid() && 0.0 <= draw < 1.0 && eligible != []
      ensures FreshChoice(Known(), eligible, now, draw, id)
    {
      hide Holders, PicksHolder, Drawn, Point, Before, Items;
      var chosen := QuotaWeightedPick(eligible, now, draw);
      if chosen.Some? {
        return chosen.value;
      }
      HighestExists(eligible);
      var best :| best in eligible && forall d :: d in eligible ==> d.priority <= best.priority;
      id := best.id;
    }
  }

  lemma BeforeSnoc(items: seq<Item>, item: Item)
    ensures Before(items + [item], |items| + 1) == Before(items, |items|) + item.weight
  {
    BeforePrefix(items, [item], |items|);
  }

  lemma {:induction false} BeforePrefix(items: seq<Item>, more: seq<Item>, n: nat)
    requires n <= |items|
    ensures Before(items + more, n) == Before(items, n)
  {
    if n > 0 {
      BeforePrefix(items, more, n - 1);
    }
  }

  /** The draw loop: subtract weights from the point until nothing is left. */
  method DrawFrom(items: seq<Item>, total: real, draw: real) returns (id: Option<string>)
    requires items != [] && total == Before(items, |items|) && 0.0 <= draw < 1.0
    requires forall k :: 0 <= k < |items| ==> items[k].weight >= EPSILON
    ensures id.Some? && exists i: nat :: Drawn(items, Point(items, draw), i) && items[i].id == id.value
  {
    ghost var point := Point(items, draw);
    var r := draw * total;
    PointBelowTotal(items, draw);
    for i := 0 to |items|
      invariant r == point - Before(items, i) && (i > 0 ==> r > 0.0)
    {
      r := r - items[i].weight;
      if r <= 0.0 {
        assert Drawn(items, point, i);
        return Some(items[i].id);
      }
    }
    // The program's fall-through to the last item is not reached: point < total.
    assert false;
    id := None;
  }

  lemma PointBelowTotal(items: seq<Item>, draw: real)
    requires items != [] && 0.0 <= draw < 1.0
    requires forall k :: 0 <= k < |items| ==> items[k].weight >= EPSILON
    ensures 0.0 <= Point(items, draw) < Before(items, |items|)
  {
    BeforeGrows(items, 1, |items|);
    ScaleBelow(draw, Before(items, |items|));
  }

  lemma ScaleBelow(draw: real, total: real)
    requires 0.0 <= draw < 1.0 && total > 0.0
    ensures 0.0 <= draw * total < total
  {
    assert (1.0 - draw) * total > 0.0;
    assert (1.0 - draw) * total == total - draw * total;
  }

  lemma FreshIgnoresHistory(v: View, w: View, cs: seq<Candidate>, now: int, draw: real, id: string)
    requires v.quota == w.quota && FreshChoice(w, cs, now, draw, id)
    ensures FreshChoice(v, cs, now, draw, id)
  {
    ItemsIgnoreHistory(v, w, cs, now);
  }

  lemma {:induction false} ItemsIgnoreHistory(v: View, w: View, cs: seq<Candidate>, now: int)
    requires v.quota == w.quota
    ensures Items(v, cs, now) == Items(w, cs, now)
  {
    if cs != [] {
      ItemsIgnoreHistory(v, w, cs[..|cs| - 1], now);
    }
  }

  lemma {:induction false} HighestExists(cs: seq<Candidate>)
    requires cs != []
    ensures exists c :: c in cs && forall d :: d in cs ==> d.priority <= c.priority
  {
    var last, front := cs[|cs| - 1], cs[..|cs| - 1];
    assert cs == front + [last];
    if front == [] {
      assert last in cs;
    } else {
      HighestExists(front);
      var c :| c in front && forall d :: d in front ==> d.priority <= c.priority;
      var best := if c.priority < last.priority then last else c;
      assert best in cs;
    }
  }
}
