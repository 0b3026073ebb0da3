/** Device login with many pollers (PollLogin and DeviceLogin in oauth.go, the store in
    store.go), as a state machine whose steps are the program's lock and store
    operations, its clock test and its upstream request. */
module DeviceLogin {
  import opened Prelude

  datatype Status = Pending | Success | Error

  /** A Transaction; `holder` is the poller inside its lock. */
  datatype Txn = Txn(id: string, status: Status, credential: Option<string>, holder: Option<nat>)

  datatype Answer =
    | Granted(credential: string)
    | StillPending
    | Unknown                   // not in the store
    | Terminal                  // already failed
    | Expired
    | Upstream                  // the request failed, or login was denied

  /** What the token endpoint gives. */
  datatype Response =
    | NoAnswer                  // transport error, bad status or malformed body
    | NotYet                    // 404, 202, authorization_pending or slow_down
    | Token(credential: string)
    | Denied                    // expired_token, access_denied or any other error

  /** Where a call of PollLogin stands. */
  datatype Phase =
    | Asking(id: string)                  // before looking up the store
    | Found(txn: nat)                     // has the transaction, waits for its lock
    | Inside(txn: nat)                    // holds the lock
    | Polling(txn: nat)                   // holds the lock, request under way
    | Removing(txn: nat, answer: Answer)  // status is set, store entry not yet deleted
    | Leaving(txn: nat, answer: Answer)   // about to release the lock
    | Answered(about: Option<nat>, answer: Answer)

  datatype State = State(store: map<string, nat>, txns: seq<Txn>, pollers: seq<Phase>)

  const INITIAL := State(map[], [], [])

  datatype Action =
    | Login(id: string)
    | Cancel(id: string)
    | Poll(id: string)
    | Lookup(poller: nat)
    | Lock(poller: nat)
    | Check(poller: nat, expired: bool)
    | Respond(poller: nat, response: Response)
    | Remove(poller: nat)
    | Unlock(poller: nat)

  predicate At(s: State, c: nat, t: nat) {
    c < |s.pollers| && t < |s.txns|
  }

  /** A login uses an identifier never used before: it is 128 random bits. */
  predicate Enabled(s: State, a: Action) {
    match a
    case Login(id) => forall t :: 0 <= t < |s.txns| ==> s.txns[t].id != id
    case Cancel(_) => true
    case Poll(_) => true
    case Lookup(c) => c < |s.pollers| && s.pollers[c].Asking?
    case Lock(c) =>
      c < |s.pollers| && s.pollers[c].Found? && At(s, c, s.pollers[c].txn) && s.txns[s.pollers[c].txn].holder.None?
    case Check(c, _) => c < |s.pollers| && s.pollers[c].Inside? && At(s, c, s.pollers[c].txn)
    case Respond(c, _) => c < |s.pollers| && s.pollers[c].Polling? && At(s, c, s.pollers[c].txn)
    case Remove(c) => c < |s.pollers| && s.pollers[c].Removing? && At(s, c, s.pollers[c].txn)
    case Unlock(c) => c < |s.pollers| && s.pollers[c].Leaving? && At(s, c, s.pollers[c].txn)
  }

  function Goto(s: State, c: nat, p: Phase): State
    requires c < |s.pollers|
  {
    s.(pollers := s.pollers[c := p])
  }

  function SetTxn(s: State, t: nat, txn: Txn): State
    requires t < |s.txns|
  {
    s.(txns := s.txns[t := txn])
  }

  function Next(s: State, a: Action): State
    requires Enabled(s, a)
  {
    match a
    case Login(id) =>
      s.(store := s.store[id := |s.txns|], txns := s.txns + [Txn(id, Pending, None, None)])
    case Cancel(id) => s.(store := s.store - {id})
    case Poll(id) => s.(pollers := s.pollers + [Asking(id)])
    case Lookup(c) =>
      var id := s.pollers[c].id;
      Goto(s, c, if id in s.store then Found(s.store[id]) else Answered(None, Unknown))
    case Lock(c) =>
      var t := s.pollers[c].txn;
      Goto(SetTxn(s, t, s.txns[t].(holder := Some(c))), c, Inside(t))
    case Check(c, expired) =>
      var t := s.pollers[c].txn;
      var txn := s.txns[t];
      if !txn.status.Pending? then
        if txn.status.Success? && txn.credential.Some? then Goto(s, c, Leaving(t, Granted(txn.credential.value)))
        else Goto(s, c, Leaving(t, Terminal))
      else if expired then Goto(SetTxn(s, t, txn.(status := Error)), c, Removing(t, Expired))
      else Goto(s, c, Polling(t))
    case Respond(c, response) =>
      var t := s.pollers[c].txn;
      var txn := s.txns[t];
      (match response
       case NoAnswer => Goto(s, c, Leaving(t, Upstream))
       case NotYet => Goto(s, c, Leaving(t, StillPending))
       case Token(cred) =>
         Goto(SetTxn(s, t, txn.(status := Success, credential := Some(cred))), c, Removing(t, Granted(cred)))
       case Denied => Goto(SetTxn(s, t, txn.(status := Error)), c, Removing(t, Upstream)))
    case Remove(c) =>
      var p := s.pollers[c];
      Goto(s.(store := s.store - {s.txns[p.txn].id}), c, Leaving(p.txn, p.answer))
    case Unlock(c) =>
      var p := s.pollers[c];
      Goto(SetTxn(s, p.txn, s.txns[p.txn].(holder := None)), c, Answered(Some(p.txn), p.answer))
  }

  // ---- The invariant ----

  predicate Holding(p: Phase) {
    p.Inside? || p.Polling? || p.Removing? || p.Leaving?
  }

  /** A granted credential is the one the transaction holds. */
  predicate AnswerOk(txn: Txn, answer: Answer) {
    answer.Granted? ==> txn.status.Success? && txn.credential == Some(answer.credential)
  }

  predicate PollerOk(s: State, c: nat)
    requires c < |s.pollers|
  {
    var p := s.pollers[c];
    match p
    case Asking(_) => true
    case Answered(t, answer) =>
      (answer.Granted? ==> t.Some?) && (t.Some? ==> t.value < |s.txns| && AnswerOk(s.txns[t.value], answer))
    case Found(t) => t < |s.txns|
    case Inside(t) => t < |s.txns| && s.txns[t].holder == Some(c)
    case Polling(t) => t < |s.txns| && s.txns[t].holder == Some(c) && s.txns[t].status.Pending?
    case Removing(t, answer) =>
      t < |s.txns| && s.txns[t].holder == Some(c) && !s.txns[t].status.Pending? && AnswerOk(s.txns[t], answer)
    case Leaving(t, answer) => t < |s.txns| && s.txns[t].holder == Some(c) && AnswerOk(s.txns[t], answer)
  }

  /** A terminal transaction is out of the store, unless its last poller is about to
      remove it. */
  predicate TxnOk(s: State, t: nat)
    requires t < |s.txns|
  {
    var txn := s.txns[t];
    && (txn.status.Success? <==> txn.credential.Some?)
    && (txn.holder.Some? ==>
          && txn.holder.value < |s.pollers|
          && Holding(s.pollers[txn.holder.value]) && s.pollers[txn.holder.value].txn == t)
    && (!txn.status.Pending? && txn.id in s.store ==>
          txn.holder.Some? && s.pollers[txn.holder.value].Removing?)
  }

  predicate EntryOk(s: State, id: string)
    requires id in s.store
  {
    s.store[id] < |s.txns| && s.txns[s.store[id]].id == id
  }

  predicate Unlike(s: State, t: nat, u: nat)
    requires t < |s.txns| && u < |s.txns|
  {
    s.txns[t].id != s.txns[u].id
  }

  ghost predicate Inv(s: State) {
    && (forall c :: 0 <= c < |s.pollers| ==> PollerOk(s, c))
    && (forall t :: 0 <= t < |s.txns| ==> TxnOk(s, t))
    && (forall id :: id in s.store ==> EntryOk(s, id))
    && (forall t, u :: 0 <= t < u < |s.txns| ==> Unlike(s, t, u))
  }

  lemma MoverNext(s: State, a: Action)
    requires Inv(s) && Enabled(s, a) && Moves(a)
    ensures PollerOk(Next(s, a), a.poller)
  {
    assert PollerOk(s, a.poller);
    if a.Lookup? && s.pollers[a.poller].id in s.store {
      assert EntryOk(s, s.pollers[a.poller].id);
    }
    if a.Check? {
      assert TxnOk(s, s.pollers[a.poller].txn);
    }
  }

  /** The transaction that a poller's action is about. */
  predicate About(s: State, a: Action, t: nat) {
    Moves(a) && !a.Lookup? && a.poller < |s.pollers| && !s.pollers[a.poller].Asking? &&
    !s.pollers[a.poller].Answered? && s.pollers[a.poller].txn == t
  }

  /** A poller's action changes its own phase and, of the one transaction it is about,
      neither the identifier nor a terminal status and credential; it holds the lock
      before, unless it takes it, and after, unless it gives it back. */
  lemma Moved(s: State, a: Action, t: nat)
    requires Inv(s) && Enabled(s, a) && About(s, a, t)
    ensures t < |s.txns|
    ensures var s', c := Next(s, a), a.poller;
      && |s'.txns| == |s.txns| && s'.txns == s.txns[t := s'.txns[t]]
      && |s'.pollers| == |s.pollers| && s'.pollers == s.pollers[c := s'.pollers[c]]
      && s'.txns[t].id == s.txns[t].id
      && (!s.txns[t].status.Pending? ==>
            s'.txns[t].status == s.txns[t].status && s'.txns[t].credential == s.txns[t].credential)
      && s.txns[t].holder == (if a.Lock? then None else Some(c))
      && s'.txns[t].holder == (if a.Unlock? then None else Some(c))
  {
    assert PollerOk(s, a.poller);
    hide Inv;
    assert s.pollers[a.poller := Next(s, a).pollers[a.poller]] == Next(s, a).pollers;
    assert s.txns[t := Next(s, a).txns[t]] == Next(s, a).txns;
  }

  lemma OtherNext(s: State, a: Action, c: nat)
    requires Inv(s) && Enabled(s, a) && c < |Next(s, a).pollers| && !(Moves(a) && c == a.poller)
    ensures PollerOk(Next(s, a), c)
  {
    if c < |s.pollers| {
      assert PollerOk(s, c);
    }
    if Moves(a) && !a.Lookup? {
      Moved(s, a, s.pollers[a.poller].txn);
      hide Inv, Next, Enabled;
    } else {
      hide Inv;
    }
  }

  lemma TxnNext(s: State, a: Action, t: nat)
    requires Inv(s) && Enabled(s, a) && t < |Next(s, a).txns|
    ensures TxnOk(Next(s, a), t)
  {
    if t < |s.txns| {
      assert TxnOk(s, t);
    }
    if Moves(a) && !a.Lookup? && s.pollers[a.poller].txn != t {
      Moved(s, a, s.pollers[a.poller].txn);
      KeepsOtherEntries(s, a, t);
      hide Inv, Next, Enabled;
    } else {
      OwnTxnNext(s, a, t);
    }
  }

  lemma OwnTxnNext(s: State, a: Action, t: nat)
    requires Inv(s) && Enabled(s, a) && t < |Next(s, a).txns|
    requires Moves(a) && !a.Lookup? ==> s.pollers[a.poller].txn == t
    ensures TxnOk(Next(s, a), t)
  {
    if t < |s.txns| {
      assert TxnOk(s, t);
    }
    if Moves(a) {
      assert PollerOk(s, a.poller);
    }
    hide Inv, EntryOk, Unlike, AnswerOk;
  }

  lemma KeepsOtherEntries(s: State, a: Action, t: nat)
    requires Inv(s) && Enabled(s, a) && Moves(a) && t < |s.txns|
    ensures s.txns[t].id in Next(s, a).store ==> s.txns[t].id in s.store
  {}

  /** Actions of one poller. */
  predicate Moves(a: Action) {
    a.Lookup? || a.Lock? || a.Check? || a.Respond? || a.Remove? || a.Unlock?
  }

  lemma EntriesNext(s: State, a: Action)
    requires Inv(s) && Enabled(s, a)
    ensures forall id :: id in Next(s, a).store ==> EntryOk(Next(s, a), id)
    ensures forall t, u :: 0 <= t < u < |Next(s, a).txns| ==> Unlike(Next(s, a), t, u)
  {
    var s' := Next(s, a);
    forall id | id in s'.store
      ensures EntryOk(s', id)
    {
      assert id in s.store ==> EntryOk(s, id);
    }
    forall t, u | 0 <= t < u < |s'.txns|
      ensures Unlike(s', t, u)
    {
      assert u < |s.txns| ==> Unlike(s, t, u);
    }
  }

  lemma InvNext(s: State, a: Action)
    requires Inv(s) && Enabled(s, a)
    ensures Inv(Next(s, a))
  {
    hide Next, Enabled, PollerOk, TxnOk;
    var s' := Next(s, a);
    forall c | 0 <= c < |s'.pollers|
      ensures PollerOk(s', c)
    {
      if Moves(a) && c == a.poller {
        MoverNext(s, a);
      } else {
        OtherNext(s, a, c);
      }
    }
    forall t | 0 <= t < |s'.txns|
      ensures TxnOk(s', t)
    {
      TxnNext(s, a, t);
    }
    EntriesNext(s, a);
  }

  // ---- Over every run ----

  ghost predicate Steps(s: State, a: Action, s': State) {
    Enabled(s, a) && s' == Next(s, a)
  }

  ghost predicate IsRun(states: seq<State>, actions: seq<Action>) {
    && |states| == |actions| + 1
    && states[0] == INITIAL
    && forall i :: 0 <= i < |actions| ==> Steps(states[i], actions[i], states[i + 1])
  }

  lemma {:induction false} RunKeepsInv(states: seq<State>, actions: seq<Action>, i: nat)
    requires IsRun(states, actions) && i < |states|
    ensures Inv(states[i])
  {
    if i > 0 {
      RunKeepsInv(states, actions, i - 1);
      assert Steps(states[i - 1], actions[i - 1], states[i]);
      InvNext(states[i - 1], actions[i - 1]);
    }
  }

  lemma TerminalStays(s: State, a: Action, t: nat)
    requires Inv(s) && Enabled(s, a) && t < |s.txns| && !s.txns[t].status.Pending?
    ensures t < |Next(s, a).txns|
    ensures var txn, txn' := s.txns[t], Next(s, a).txns[t];
      txn'.id == txn.id && txn'.status == txn.status && txn'.credential == txn.credential
  {
    if Moves(a) {
      assert PollerOk(s, a.poller);
    }
  }

  /** A status leaves pending at most once: a terminal status and its credential are
      final, whatever the pollers do. */
  lemma {:induction false} TerminalIsFinal(states: seq<State>, actions: seq<Action>, i: nat, j: nat, t: nat)
    requires IsRun(states, actions) && i <= j < |states|
    requires t < |states[i].txns| && !states[i].txns[t].status.Pending?
    ensures t < |states[j].txns|
    ensures var txn, txn' := states[i].txns[t], states[j].txns[t];
      txn'.id == txn.id && txn'.status == txn.status && txn'.credential == txn.credential
    decreases j - i
  {
    if i < j {
      TerminalIsFinal(states, actions, i, j - 1, t);
      RunKeepsInv(states, actions, j - 1);
      assert Steps(states[j - 1], actions[j - 1], states[j]);
      TerminalStays(states[j - 1], actions[j - 1], t);
    }
  }

  /** Once a transaction is terminal no upstream request is made for it any more. */
  lemma NoPollAfterTerminal(states: seq<State>, actions: seq<Action>, i: nat, j: nat, t: nat, c: nat)
    requires IsRun(states, actions) && i <= j < |states|
    requires t < |states[i].txns| && !states[i].txns[t].status.Pending?
    requires c < |states[j].pollers|
    ensures states[j].pollers[c] != Polling(t)
  {
    TerminalIsFinal(states, actions, i, j, t);
    RunKeepsInv(states, actions, j);
    assert PollerOk(states[j], c);
  }

  /** At most one upstream request is under way for a transaction. */
  lemma OnePollAtATime(states: seq<State>, actions: seq<Action>, i: nat, t: nat, c: nat, d: nat)
    requires IsRun(states, actions) && i < |states|
    requires c < |states[i].pollers| && d < |states[i].pollers|
    requires states[i].pollers[c] == Polling(t) && states[i].pollers[d] == Polling(t)
    ensures c == d
  {
    RunKeepsInv(states, actions, i);
    assert PollerOk(states[i], c) && PollerOk(states[i], d);
  }

  /** All success answers about a transaction carry the same credential, at whatever
      times they are given. */
  lemma SameCredential(states: seq<State>, actions: seq<Action>, i: nat, j: nat, c: nat, d: nat, t: nat,
                       x: string, y: string)
    requires IsRun(states, actions) && i <= j < |states|
    requires c < |states[i].pollers| && states[i].pollers[c] == Answered(Some(t), Granted(x))
    requires d < |states[j].pollers| && states[j].pollers[d] == Answered(Some(t), Granted(y))
    ensures x == y
  {
    RunKeepsInv(states, actions, i);
    RunKeepsInv(states, actions, j);
    assert PollerOk(states[i], c) && PollerOk(states[j], d);
    TerminalIsFinal(states, actions, i, j, t);
  }

  /** Every success answer was issued by the endpoint for that very transaction. */
  lemma {:induction false} CredentialWasIssued(states: seq<State>, actions: seq<Action>, i: nat, t: nat)
    returns (k: nat)
    requires IsRun(states, actions) && i < |states|
    requires t < |states[i].txns| && states[i].txns[t].credential.Some?
    ensures k < i && actions[k].Respond? && actions[k].response == Token(states[i].txns[t].credential.value)
    ensures actions[k].poller < |states[k].pollers| && states[k].pollers[actions[k].poller] == Polling(t)
  {
    k := 0;
    assert i > 0;
    var s := states[i - 1];
    assert Steps(s, actions[i - 1], states[i]);
    if t < |s.txns| && s.txns[t].credential == states[i].txns[t].credential {
      k := CredentialWasIssued(states, actions, i - 1, t);
    } else {
      k := i - 1;
    }
  }

  /** A terminal transaction whose lock is free is out of the store: once the poller that
      ended it has let go, its identifier is unknown, and stays so. */
  lemma {:induction false} GoneOnceReleased(states: seq<State>, actions: seq<Action>, i: nat, j: nat, t: nat)
    requires IsRun(states, actions) && i <= j < |states|
    requires t < |states[i].txns| && !states[i].txns[t].status.Pending? && states[i].txns[t].holder.None?
    ensures t < |states[j].txns| && states[i].txns[t].id !in states[j].store
    decreases j - i
  {
    TerminalIsFinal(states, actions, i, j, t);
    RunKeepsInv(states, actions, j);
    if i == j {
      assert TxnOk(states[i], t);
    } else {
      GoneOnceReleased(states, actions, i, j - 1, t);
      TerminalIsFinal(states, actions, i, j - 1, t);
      assert Steps(states[j - 1], actions[j - 1], states[j]);
    }
  }

  /** No deadlock: as long as some poll is unanswered, some poller can take a step. */
  lemma SomePollerCanStep(states: seq<State>, actions: seq<Action>, i: nat, c: nat) returns (a: Action)
    requires IsRun(states, actions) && i < |states|
    requires c < |states[i].pollers| && !states[i].pollers[c].Answered?
    ensures Enabled(states[i], a) && Moves(a)
  {
    RunKeepsInv(states, actions, i);
    var s := states[i];
    assert PollerOk(s, c);
    if s.pollers[c].Asking? {
      a := Lookup(c);
    } else if s.pollers[c].Found? && s.txns[s.pollers[c].txn].holder.None? {
      a := Lock(c);
    } else {
      var t := s.pollers[c].txn;
      assert TxnOk(s, t);
      var h := s.txns[t].holder.value;
      match s.pollers[h]
      case Inside(_) => a := Check(h, true);
      case Polling(_) => a := Respond(h, NoAnswer);
      case Removing(_, _) => a := Remove(h);
      case Leaving(_, _) => a := Unlock(h);
      case _ => assert false;
    }
  }
}
