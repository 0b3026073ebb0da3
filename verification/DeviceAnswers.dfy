/** What the answers of a device login mean over every run: which action each of them comes
    from, what ends a transaction, and how long it can be found (oauth.go, store.go). */
module DeviceAnswers {
  import opened Prelude
  import opened DeviceLogin

  // ---- How long a transaction is in the store ----

  /** Action `l` of the run logs in transaction `t`. */
  ghost predicate LogsIn(states: seq<State>, actions: seq<Action>, l: nat, t: nat) {
    l < |actions| && l < |states| && actions[l].Login? && t == |states[l].txns|
  }

  /** The poller that ended the transaction deletes it. */
  predicate Removes(s: State, a: Action, t: nat) {
    a.Remove? && a.poller < |s.pollers| && s.pollers[a.poller].Removing? && s.pollers[a.poller].txn == t
  }

  /** The transaction is cancelled, or deleted by the poller that ended it. */
  predicate Drops(s: State, a: Action, t: nat) {
    (t < |s.txns| && a == Cancel(s.txns[t].id)) || Removes(s, a, t)
  }

  ghost predicate DroppedBetween(states: seq<State>, actions: seq<Action>, l: nat, i: nat, t: nat) {
    exists k: nat :: l < k < i && k < |states| && k < |actions| && Drops(states[k], actions[k], t)
  }

  /** Every transaction was logged in, under the identifier it has. */
  lemma {:induction false} WasLoggedIn(states: seq<State>, actions: seq<Action>, i: nat, t: nat) returns (l: nat)
    requires IsRun(states, actions) && i < |states| && t < |states[i].txns|
    ensures l < i && LogsIn(states, actions, l, t) && actions[l].id == states[i].txns[t].id
  {
    assert i > 0;
    assert Steps(states[i - 1], actions[i - 1], states[i]);
    if t < |states[i - 1].txns| {
      l := WasLoggedIn(states, actions, i - 1, t);
    } else {
      l := i - 1;
    }
  }

  /** From its login on a transaction is in the store, under its own identifier, exactly as
      long as it has been neither cancelled nor deleted by the poller that ended it. */
  lemma {:induction false} StoredUntilDropped(states: seq<State>, actions: seq<Action>, l: nat, i: nat, t: nat)
    requires IsRun(states, actions) && LogsIn(states, actions, l, t) && l < i < |states|
    ensures t < |states[i].txns| && states[i].txns[t].id == actions[l].id
    ensures actions[l].id in states[i].store <==> !DroppedBetween(states, actions, l, i, t)
    ensures actions[l].id in states[i].store ==> states[i].store[actions[l].id] == t
    decreases i
  {
    assert Steps(states[i - 1], actions[i - 1], states[i]);
    if i - 1 > l {
      StoredUntilDropped(states, actions, l, i - 1, t);
      RunKeepsInv(states, actions, i - 1);
      StoreStep(states[i - 1], actions[i - 1], t);
      hide Next, Enabled, Drops, Inv, IsRun;
      if k: nat :| l < k < i && Drops(states[k], actions[k], t) {
        assert k < i - 1 || k == i - 1;
      }
    }
  }

  lemma StoreStep(s: State, a: Action, t: nat)
    requires Inv(s) && Enabled(s, a) && t < |s.txns|
    ensures t < |Next(s, a).txns| && Next(s, a).txns[t].id == s.txns[t].id
    ensures var id := s.txns[t].id;
      && (id in Next(s, a).store <==> id in s.store && !Drops(s, a, t))
      && (id in s.store && !Drops(s, a, t) ==> Next(s, a).store[id] == s.store[id])
  {
    if a.Remove? {
      var u := s.pollers[a.poller].txn;
      assert u < t ==> Unlike(s, u, t);
      assert t < u ==> Unlike(s, t, u);
    }
    hide Inv, PollerOk, TxnOk;
  }

  /** A pending transaction that has not been cancelled since its login can be found. */
  lemma PendingIsStored(states: seq<State>, actions: seq<Action>, l: nat, i: nat, t: nat)
    requires IsRun(states, actions) && LogsIn(states, actions, l, t) && l < i < |states|
    requires t < |states[i].txns| && states[i].txns[t].status.Pending?
    requires forall k :: l < k < i ==> actions[k] != Cancel(actions[l].id)
    ensures actions[l].id in states[i].store && states[i].store[actions[l].id] == t
  {
    StoredUntilDropped(states, actions, l, i, t);
    if k: nat :| l < k < i && Drops(states[k], actions[k], t) {
      StoredUntilDropped(states, actions, l, k, t);
      RunKeepsInv(states, actions, k);
      assert PollerOk(states[k], actions[k].poller);
      TerminalIsFinal(states, actions, k, i, t);
      assert false;
    }
  }

  /** So a poll that looks it up finds it. */
  lemma PendingIsFound(states: seq<State>, actions: seq<Action>, l: nat, i: nat, t: nat, c: nat)
    requires IsRun(states, actions) && LogsIn(states, actions, l, t) && l < i < |actions|
    requires t < |states[i].txns| && states[i].txns[t].status.Pending?
    requires forall k :: l < k < i ==> actions[k] != Cancel(actions[l].id)
    requires c < |states[i].pollers| && states[i].pollers[c] == Asking(actions[l].id) && actions[i] == Lookup(c)
    ensures c < |states[i + 1].pollers| && states[i + 1].pollers[c] == Found(t)
  {
    PendingIsStored(states, actions, l, i, t);
    assert Steps(states[i], actions[i], states[i + 1]);
  }

  // ---- Where each answer comes from ----

  /** The status and credential of the transaction that a poller is at. */
  ghost predicate AtTxn(s: State, c: nat, status: Status, credential: Option<string>) {
    && c < |s.pollers| && s.pollers[c].Inside? && s.pollers[c].txn < |s.txns|
    && s.txns[s.pollers[c].txn].status == status && s.txns[s.pollers[c].txn].credential == credential
  }

  /** What decides on an answer: the failed lookup, the check of status and deadline, or the
      endpoint's response. */
  ghost predicate Decides(s: State, a: Action, c: nat, answer: Answer) {
    match answer
    case Unknown => a == Lookup(c) && c < |s.pollers| && s.pollers[c].Asking? && s.pollers[c].id !in s.store
    case Expired => a == Check(c, true) && AtTxn(s, c, Pending, None)
    case Terminal => (a == Check(c, true) || a == Check(c, false)) && AtTxn(s, c, Error, None)
    case StillPending => a == Respond(c, NotYet)
    case Upstream => a == Respond(c, NoAnswer) || a == Respond(c, Denied)
    case Granted(x) =>
      || a == Respond(c, Token(x))
      || ((a == Check(c, true) || a == Check(c, false)) && AtTxn(s, c, Success, Some(x)))
  }

  /** The answer that a poller has settled on. */
  function AnswerOf(p: Phase): Option<Answer> {
    match p
    case Removing(_, answer) => Some(answer)
    case Leaving(_, answer) => Some(answer)
    case Answered(_, answer) => Some(answer)
    case _ => None
  }

  lemma AnswerStep(s: State, a: Action, c: nat, answer: Answer)
    requires Inv(s) && Enabled(s, a) && c < |s.pollers|
    ensures c < |Next(s, a).pollers|
    ensures AnswerOf(Next(s, a).pollers[c]) == Some(answer) <==>
      AnswerOf(s.pollers[c]) == Some(answer) || Decides(s, a, c, answer)
    ensures AnswerOf(s.pollers[c]).Some? ==> AnswerOf(Next(s, a).pollers[c]) == AnswerOf(s.pollers[c])
  {
    if a.Check? {
      assert TxnOk(s, s.pollers[a.poller].txn);
    }
    hide Inv, PollerOk;
  }

  /** A poller has settled on an answer exactly if some action before decided on it. */
  lemma {:induction false} AnsweredIff(states: seq<State>, actions: seq<Action>, i: nat, c: nat, answer: Answer)
    requires IsRun(states, actions) && i < |states| && c < |states[i].pollers|
    ensures AnswerOf(states[i].pollers[c]) == Some(answer) <==>
      exists k: nat :: k < i && Decides(states[k], actions[k], c, answer)
  {
    assert i > 0;
    var s, a := states[i - 1], actions[i - 1];
    assert Steps(s, a, states[i]);
    if c < |s.pollers| {
      AnsweredIff(states, actions, i - 1, c, answer);
      RunKeepsInv(states, actions, i - 1);
      AnswerStep(s, a, c, answer);
      hide Next, Enabled, Decides, Inv, IsRun;
      if k: nat :| k < i && Decides(states[k], actions[k], c, answer) {
        assert k < i - 1 || k == i - 1;
      }
    } else {
      NotYetPolling(states, actions, i, c, answer);
    }
  }

  /** Before a poller exists nothing is decided for it. */
  lemma NotYetPolling(states: seq<State>, actions: seq<Action>, i: nat, c: nat, answer: Answer)
    requires IsRun(states, actions) && 0 < i < |states| && c < |states[i].pollers| && c >= |states[i - 1].pollers|
    ensures AnswerOf(states[i].pollers[c]).None?
    ensures !exists k: nat :: k < i && Decides(states[k], actions[k], c, answer)
  {
    assert Steps(states[i - 1], actions[i - 1], states[i]);
    forall k: nat | k < i
      ensures !Decides(states[k], actions[k], c, answer)
    {
      PollersGrow(states, actions, k, i - 1);
      assert Steps(states[k], actions[k], states[k + 1]);
    }
  }

  lemma {:induction false} PollersGrow(states: seq<State>, actions: seq<Action>, i: nat, j: nat)
    requires IsRun(states, actions) && i <= j < |states|
    ensures |states[i].pollers| <= |states[j].pollers|
    decreases j
  {
    if i < j {
      PollersGrow(states, actions, i, j - 1);
      assert Steps(states[j - 1], actions[j - 1], states[j]);
    }
  }

  /** A poll is answered that its transaction is unknown only if, when it asked, every login
      under that identifier had been cancelled or had ended; none need ever have been. */
  lemma UnknownMeans(states: seq<State>, actions: seq<Action>, i: nat, c: nat) returns (k: nat, id: string)
    requires IsRun(states, actions) && i < |states| && c < |states[i].pollers|
    requires AnswerOf(states[i].pollers[c]) == Some(Unknown)
    ensures k < i && actions[k] == Lookup(c) && c < |states[k].pollers| && states[k].pollers[c] == Asking(id)
    ensures forall l: nat, t: nat :: l < k && LogsIn(states, actions, l, t) && actions[l].id == id ==>
      DroppedBetween(states, actions, l, k, t)
  {
    AnsweredIff(states, actions, i, c, Unknown);
    k :| k < i && Decides(states[k], actions[k], c, Unknown);
    id := states[k].pollers[c].id;
    forall l: nat, t: nat | l < k && LogsIn(states, actions, l, t) && actions[l].id == id
      ensures DroppedBetween(states, actions, l, k, t)
    {
      StoredUntilDropped(states, actions, l, k, t);
    }
  }

  /** Action `i` of the run checks transaction `t`. */
  ghost predicate ChecksTxn(states: seq<State>, actions: seq<Action>, i: nat, t: nat) {
    && i < |actions| && i < |states| && actions[i].Check?
    && actions[i].poller < |states[i].pollers| && states[i].pollers[actions[i].poller] == Inside(t)
  }

  /** A token given to a poll is what that poll is answered, and what every poll that gets to
      the transaction afterwards is answered. */
  lemma TokenIsGranted(states: seq<State>, actions: seq<Action>, k: nat, c: nat, x: string, i: nat)
    requires IsRun(states, actions) && k < |actions| && actions[k] == Respond(c, Token(x)) && k < i < |states|
    ensures c < |states[i].pollers| && AnswerOf(states[i].pollers[c]) == Some(Granted(x))
    ensures c < |states[k].pollers| && states[k].pollers[c].Polling?
    ensures ChecksTxn(states, actions, i, states[k].pollers[c].txn) ==>
      Decides(states[i], actions[i], actions[i].poller, Granted(x))
  {
    assert Steps(states[k], actions[k], states[k + 1]);
    PollersGrow(states, actions, k, i);
    assert Decides(states[k], actions[k], c, Granted(x));
    AnsweredIff(states, actions, i, c, Granted(x));
    var t := states[k].pollers[c].txn;
    assert states[k + 1].txns[t].status.Success? && states[k + 1].txns[t].credential == Some(x);
    TerminalIsFinal(states, actions, k + 1, i, t);
  }

  // ---- What ends a transaction ----

  /** The action ends transaction `t` with this status and credential: a check past the
      deadline, a token, or a denial. */
  ghost predicate Ends(s: State, a: Action, t: nat, status: Status, credential: Option<string>) {
    && (a.Check? || a.Respond?) && a.poller < |s.pollers| && t < |s.txns|
    && (|| (a.Check? && a.expired && s.pollers[a.poller] == Inside(t) && s.txns[t].status.Pending?
            && status == Error && credential == None)
        || (a.Respond? && s.pollers[a.poller] == Polling(t) && a.response.Token?
            && status == Success && credential == Some(a.response.credential))
        || (a.Respond? && s.pollers[a.poller] == Polling(t) && a.response.Denied?
            && status == Error && credential == None))
  }

  lemma StatusStep(s: State, a: Action, t: nat, status: Status, credential: Option<string>)
    requires Inv(s) && Enabled(s, a) && t < |s.txns| && !status.Pending?
    ensures t < |Next(s, a).txns|
    ensures var txn, txn' := s.txns[t], Next(s, a).txns[t];
      txn'.status == status && txn'.credential == credential <==>
        (txn.status == status && txn.credential == credential) || Ends(s, a, t, status, credential)
  {
    assert TxnOk(s, t);
    if Moves(a) {
      assert PollerOk(s, a.poller);
    }
    hide Inv, EntryOk, Unlike, AnswerOk;
  }

  /** A transaction has ended in a way exactly if some action before ended it so. */
  lemma {:induction false} EndedIff(states: seq<State>, actions: seq<Action>, i: nat, t: nat,
                                    status: Status, credential: Option<string>)
    requires IsRun(states, actions) && i < |states| && t < |states[i].txns| && !status.Pending?
    ensures states[i].txns[t].status == status && states[i].txns[t].credential == credential <==>
      exists k: nat :: k < i && Ends(states[k], actions[k], t, status, credential)
  {
    assert i > 0;
    var s, a := states[i - 1], actions[i - 1];
    assert Steps(s, a, states[i]);
    if t < |s.txns| {
      EndedIff(states, actions, i - 1, t, status, credential);
      RunKeepsInv(states, actions, i - 1);
      StatusStep(s, a, t, status, credential);
      hide Next, Enabled, Ends, Inv, IsRun;
      if k: nat :| k < i && Ends(states[k], actions[k], t, status, credential) {
        assert k < i - 1 || k == i - 1;
      }
    } else {
      forall k: nat | k < i
        ensures !Ends(states[k], actions[k], t, status, credential)
      {
        TxnsGrow(states, actions, k, i - 1);
      }
    }
  }

  lemma {:induction false} TxnsGrow(states: seq<State>, actions: seq<Action>, i: nat, j: nat)
    requires IsRun(states, actions) && i <= j < |states|
    ensures |states[i].txns| <= |states[j].txns|
    decreases j
  {
    if i < j {
      TxnsGrow(states, actions, i, j - 1);
      assert Steps(states[j - 1], actions[j - 1], states[j]);
    }
  }

  /** Conversely a poll is granted a credential only if a token with it arrived: its own or,
      before its check, that of another poll of the same transaction. */
  lemma GrantedMeans(states: seq<State>, actions: seq<Action>, i: nat, c: nat, x: string) returns (j: nat, t: nat)
    requires IsRun(states, actions) && i < |states| && c < |states[i].pollers|
    requires AnswerOf(states[i].pollers[c]) == Some(Granted(x))
    ensures j < i && Ends(states[j], actions[j], t, Success, Some(x)) && actions[j].Respond?
    ensures actions[j].poller == c ||
      exists k: nat :: j < k < i && ChecksTxn(states, actions, k, t) && actions[k].poller == c
  {
    AnsweredIff(states, actions, i, c, Granted(x));
    var k: nat :| k < i && Decides(states[k], actions[k], c, Granted(x));
    assert Steps(states[k], actions[k], states[k + 1]);
    t := states[k].pollers[c].txn;
    hide Decides, Next, Inv, AnswerOf;
    if actions[k].Respond? {
      j := k;
    } else {
      EndedIff(states, actions, k, t, Success, Some(x));
      j :| j < k && Ends(states[j], actions[j], t, Success, Some(x));
      assert ChecksTxn(states, actions, k, t);
    }
  }
}
