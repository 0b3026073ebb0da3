/** The scheduler's bounded key-to-value memory (scheduler_state.go).

    What the memory must answer is defined from the history of calls alone
    (`Recall`); the class keeps the map, the order slice and the position index
    of the program and is proved to answer exactly that. */
module LruMap {
  import opened Prelude

  datatype Op = Get(key: string) | Set(key: string, val: string)

  // ---- Reference definition: what a bounded memory of `cap` keys recalls ----

  /** The other keys used after the last use of `k`. */
  ghost function Since(uses: seq<string>, k: string): set<string> {
    if uses == [] || uses[|uses| - 1] == k then {}
    else Since(uses[..|uses| - 1], k) + {uses[|uses| - 1]}
  }

  function Capacity(cap: nat): nat {
    Max(1, cap)
  }

  ghost predicate Resident(cap: nat, uses: seq<string>, k: string) {
    k in uses && |Since(uses, k)| < Capacity(cap)
  }

  /** The keys used by a history, in order: every Set, and each Get that hits. */
  ghost function Uses(cap: nat, h: seq<Op>): seq<string> {
    if h == [] then []
    else
      var before := Uses(cap, h[..|h| - 1]);
      var op := h[|h| - 1];
      if op.Set? || Resident(cap, before, op.key) then before + [op.key] else before
  }

  /** The value given to `k` by the last Set of `k`. */
  function LastSet(h: seq<Op>, k: string): Option<string> {
    if h == [] then None
    else if h[|h| - 1].Set? && h[|h| - 1].key == k then Some(h[|h| - 1].val)
    else LastSet(h[..|h| - 1], k)
  }

  /** What the memory answers for `k` after history `h`: the last value set, as
      long as fewer than `cap` other keys were used since the last use of `k`. */
  ghost function Recall(cap: nat, h: seq<Op>, k: string): Option<string> {
    if Resident(cap, Uses(cap, h), k) then LastSet(h, k) else None
  }

  // ---- The recency order that realises it ----

  /** What follows the key at `i` is exactly what was used after its last use. */
  ghost predicate RankedAt(uses: seq<string>, order: seq<string>, i: nat)
    requires i < |order|
  {
    order[i] in uses && Since(uses, order[i]) == Elems(order[i + 1..])
  }

  /** `order` lists the resident keys, each followed by what was used after it. */
  ghost predicate Ranked(cap: nat, uses: seq<string>, order: seq<string>) {
    && Distinct(order)
    && |order| <= Capacity(cap)
    && (forall k :: k in Elems(order) <==> Resident(cap, uses, k))
    && (forall i :: 0 <= i < |order| ==> RankedAt(uses, order, i))
  }

  /** In a duplicate-free order whose tails are the `Since` sets, every listed key
      is resident. */
  lemma ListedIsResident(cap: nat, uses: seq<string>, order: seq<string>, p: nat)
    requires Distinct(order) && |order| <= Capacity(cap) && p < |order|
    requires RankedAt(uses, order, p)
    ensures Resident(cap, uses, order[p])
  {
    DistinctDrop(order, p + 1);
    DistinctCard(order[p + 1..]);
  }

  /** A further use can only make a different key older. */
  lemma SinceGrows(uses: seq<string>, k: string, other: string)
    requires k != other
    ensures Since(uses + [k], other) == Since(uses, other) + {k}
    ensures |Since(uses, other)| <= |Since(uses + [k], other)|
  {
    assert (uses + [k])[..|uses|] == uses;
    SubsetCard(Since(uses, other), Since(uses + [k], other));
  }

  /** `order` with the key at `i` moved to the end. */
  function Promote(order: seq<string>, i: nat): (r: seq<string>)
    requires i < |order|
    ensures |r| == |order|
  {
    order[..i] + order[i + 1..] + [order[i]]
  }

  lemma PromoteParts(order: seq<string>, i: nat)
    requires i < |order|
    ensures var rest := order[..i] + order[i + 1..];
      Promote(order, i) == rest + [order[i]] && rest == Promote(order, i)[..|rest|] && |rest| == |order| - 1
    ensures Promote(order, i)[|order| - 1] == order[i]
    ensures i == |order| - 1 ==> Promote(order, i) == order
  {}

  lemma PromoteKeeps(order: seq<string>, i: nat)
    requires Distinct(order) && i < |order|
    ensures Distinct(Promote(order, i)) && Elems(Promote(order, i)) == Elems(order)
  {
    var r := Promote(order, i);
    forall p, q | 0 <= p < q < |r|
      ensures Apart(r, p, q)
    {
      DistinctAt(order, if p < i then p else p + 1, if q == |r| - 1 then i else if q < i then q else q + 1);
    }
    forall p | 0 <= p < |order|
      ensures order[p] in r
    {
      assert order[p] == if p < i then r[p] else if p == i then r[|r| - 1] else r[p - 1];
    }
  }

  lemma PromoteTail(order: seq<string>, i: nat, p: nat)
    requires i < |order| && p < |order| - 1
    ensures var q := if p < i then p else p + 1;
      && Promote(order, i)[p] == order[q]
      && Elems(Promote(order, i)[p + 1..]) == Elems(order[q + 1..]) + {order[i]}
  {
    var r, k := Promote(order, i), order[i];
    if p < i {
      assert r[p + 1..] == order[p + 1..i] + order[i + 1..] + [k];
      assert order[p + 1..] == order[p + 1..i] + [k] + order[i + 1..];
    } else {
      assert r[p + 1..] == order[p + 2..] + [k];
    }
  }

  lemma TouchRanksAt(cap: nat, uses: seq<string>, order: seq<string>, i: nat, p: nat)
    requires Ranked(cap, uses, order) && i < |order| && p < |order|
    ensures RankedAt(uses + [order[i]], Promote(order, i), p)
  {
    var k, u, next := order[i], uses + [order[i]], Promote(order, i);
    if p < |next| - 1 {
      PromoteTail(order, i, p);
      var q := if p < i then p else p + 1;
      assert RankedAt(uses, order, q);
      DistinctAt(order, i, q);
      SinceGrows(uses, k, order[q]);
    } else {
      assert next[p] == k && next[p + 1..] == [];
    }
  }

  /** Moving a resident key to the end ranks the history that used it again. */
  lemma {:induction false} TouchRanks(cap: nat, uses: seq<string>, order: seq<string>, i: nat)
    requires Ranked(cap, uses, order) && i < |order|
    ensures Ranked(cap, uses + [order[i]], Promote(order, i))
  {
    var k, u, next := order[i], uses + [order[i]], Promote(order, i);
    PromoteKeeps(order, i);
    forall p | 0 <= p < |next|
      ensures RankedAt(u, next, p) && Resident(cap, u, next[p])
    {
      TouchRanksAt(cap, uses, order, i, p);
      ListedIsResident(cap, u, next, p);
    }
    forall other | other !in Elems(next)
      ensures !Resident(cap, u, other)
    {
      assert k in Elems(order);
      SinceGrows(uses, k, other);
    }
  }

  /** How many of the oldest keys give way to a new one. */
  function Evicted(cap: nat, order: seq<string>): (d: nat)
    ensures d <= |order|
    ensures |order| <= Capacity(cap) ==> |order| - d < Capacity(cap)
  {
    if |order| >= cap && order != [] then 1 else 0
  }

  lemma AppendKeeps(order: seq<string>, d: nat, k: string)
    requires Distinct(order) && k !in Elems(order) && d <= |order|
    ensures Distinct(order[d..] + [k])
    ensures Elems(order[d..]) == Elems(order) - Elems(order[..d])
    ensures Elems(order[d..] + [k]) == Elems(order) - Elems(order[..d]) + {k}
  {
    DistinctDrop(order, d);
    DistinctAppend(order[d..], k);
  }

  lemma AppendRanksAt(uses: seq<string>, order: seq<string>, d: nat, k: string, p: nat)
    requires k !in Elems(order) && d + p <= |order|
    requires d + p < |order| ==> RankedAt(uses, order, d + p)
    ensures RankedAt(uses + [k], order[d..] + [k], p)
  {
    var next := order[d..] + [k];
    if d + p < |order| {
      assert next[p] == order[d + p] && order[d + p] in Elems(order);
      assert next[p + 1..] == order[d + p + 1..] + [k];
      assert Elems(next[p + 1..]) == Elems(order[d + p + 1..]) + {k};
      hide Elems;
      SinceGrows(uses, k, order[d + p]);
    } else {
      assert next[p] == k && next[p + 1..] == [];
    }
  }

  lemma EvictedIsOld(cap: nat, uses: seq<string>, order: seq<string>, k: string)
    requires Ranked(cap, uses, order) && k !in Elems(order) && Evicted(cap, order) == 1
    ensures !Resident(cap, uses + [k], order[0])
  {
    assert RankedAt(uses, order, 0);
    assert order[0] in Elems(order);
    SinceGrows(uses, k, order[0]);
    DistinctDrop(order, 1);
    DistinctCard(order[1..]);
    assert k !in Elems(order[1..]);
  }

  /** Appending a key that is not resident, after dropping the first key of a
      full order, ranks the history that used it. */
  lemma {:induction false} AppendRanks(cap: nat, uses: seq<string>, order: seq<string>, k: string)
    requires Ranked(cap, uses, order) && k !in Elems(order)
    ensures Ranked(cap, uses + [k], order[Evicted(cap, order)..] + [k])
  {
    var d, u := Evicted(cap, order), uses + [k];
    var next := order[d..] + [k];
    AppendKeeps(order, d, k);
    forall p | 0 <= p < |next|
      ensures RankedAt(u, next, p) && Resident(cap, u, next[p])
    {
      AppendRanksAt(uses, order, d, k, p);
      ListedIsResident(cap, u, next, p);
    }
    forall other | other !in Elems(next)
      ensures !Resident(cap, u, other)
    {
      if other in Elems(order[..d]) {
        EvictedIsOld(cap, uses, order, k);
      } else {
        SinceGrows(uses, k, other);
      }
    }
  }

  /** Everything that ties the stored map and order to the history of calls. */
  ghost predicate Agrees(cap: nat, h: seq<Op>, order: seq<string>, m: map<string, string>) {
    && Ranked(cap, Uses(cap, h), order)
    && m.Keys == Elems(order)
    && (forall k :: k in m ==> LastSet(h, k) == Some(m[k]))
  }

  lemma AgreesAnswers(cap: nat, h: seq<Op>, order: seq<string>, m: map<string, string>, k: string)
    requires Agrees(cap, h, order, m)
    ensures Recall(cap, h, k) == if k in m then Some(m[k]) else None
  {
    assert k in m <==> k in Elems(order);
  }

  lemma MissAgrees(cap: nat, h: seq<Op>, order: seq<string>, m: map<string, string>, k: string)
    requires Agrees(cap, h, order, m) && k !in m
    ensures Agrees(cap, h + [Get(k)], order, m)
  {
    assert (h + [Get(k)])[..|h|] == h;
    assert k !in Elems(order);
  }

  lemma TouchAgrees(cap: nat, h: seq<Op>, op: Op, order: seq<string>, m: map<string, string>, i: nat)
    requires Agrees(cap, h, order, m) && i < |order| && order[i] == op.key
    ensures Agrees(cap, h + [op], Promote(order, i), if op.Set? then m[op.key := op.val] else m)
  {
    assert (h + [op])[..|h|] == h;
    assert op.key in Elems(order);
    TouchRanks(cap, Uses(cap, h), order, i);
    PromoteKeeps(order, i);
  }

  lemma AppendAgrees(cap: nat, h: seq<Op>, op: Op, order: seq<string>, m: map<string, string>)
    requires Agrees(cap, h, order, m) && op.Set? && op.key !in m
    ensures var d := Evicted(cap, order);
      Agrees(cap, h + [op], order[d..] + [op.key], (m - Elems(order[..d]))[op.key := op.val])
  {
    assert (h + [op])[..|h|] == h;
    assert op.key !in Elems(order);
    AppendRanks(cap, Uses(cap, h), order, op.key);
    AppendKeeps(order, Evicted(cap, order), op.key);
  }

  ghost predicate IndexedUpTo(order: seq<string>, idx: map<string, int>, n: nat)
    requires n <= |order|
  {
    forall j :: 0 <= j < n ==> order[j] in idx && idx[order[j]] == j
  }

  lemma IndexStep(order: seq<string>, idx: map<string, int>, n: nat)
    requires Distinct(order) && n < |order| && IndexedUpTo(order, idx, n) && idx.Keys == Elems(order)
    ensures IndexedUpTo(order, idx[order[n] := n], n + 1)
    ensures idx[order[n] := n].Keys == Elems(order)
  {
    assert order[n] in Elems(order);
    forall j | 0 <= j < n
      ensures order[j] != order[n]
    {
      DistinctAt(order, j, n);
    }
  }

  /** The position index: exactly the keys of `order`, each at its place. */
  ghost predicate Indexed(order: seq<string>, idx: map<string, int>) {
    idx.Keys == Elems(order) && IndexedUpTo(order, idx, |order|)
  }

  /** Only the places from `i` on change when the key at `i` is promoted. */
  lemma PromoteIndexed(order: seq<string>, idx: map<string, int>, i: nat)
    requires Distinct(order) && Indexed(order, idx) && i < |order|
    ensures IndexedUpTo(Promote(order, i), idx, i) && idx.Keys == Elems(Promote(order, i))
  {
    PromoteKeeps(order, i);
    forall p | 0 <= p < i
      ensures Promote(order, i)[p] == order[p]
    {}
  }

  lemma IndexFinds(order: seq<string>, idx: map<string, int>, k: string)
    requires Indexed(order, idx) && k in idx
    ensures 0 <= idx[k] < |order| && order[idx[k]] == k
  {
    assert k in Elems(order);
  }

  lemma IndexAppend(order: seq<string>, idx: map<string, int>, k: string)
    requires Indexed(order, idx) && k !in Elems(order)
    ensures Indexed(order + [k], idx[k := |order|])
  {
    assert Elems(order + [k]) == Elems(order) + {k};
    forall j | 0 <= j < |order|
      ensures order[j] != k
    {
      assert order[j] in Elems(order);
    }
  }

  // ---- What a stretch of calls does to one key ----

  /** Setting a key makes it the most recent one, with that value. */
  lemma AfterSet(cap: nat, h: seq<Op>, k: string, val: string)
    ensures LastSet(h + [Set(k, val)], k) == Some(val)
    ensures k in Uses(cap, h + [Set(k, val)]) && Since(Uses(cap, h + [Set(k, val)]), k) == {}
  {
    assert (h + [Set(k, val)])[..|h|] == h;
  }

  /** A call on another key keeps the value, and ages the key by at most that key. */
  lemma AfterOther(cap: nat, h: seq<Op>, op: Op, k: string)
    requires op.key != k && k in Uses(cap, h)
    ensures LastSet(h + [op], k) == LastSet(h, k)
    ensures k in Uses(cap, h + [op])
    ensures Since(Uses(cap, h + [op]), k) <= Since(Uses(cap, h), k) + {op.key}
  {
    assert (h + [op])[..|h|] == h;
    SinceGrows(Uses(cap, h), op.key, k);
  }

  /** A key is still recalled while fewer than `cap` others are known to have been used. */
  lemma RecallIfYoung(cap: nat, h: seq<Op>, k: string, others: set<string>)
    requires k in Uses(cap, h) && Since(Uses(cap, h), k) <= others && |others| < cap
    ensures Recall(cap, h, k) == LastSet(h, k)
  {
    SubsetCard(Since(Uses(cap, h), k), others);
  }

  class Lru {
    const cap: nat
    var m: map<string, string>
    var order: seq<string>
    var idx: map<string, int>
    /** Every call made so far. */
    ghost var history: seq<Op>

    ghost predicate Valid()
      reads this
    {
      Indexed(order, idx) && Agrees(cap, history, order, m)
    }

    constructor (cap: nat)
      ensures Valid() && history == [] && this.cap == cap
    {
      this.cap := cap;
      m, order, idx, history := map[], [], map[], [];
    }

    /** The remembered value, exactly as the history of calls defines it. */
    method Lookup(key: string) returns (found: Option<string>)
      requires Valid()
      modifies this
      ensures Valid() && history == old(history) + [Get(key)]
      ensures found == Recall(cap, old(history), key)
    {
      AgreesAnswers(cap, history, order, m, key);
      if key in m {
        found := Some(m[key]);
        assert key in Elems(order);
        TouchAgrees(cap, history, Get(key), order, m, idx[key]);
        Touch(key);
      } else {
        found := None;
        MissAgrees(cap, history, order, m, key);
      }
      history := history + [Get(key)];
    }

    method Store(key: string, val: string)
      requires Valid()
      modifies this
      ensures Valid() && history == old(history) + [Set(key, val)]
    {
      ghost var op := Set(key, val);
      history := history + [op];
      if key in m {
        assert key in Elems(order);
        TouchAgrees(cap, old(history), op, order, m, idx[key]);
        m := m[key := val];
        Touch(key);
        return;
      }
      AppendAgrees(cap, old(history), op, order, m);
      Append(key, val);
    }

    /** Adds a new key at the end, making room for it first. */
    method Append(key: string, val: string)
      requires Indexed(order, idx) && Distinct(order) && m.Keys == Elems(order) && key !in m
      modifies this`order, this`idx, this`m
      ensures Indexed(order, idx)
      ensures order == old(order)[Evicted(cap, old(order))..] + [key]
      ensures m == (old(m) - Elems(old(order)[..Evicted(cap, old(order))]))[key := val]
    {
      hide Distinct, Indexed, Elems, Evicted;
      AppendKeeps(order, Evicted(cap, order), key);
      assert key !in Elems(order);
      MakeRoom();
      m := m[key := val];
      var i := |order|;
      IndexAppend(order, idx, key);
      order := order + [key];
      idx := idx[key := i];
    }

    /** Forgets the first key if the map is full. */
    method MakeRoom()
      requires Indexed(order, idx) && Distinct(order) && m.Keys == Elems(order)
      modifies this`order, this`idx, this`m
      ensures Indexed(order, idx)
      ensures var d := Evicted(cap, old(order));
        order == old(order)[d..] && m == old(m) - Elems(old(order)[..d])
    {
      hide Distinct, Indexed;
      DistinctCard(order);
      assert |m| == |m.Keys|;
      if |m| >= cap {
        EvictOldest();
      } else {
        assert order[0..] == order && Elems(order[..0]) == {} && m - {} == m;
      }
    }

    /** Moves `key` to the end of the order; every other key keeps its rank. */
    method Touch(key: string)
      requires Indexed(order, idx) && key in idx && Distinct(order)
      modifies this`order, this`idx
      ensures Indexed(order, idx)
      ensures 0 <= old(idx)[key] < |old(order)| && order == Promote(old(order), old(idx)[key])
    {
      IndexFinds(order, idx, key);
      hide Distinct, IndexedUpTo, Elems, Promote;
      var i := idx[key];
      PromoteKeeps(order, i);
      PromoteParts(order, i);
      PromoteIndexed(order, idx, i);
      if i >= |order| - 1 {
        return;
      }
      ghost var next := Promote(order, i);
      var rest := order[..i] + order[i + 1..];
      order := rest;
      Reindex(i, next);
      PlaceLast(key, next);
    }

    /** Puts `key` at the end, which completes `next`. */
    method PlaceLast(key: string, ghost next: seq<string>)
      requires next == order + [key] && Distinct(next) && idx.Keys == Elems(next)
      requires IndexedUpTo(next, idx, |order|)
      modifies this`order, this`idx
      ensures order == next && Indexed(order, idx)
    {
      hide Distinct, IndexedUpTo, Elems;
      IndexStep(next, idx, |order|);
      order := order + [key];
      idx := idx[key := |order| - 1];
    }

    /** Records the positions from `start` on afresh; `next` is the order being built. */
    method Reindex(start: nat, ghost next: seq<string>)
      requires start <= |order| <= |next| && order == next[..|order|]
      requires Distinct(next) && idx.Keys == Elems(next) && IndexedUpTo(next, idx, start)
      modifies this`idx
      ensures idx.Keys == Elems(next) && IndexedUpTo(next, idx, |order|)
    {
      hide Distinct, IndexedUpTo, Elems;
      var j := start;
      while j < |order|
        invariant start <= j <= |order|
        invariant idx.Keys == Elems(next) && IndexedUpTo(next, idx, j)
      {
        IndexStep(next, idx, j);
        idx := idx[order[j] := j];
        j := j + 1;
      }
    }

    /** Forgets the first key of the order, if there is one. */
    method EvictOldest()
      requires Indexed(order, idx) && Distinct(order)
      modifies this`order, this`idx, this`m
      ensures Indexed(order, idx)
      ensures var d := if old(order) == [] then 0 else 1;
        order == old(order)[d..] && m == old(m) - Elems(old(order)[..d])
    {
      if |order| == 0 {
        assert order[0..] == order && Elems(order[..0]) == {} && m - {} == m;
        return;
      }
      var oldest := order[0];
      assert order == [oldest] + order[1..];
      assert Elems(order[..1]) == {oldest};
      order := order[1..];
      m := m - {oldest};
      idx := idx - {oldest};
      assert idx.Keys == Elems(order);
      Reindex(0, order);
    }
  }
}
