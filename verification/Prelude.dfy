/** Vocabulary shared by every component: optional values and facts about
    duplicate-free sequences. */
module Prelude {

  datatype Option<+T> = None | Some(value: T)

  type Byte = x: int | 0 <= x < 256

  function Max(a: int, b: int): int {
    if a < b then b else a
  }

  /** All but the last element. */
  function Front<T>(s: seq<T>): seq<T>
    requires s != []
  {
    s[..|s| - 1]
  }

  function Last<T>(s: seq<T>): T
    requires s != []
  {
    s[|s| - 1]
  }

  function Concat(parts: seq<string>): string {
    if parts == [] then "" else Concat(Front(parts)) + Last(parts)
  }

  ghost function Elems<T>(s: seq<T>): set<T> {
    set x | x in s
  }

  /** Named, so that a proof compares only the positions it mentions. */
  predicate Apart<T(==)>(s: seq<T>, i: nat, j: nat)
    requires i < |s| && j < |s|
  {
    s[i] != s[j]
  }

  predicate Distinct<T(==)>(s: seq<T>) {
    forall i, j :: 0 <= i < j < |s| ==> Apart(s, i, j)
  }

  lemma DistinctAt<T>(s: seq<T>, i: nat, j: nat)
    requires Distinct(s) && i < |s| && j < |s| && i != j
    ensures s[i] != s[j]
  {
    assert Apart(s, i, j) || Apart(s, j, i);
  }

  lemma DistinctDrop<T>(s: seq<T>, d: nat)
    requires Distinct(s) && d <= |s|
    ensures Distinct(s[d..])
    ensures Elems(s[..d]) !! Elems(s[d..]) && Elems(s) == Elems(s[..d]) + Elems(s[d..])
  {
    forall i, j | 0 <= i < j < |s[d..]|
      ensures Apart(s[d..], i, j)
    {
      DistinctAt(s, d + i, d + j);
    }
    forall x | x in s[..d]
      ensures x !in s[d..]
    {
      var i :| 0 <= i < d && s[i] == x;
      forall j | d <= j < |s|
        ensures s[j] != x
      {
        DistinctAt(s, i, j);
      }
    }
    assert s == s[..d] + s[d..];
  }

  lemma DistinctAppend<T>(s: seq<T>, x: T)
    requires Distinct(s) && x !in Elems(s)
    ensures Distinct(s + [x]) && Elems(s + [x]) == Elems(s) + {x}
  {
    forall i, j | 0 <= i < j < |s| + 1
      ensures Apart(s + [x], i, j)
    {
      if j < |s| {
        DistinctAt(s, i, j);
      } else {
        assert s[i] in Elems(s);
      }
    }
  }

  lemma {:induction false} DistinctCard<T>(s: seq<T>)
    requires Distinct(s)
    ensures |Elems(s)| == |s|
  {
    if s != [] {
      DistinctDrop(s, 1);
      DistinctCard(s[1..]);
      assert Elems(s[..1]) == {s[0]};
    }
  }

  lemma {:induction false} SubsetCard<T>(a: set<T>, b: set<T>)
    requires a <= b
    ensures |a| <= |b|
  {
    assert b == a + (b - a);
  }

  lemma SomeElement<T>(s: set<T>) returns (x: T)
    requires s != {}
    ensures x in s
  {
    x :| x in s;
  }

  lemma Associates<T>(a: seq<T>, b: seq<T>, c: seq<T>)
    ensures a + b + c == a + (b + c)
  {}
}
