/** Public model names and the model registry (model_provider.go, model_registry.go). */
module Catalog {
  import opened Prelude
  import opened Text

  const PROVIDER_PREFIX := "qoder/"

  datatype Model = Model(id: string, name: string, isReasoning: bool, maxInputTokens: int)
  datatype Meta = Meta(isReasoning: bool, maxInputTokens: int)
  datatype Info = Info(id: string, name: string, displayName: string, inputLimit: Option<int>, thinking: bool)

  function TrimPrefix(s: string, prefix: string): string {
    if prefix <= s then s[|prefix|..] else s
  }

  function InternalID(m: Model): string {
    Trim(TrimPrefix(m.id, PROVIDER_PREFIX))
  }

  function DisplayName(id: string, upstreamName: string): string {
    if Trim(upstreamName) != "" then Trim(upstreamName) else Trim(id)
  }

  function PublicModelID(name: string): string {
    if Trim(name) == "" then "" else PROVIDER_PREFIX + Trim(name)
  }

  /** What the three names are, for texts given with spaces around them: the internal ID
      is the model's without the provider prefix, the display name the upstream name, or the
      ID if that is blank, and the public name has the prefix before it. */
  lemma NamesInParts(m: Model, rest: string, id: string, name: string)
    requires m.id == PROVIDER_PREFIX + rest || (m.id == rest && !(PROVIDER_PREFIX <= rest))
    requires Spaced(rest, id) && Spaced(m.name, name)
    ensures InternalID(m) == id
    ensures DisplayName(id, m.name) == (if name != "" then name else id)
    ensures PublicModelID(m.name) == (if name != "" then "qoder/" + name else "")
  {
    TrimIffSpaced(rest, id);
    TrimIffSpaced(m.name, name);
    TrimFixed(id);
    assert TrimPrefix(m.id, PROVIDER_PREFIX) == rest;
  }

  // ---- Decimal suffixes ----

  function Digit(d: nat): char
    requires d < 10
  {
    ('0' as int + d) as char
  }

  /** fmt.Sprint of a natural number. */
  function Decimal(n: nat): (s: string)
    ensures s != "" && forall i :: 0 <= i < |s| ==> '0' <= s[i] <= '9'
    ensures n > 0 ==> s[0] != '0'
  {
    if n < 10 then [Digit(n)] else Decimal(n / 10) + [Digit(n % 10)]
  }

  function Value(s: string): int {
    if s == "" then 0 else 10 * Value(s[..|s| - 1]) + (s[|s| - 1] as int - '0' as int)
  }

  lemma {:induction false} DecimalValue(n: nat)
    ensures Value(Decimal(n)) == n
  {
    if n < 10 {
      assert Decimal(n)[..0] == "";
    } else {
      DecimalValue(n / 10);
      var s := Decimal(n);
      assert s[..|s| - 1] == Decimal(n / 10);
    }
  }

  /** The n-th name tried when both the display name and the internal ID are taken. */
  function Suffixed(internalID: string, n: nat): string {
    PublicModelID(internalID + "-" + Decimal(n))
  }

  lemma {:induction false} TrimLeftKeeps(x: string, t: string)
    requires t != "" && !IsSpace(t[0])
    ensures TrimLeft(x + t, IsSpace) == TrimLeft(x, IsSpace) + t
  {
    if x == "" || !IsSpace(x[0]) {
      assert x == "" ==> x + t == t;
    } else {
      assert (x + t)[1..] == x[1..] + t;
      TrimLeftKeeps(x[1..], t);
    }
  }

  lemma SuffixedIs(internalID: string, n: nat)
    ensures Suffixed(internalID, n) == PROVIDER_PREFIX + (TrimLeft(internalID, IsSpace) + ("-" + Decimal(n)))
  {
    var t := "-" + Decimal(n);
    assert internalID + "-" + Decimal(n) == internalID + t;
    assert t[|t| - 1] == Decimal(n)[|Decimal(n)| - 1];
    assert TrimRight(internalID + t, IsSpace) == internalID + t;
    TrimLeftKeeps(internalID, t);
  }

  /** Different suffixes give different names. */
  lemma SuffixedInjective(internalID: string, m: nat, n: nat)
    requires Suffixed(internalID, m) == Suffixed(internalID, n)
    ensures m == n
  {
    SuffixedIs(internalID, m);
    SuffixedIs(internalID, n);
    var a := PROVIDER_PREFIX + (TrimLeft(internalID, IsSpace) + "-");
    assert Suffixed(internalID, m) == a + Decimal(m) && Suffixed(internalID, n) == a + Decimal(n);
    assert Decimal(m) == Suffixed(internalID, m)[|a|..] == Decimal(n);
    DecimalValue(m);
    DecimalValue(n);
  }

  predicate Free(id: string, internalID: string, mapping: map<string, string>) {
    id !in mapping || mapping[id] == internalID
  }

  /** The public name given to a model: its display name if that is free, else its
      internal ID, else the internal ID with the least free suffix from 2 on. */
  ghost predicate Names(id: string, name: string, internalID: string, mapping: map<string, string>) {
    if PublicModelID(name) == "" then id == ""
    else if Free(PublicModelID(name), internalID, mapping) then id == PublicModelID(name)
    else if Free(PublicModelID(internalID), internalID, mapping) then id == PublicModelID(internalID)
    else exists n :: LeastSuffix(n, internalID, mapping) && id == Suffixed(internalID, n)
  }

  ghost predicate LeastSuffix(n: nat, internalID: string, mapping: map<string, string>) {
    && 2 <= n && Suffixed(internalID, n) !in mapping
    && (forall m :: 2 <= m < n ==> Suffixed(internalID, m) in mapping)
    && n - 2 <= |mapping|
  }

  ghost function Tried(internalID: string, n: nat): set<string>
    requires 2 <= n
  {
    if n == 2 then {} else Tried(internalID, n - 1) + {Suffixed(internalID, n - 1)}
  }

  /** Pigeonhole: the names tried so far are all different. */
  lemma {:induction false} TriedCard(internalID: string, n: nat)
    requires 2 <= n
    ensures |Tried(internalID, n)| == n - 2
    ensures forall s :: s in Tried(internalID, n) ==> exists m :: 2 <= m < n && s == Suffixed(internalID, m)
  {
    if n > 2 {
      TriedCard(internalID, n - 1);
      if Suffixed(internalID, n - 1) in Tried(internalID, n - 1) {
        var m :| 2 <= m < n - 1 && Suffixed(internalID, n - 1) == Suffixed(internalID, m);
        SuffixedInjective(internalID, n - 1, m);
      }
    }
  }

  /** uniquePublicModelID. */
  method UniquePublicModelID(name: string, internalID: string, mapping: map<string, string>) returns (id: string)
    ensures Names(id, name, internalID, mapping)
  {
    hide PublicModelID, Suffixed, LeastSuffix;
    var preferred := PublicModelID(name);
    if preferred == "" {
      return "";
    }
    if preferred !in mapping || mapping[preferred] == internalID {
      return preferred;
    }
    var fallback := PublicModelID(internalID);
    if fallback !in mapping || mapping[fallback] == internalID {
      return fallback;
    }
    id := SearchSuffix(internalID, mapping);
  }

  /** The unbounded suffix search ends within |mapping|+1 tries. */
  method SearchSuffix(internalID: string, mapping: map<string, string>) returns (id: string)
    ensures exists n :: LeastSuffix(n, internalID, mapping) && id == Suffixed(internalID, n)
  {
    hide PublicModelID, Tried;
    NothingTried(internalID);
    var suffix := 2;
    while true
      invariant 2 <= suffix && Tried(internalID, suffix) <= mapping.Keys
      invariant forall m :: 2 <= m < suffix ==> Suffixed(internalID, m) in mapping
      invariant suffix - 2 <= |mapping|
      decreases |mapping| + 2 - suffix
    {
      var candidate := PublicModelID(internalID + "-" + Decimal(suffix));
      assert candidate == Suffixed(internalID, suffix);
      if candidate !in mapping {
        assert LeastSuffix(suffix, internalID, mapping);
        return candidate;
      }
      TryOne(internalID, suffix, mapping);
      suffix := suffix + 1;
    }
  }

  lemma NothingTried(internalID: string)
    ensures Tried(internalID, 2) == {}
  {}

  /** One more name taken: still no more than there are entries. */
  lemma TryOne(internalID: string, n: nat, mapping: map<string, string>)
    requires 2 <= n && Tried(internalID, n) <= mapping.Keys && Suffixed(internalID, n) in mapping
    ensures Tried(internalID, n + 1) <= mapping.Keys && n - 1 <= |mapping|
  {
    TriedCard(internalID, n + 1);
    SubsetCard(Tried(internalID, n + 1), mapping.Keys);
    assert |mapping.Keys| == |mapping|;
  }

  // ---- The catalog loop ----

  /** The models that get listed: the first of each non-blank internal ID, in order. */
  function Sources(upstream: seq<Model>): seq<Model> {
    if upstream == [] then []
    else
      var before, m := Sources(upstream[..|upstream| - 1]), upstream[|upstream| - 1];
      if InternalID(m) == "" || Knows(before, InternalID(m)) then before else before + [m]
  }

  predicate Knows(models: seq<Model>, internalID: string) {
    exists i :: 0 <= i < |models| && InternalID(models[i]) == internalID
  }

  function MapOf(infos: seq<Info>): map<string, string> {
    if infos == [] then map[]
    else MapOf(infos[..|infos| - 1])[infos[|infos| - 1].id := infos[|infos| - 1].name]
  }

  function MetaOf(m: Model): Meta {
    Meta(m.isReasoning, m.maxInputTokens)
  }

  /** The `i`-th listing describes the `i`-th source, under a name that was not taken by
      the listings before it. */
  ghost predicate Lists(infos: seq<Info>, sources: seq<Model>, i: nat)
    requires i < |infos| && i < |sources|
  {
    var info, m := infos[i], sources[i];
    var before := MapOf(infos[..i]);
    && info.name == InternalID(m) != ""
    && info.displayName == DisplayName(info.name, m.name)
    && Names(info.id, info.displayName, info.name, before)
    && info.id !in before && info.name !in before.Values
    && WellNamed(info.id)
    && info.inputLimit == (if m.maxInputTokens > 0 then Some(m.maxInputTokens) else None)
    && info.thinking == m.isReasoning
  }

  /** A provider prefix and a trimmed, non-blank name. */
  predicate WellNamed(id: string) {
    PROVIDER_PREFIX < id && Trimmed(id[|PROVIDER_PREFIX|..])
  }

  /** The listings and tables built from `upstream`. */
  ghost predicate Catalogued(upstream: seq<Model>, infos: seq<Info>, mapping: map<string, string>,
                             meta: map<string, Meta>)
  {
    var sources := Sources(upstream);
    && |infos| == |sources|
    && (forall i :: 0 <= i < |infos| ==> Lists(infos, sources, i))
    && mapping == MapOf(infos)
    && meta.Keys == mapping.Keys
    && (forall i :: 0 <= i < |infos| ==> infos[i].id in meta && meta[infos[i].id] == MetaOf(sources[i]))
  }

  lemma PublicIsWellNamed(name: string)
    requires PublicModelID(name) != ""
    ensures WellNamed(PublicModelID(name))
  {
    TrimTrims(name);
    assert PublicModelID(name)[|PROVIDER_PREFIX|..] == Trim(name);
  }

  lemma DisplayIsNamed(internalID: string, upstreamName: string)
    requires internalID != "" && Trimmed(internalID)
    ensures PublicModelID(DisplayName(internalID, upstreamName)) != "" && PublicModelID(internalID) != ""
  {
    TrimFixed(internalID);
    TrimTrims(upstreamName);
    TrimFixed(Trim(upstreamName));
  }

  /** A model whose internal ID is new gets a name that is not taken: no entry is ever
      overwritten. */
  lemma NewNameIsFree(id: string, internalID: string, upstreamName: string, mapping: map<string, string>)
    requires Names(id, DisplayName(internalID, upstreamName), internalID, mapping)
    requires internalID != "" && Trimmed(internalID) && internalID !in mapping.Values
    ensures id !in mapping && WellNamed(id)
  {
    var name := DisplayName(internalID, upstreamName);
    DisplayIsNamed(internalID, upstreamName);
    PublicIsWellNamed(name);
    PublicIsWellNamed(internalID);
    hide PublicModelID, DisplayName, WellNamed;
    assert forall k :: k in mapping ==> mapping[k] in mapping.Values;
    if !Free(PublicModelID(name), internalID, mapping) && !Free(PublicModelID(internalID), internalID, mapping) {
      var n :| LeastSuffix(n, internalID, mapping) && id == Suffixed(internalID, n);
      SuffixedIsPublic(internalID, n);
      PublicIsWellNamed(internalID + "-" + Decimal(n));
    }
  }

  lemma SuffixedIsPublic(internalID: string, n: nat)
    ensures Suffixed(internalID, n) == PublicModelID(internalID + "-" + Decimal(n)) != ""
  {
    SuffixedIs(internalID, n);
  }

  predicate HasListing(infos: seq<Info>, id: string) {
    exists k :: 0 <= k < |infos| && infos[k].id == id
  }

  lemma {:induction false} MapOfKeys(infos: seq<Info>, id: string)
    ensures id in MapOf(infos) <==> HasListing(infos, id)
  {
    if infos != [] {
      var front, last := infos[..|infos| - 1], infos[|infos| - 1];
      MapOfKeys(front, id);
      if HasListing(front, id) {
        var k :| 0 <= k < |front| && front[k].id == id;
        assert infos[k].id == id;
      }
      if HasListing(infos, id) {
        var k :| 0 <= k < |infos| && infos[k].id == id;
        assert k == |front| || front[k].id == id;
      }
    }
  }

  /** A listing whose public ID no later one uses maps to its own internal ID. */
  lemma {:induction false} MapOfAt(infos: seq<Info>, i: nat)
    requires i < |infos| && forall k :: i < k < |infos| ==> infos[k].id != infos[i].id
    ensures infos[i].id in MapOf(infos) && MapOf(infos)[infos[i].id] == infos[i].name
  {
    var n := |infos| - 1;
    if i < n {
      MapOfAt(infos[..n], i);
    }
  }

  lemma {:induction false} MapOfValues(infos: seq<Info>, name: string)
    requires name in MapOf(infos).Values
    ensures exists k :: 0 <= k < |infos| && infos[k].name == name
  {
    var front, last := infos[..|infos| - 1], infos[|infos| - 1];
    if name != last.name {
      var id :| id in MapOf(infos) && MapOf(infos)[id] == name;
      assert id in MapOf(front) && MapOf(front)[id] == name;
      MapOfValues(front, name);
      var k :| 0 <= k < |front| && front[k].name == name;
      assert infos[k].name == name;
    } else {
      assert infos[|infos| - 1].name == name;
    }
  }

  /** Public and internal IDs end in one-to-one correspondence: no two listings share
      either, each public ID maps to its own internal ID, and nothing else is mapped. */
  lemma OneToOne(upstream: seq<Model>, infos: seq<Info>, mapping: map<string, string>, meta: map<string, Meta>)
    requires Catalogued(upstream, infos, mapping, meta)
    ensures forall i, j :: 0 <= i < j < |infos| ==> infos[i].id != infos[j].id && infos[i].name != infos[j].name
    ensures forall i :: 0 <= i < |infos| ==> infos[i].id in mapping && mapping[infos[i].id] == infos[i].name
    ensures forall id :: id in mapping <==> HasListing(infos, id)
  {
    hide MapOf;
    forall i, j | 0 <= i < j < |infos|
      ensures infos[i].id != infos[j].id && infos[i].name != infos[j].name
    {
      EarlierDiffers(infos, Sources(upstream), i, j);
    }
    forall i | 0 <= i < |infos|
      ensures infos[i].id in mapping && mapping[infos[i].id] == infos[i].name
    {
      MapOfAt(infos, i);
    }
    forall id
      ensures id in mapping <==> HasListing(infos, id)
    {
      MapOfKeys(infos, id);
    }
  }

  /** A model is listed under its own upstream name, trimmed, or under its internal ID if
      that name is blank; its public ID is the provider prefix and that name, unless an
      earlier listing has this ID. Then the internal ID serves, and if that is taken too,
      the internal ID with a number. */
  lemma ListedUnderItsName(upstream: seq<Model>, infos: seq<Info>, mapping: map<string, string>,
                           meta: map<string, Meta>, i: nat, name: string)
    requires Catalogued(upstream, infos, mapping, meta) && i < |infos|
    requires Spaced(Sources(upstream)[i].name, name)
    ensures infos[i].displayName == (if name != "" then name else infos[i].name)
    ensures !HasListing(infos[..i], "qoder/" + infos[i].displayName) ==>
      infos[i].id == "qoder/" + infos[i].displayName
    ensures HasListing(infos[..i], "qoder/" + infos[i].displayName) ==>
      if !HasListing(infos[..i], "qoder/" + infos[i].name) then infos[i].id == "qoder/" + infos[i].name
      else exists n :: NumberedName(infos, i, n)
  {
    var m, info := Sources(upstream)[i], infos[i];
    assert Lists(infos, Sources(upstream), i);
    InternalIsTrimmed(m);
    TrimFixed(info.name);
    TrimIffSpaced(m.name, name);
    TrimFixed(name);
    TrimFixed(info.displayName);
    MapOfKeys(infos[..i], "qoder/" + info.displayName);
    MapOfKeys(infos[..i], "qoder/" + info.name);
    hide Sources, MapOf, Catalogued, LeastSuffix;
    var before := MapOf(infos[..i]);
    assert PublicModelID(info.displayName) == "qoder/" + info.displayName;
    assert PublicModelID(info.name) == "qoder/" + info.name;
    NotOwn(before, info.name, "qoder/" + info.displayName);
    NotOwn(before, info.name, "qoder/" + info.name);
    if HasListing(infos[..i], "qoder/" + info.displayName) && HasListing(infos[..i], "qoder/" + info.name) {
      var n :| LeastSuffix(n, info.name, before) && info.id == Suffixed(info.name, n);
      IsNumbered(infos, i, n);
    }
  }

  /** The ID with the number `n`, which is the least from 2 on whose ID no earlier listing has. */
  ghost predicate NumberedName(infos: seq<Info>, i: nat, n: nat)
    requires i < |infos|
  {
    && n >= 2 && infos[i].id == "qoder/" + infos[i].name + "-" + Decimal(n)
    && forall k :: 2 <= k < n ==> HasListing(infos[..i], "qoder/" + infos[i].name + "-" + Decimal(k))
  }

  lemma IsNumbered(infos: seq<Info>, i: nat, n: nat)
    requires i < |infos| && Trimmed(infos[i].name) && infos[i].name != ""
    requires LeastSuffix(n, infos[i].name, MapOf(infos[..i])) && infos[i].id == Suffixed(infos[i].name, n)
    ensures NumberedName(infos, i, n)
  {
    SuffixedTrimmed(infos[i].name, n);
    forall k | 2 <= k < n
      ensures HasListing(infos[..i], "qoder/" + infos[i].name + "-" + Decimal(k))
    {
      SuffixedTrimmed(infos[i].name, k);
      MapOfKeys(infos[..i], Suffixed(infos[i].name, k));
    }
  }

  lemma SuffixedTrimmed(internalID: string, n: nat)
    requires Trimmed(internalID) && internalID != ""
    ensures Suffixed(internalID, n) == "qoder/" + internalID + "-" + Decimal(n)
  {
    hide Suffixed;
    SuffixedIs(internalID, n);
    assert TrimLeft(internalID, IsSpace) == internalID;
  }

  lemma InternalIsTrimmed(m: Model)
    ensures Trimmed(InternalID(m))
  {
    TrimTrims(TrimPrefix(m.id, PROVIDER_PREFIX));
  }

  lemma NotOwn(mapping: map<string, string>, internalID: string, id: string)
    requires internalID !in mapping.Values
    ensures Free(id, internalID, mapping) <==> id !in mapping
  {
    if id in mapping {
      assert mapping[id] in mapping.Values;
    }
  }

  lemma {:induction false} EarlierDiffers(infos: seq<Info>, sources: seq<Model>, i: nat, j: nat)
    requires |infos| == |sources| && i < j < |infos| && forall k :: 0 <= k < |infos| ==> Lists(infos, sources, k)
    ensures infos[i].id != infos[j].id && infos[i].name != infos[j].name
  {
    assert Lists(infos, sources, j);
    var before := infos[..j];
    MapOfKeys(before, infos[i].id);
    assert before[i].id == infos[i].id;
    forall k | i < k < |before|
      ensures before[k].id != before[i].id
    {
      EarlierDiffers(infos, sources, i, k);
    }
    MapOfAt(before, i);
  }

  /** The listings are exactly the first models of each non-blank internal ID. */
  lemma {:induction false} SourcesAreFirsts(upstream: seq<Model>, m: Model)
    requires m in upstream && InternalID(m) != ""
    ensures Knows(Sources(upstream), InternalID(m))
  {
    var front, last := upstream[..|upstream| - 1], upstream[|upstream| - 1];
    assert upstream == front + [last];
    var before := Sources(front);
    if m in front {
      SourcesAreFirsts(front, m);
      var k :| 0 <= k < |before| && InternalID(before[k]) == InternalID(m);
      assert InternalID(Sources(upstream)[k]) == InternalID(m);
    } else if !Knows(before, InternalID(m)) {
      assert Sources(upstream)[|before|] == m;
    }
  }

  /** The first model upstream with its internal ID. */
  predicate IsFirst(upstream: seq<Model>, p: nat)
    requires p < |upstream|
  {
    && InternalID(upstream[p]) != ""
    && forall j :: 0 <= j < p ==> InternalID(upstream[j]) != InternalID(upstream[p])
  }

  /** Each listed model is the first with its internal ID, and they come in the order in
      which they come upstream. */
  lemma {:induction false} SourcesInOrder(upstream: seq<Model>) returns (places: seq<nat>)
    ensures |places| == |Sources(upstream)|
    ensures forall k, l :: 0 <= k < l < |places| ==> places[k] < places[l]
    ensures forall k :: 0 <= k < |places| ==> places[k] < |upstream|
    ensures forall k :: 0 <= k < |places| ==>
      Sources(upstream)[k] == upstream[places[k]] && IsFirst(upstream, places[k])
  {
    places := [];
    if upstream != [] {
      var front := upstream[..|upstream| - 1];
      places := SourcesInOrder(front);
      hide InternalID, Sources, IsFirst, Knows;
      SourcesStep(upstream);
      forall k | 0 <= k < |places|
        ensures IsFirst(upstream, places[k])
      {
        FirstStays(upstream, places[k]);
      }
      if Sources(upstream) != Sources(front) {
        places := places + [|front|];
      }
    }
  }

  lemma SourcesStep(upstream: seq<Model>)
    requires upstream != []
    ensures var front, n := upstream[..|upstream| - 1], |upstream| - 1;
      || Sources(upstream) == Sources(front)
      || (Sources(upstream) == Sources(front) + [upstream[n]] && IsFirst(upstream, n))
  {
    hide InternalID, IsFirst;
    var front, m := upstream[..|upstream| - 1], upstream[|upstream| - 1];
    if InternalID(m) != "" && !Knows(Sources(front), InternalID(m)) {
      FirstIfUnknown(upstream);
    }
  }

  lemma FirstStays(upstream: seq<Model>, p: nat)
    requires p < |upstream| - 1 && IsFirst(upstream[..|upstream| - 1], p)
    ensures IsFirst(upstream, p)
  {
    hide InternalID;
    var front := upstream[..|upstream| - 1];
    assert forall j :: 0 <= j <= p ==> front[j] == upstream[j];
  }

  lemma FirstIfUnknown(upstream: seq<Model>)
    requires upstream != []
    requires InternalID(upstream[|upstream| - 1]) != ""
    requires !Knows(Sources(upstream[..|upstream| - 1]), InternalID(upstream[|upstream| - 1]))
    ensures IsFirst(upstream, |upstream| - 1)
  {
    var front, m := upstream[..|upstream| - 1], upstream[|upstream| - 1];
    hide InternalID;
    forall j | 0 <= j < |front|
      ensures InternalID(upstream[j]) != InternalID(m)
    {
      if InternalID(upstream[j]) == InternalID(m) {
        assert front[j] == upstream[j];
        SourcesAreFirsts(front, front[j]);
      }
    }
  }

  /** The catalog loop of models. */
  method BuildCatalog(upstream: seq<Model>)
    returns (infos: seq<Info>, mapping: map<string, string>, meta: map<string, Meta>)
    ensures Catalogued(upstream, infos, mapping, meta)
  {
    hide DisplayName, PublicModelID, Names, Knows, Trimmed, Trim, TrimPrefix;
    BuiltNone();
    infos, mapping, meta := [], map[], map[];
    var seenInternal: set<string> := {};
    for n := 0 to |upstream|
      invariant Catalogued(upstream[..n], infos, mapping, meta)
      invariant forall x :: x in seenInternal <==> Knows(Sources(upstream[..n]), x)
    {
      var model := upstream[n];
      ghost var sources := Sources(upstream[..n]);
      assert upstream[..n + 1][..n] == upstream[..n] && upstream[..n + 1][n] == model;
      var internalID := Trim(TrimPrefix(model.id, PROVIDER_PREFIX));
      if internalID == "" {
        continue;
      }
      if internalID in seenInternal {
        continue;
      }
      seenInternal := seenInternal + {internalID};
      KnowsSnoc(sources, model);
      if internalID in mapping.Values {
        MappedIsKnown(upstream[..n], infos, mapping, meta, internalID);
      }
      TrimTrims(TrimPrefix(model.id, PROVIDER_PREFIX));
      var name := DisplayName(internalID, model.name);
      var publicID := UniquePublicModelID(name, internalID, mapping);
      NewNameIsFree(publicID, internalID, model.name, mapping);
      if publicID == "" {
        continue;
      }
      var info := Info(publicID, internalID, name,
                       if model.maxInputTokens > 0 then Some(model.maxInputTokens) else None, model.isReasoning);
      CataloguedSnoc(upstream[..n], upstream[..n + 1], model, infos, mapping, meta, info);
      mapping := mapping[publicID := internalID];
      meta := meta[publicID := Meta(model.isReasoning, model.maxInputTokens)];
      infos := infos + [info];
    }
    assert upstream[..|upstream|] == upstream;
  }

  lemma BuiltNone()
    ensures Catalogued([], [], map[], map[]) && forall x :: !Knows(Sources([]), x)
  {}

  lemma KnowsSnoc(models: seq<Model>, m: Model)
    ensures forall x :: Knows(models + [m], x) <==> Knows(models, x) || x == InternalID(m)
  {
    var all := models + [m];
    assert all[|models|] == m;
    forall x
      ensures Knows(all, x) <==> Knows(models, x) || x == InternalID(m)
    {
      if Knows(models, x) {
        var i :| 0 <= i < |models| && InternalID(models[i]) == x;
        assert InternalID(all[i]) == x;
      }
      if Knows(all, x) {
        var i :| 0 <= i < |all| && InternalID(all[i]) == x;
        assert i == |models| || InternalID(models[i]) == x;
      }
    }
  }

  lemma MappedIsKnown(upstream: seq<Model>, infos: seq<Info>, mapping: map<string, string>, meta: map<string, Meta>,
                      internalID: string)
    requires Catalogued(upstream, infos, mapping, meta) && internalID in mapping.Values
    ensures Knows(Sources(upstream), internalID)
  {
    MapOfValues(infos, internalID);
    var k :| 0 <= k < |infos| && infos[k].name == internalID;
    assert Lists(infos, Sources(upstream), k);
  }

  lemma CataloguedSnoc(before: seq<Model>, upstream: seq<Model>, m: Model, infos: seq<Info>,
                       mapping: map<string, string>, meta: map<string, Meta>, info: Info)
    requires Catalogued(before, infos, mapping, meta)
    requires upstream != [] && upstream[..|upstream| - 1] == before && upstream[|upstream| - 1] == m
    requires Sources(upstream) == Sources(before) + [m]
    requires Lists(infos + [info], Sources(upstream), |infos|)
    ensures Catalogued(upstream, infos + [info], mapping[info.id := info.name], meta[info.id := MetaOf(m)])
  {
    var all, sources := infos + [info], Sources(upstream);
    assert all[..|infos|] == infos;
    hide Names, Sources;
    forall i | 0 <= i < |all|
      ensures Lists(all, sources, i)
    {
      if i < |infos| {
        assert Lists(infos, Sources(before), i);
        assert all[..i] == infos[..i];
      }
    }
    hide Lists;
    OneToOneIds(before, infos, mapping, meta, info.id);
  }

  lemma OneToOneIds(upstream: seq<Model>, infos: seq<Info>, mapping: map<string, string>, meta: map<string, Meta>,
                    id: string)
    requires Catalogued(upstream, infos, mapping, meta) && id !in mapping
    ensures forall i :: 0 <= i < |infos| ==> infos[i].id != id
  {
    OneToOne(upstream, infos, mapping, meta);
  }
}
