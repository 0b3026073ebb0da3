/** One catalog snapshot for each account (model_registry.go). */
module Registry {
  import opened Prelude
  import opened Text
  import opened Catalog

  datatype Record = Record(internalID: string, meta: Option<Meta>)

  const NO_RECORD := Record("", None)

  function Get(m: map<string, Record>, id: string): Record {
    if id in m then m[id] else NO_RECORD
  }

  /** The prefix test of resolveRecord, on ASCII letters of either case. */
  predicate HasProviderPrefix(id: string) {
    PROVIDER_PREFIX <= ToLower(id)
  }

  /** resolveRecord within one snapshot, for a trimmed, non-blank ID. */
  function Resolved(m: map<string, Record>, publicID: string): Record {
    if Get(m, publicID).internalID != "" then Get(m, publicID)
    else if HasProviderPrefix(publicID) then Get(m, publicID[|PROVIDER_PREFIX|..])
    else Get(m, PROVIDER_PREFIX + publicID)
  }

  function RecordOf(mapping: map<string, string>, meta: map<string, Meta>, raw: string): Record
    requires raw in mapping
  {
    var id := Trim(raw);
    Record(Trim(mapping[raw]), if id in meta then Some(meta[id]) else None)
  }

  /** A snapshot of a mapping: every entry with a non-blank ID and value is in it, in
      trimmed form; if several collapse to one ID, one of them is. */
  ghost predicate SnapshotOf(m: map<string, Record>, mapping: map<string, string>, meta: map<string, Meta>) {
    && (forall raw :: raw in mapping && !Blank(raw) && !Blank(mapping[raw]) ==> Trim(raw) in m)
    && (forall id :: id in m ==> FromEntry(m, mapping, meta, id))
  }

  ghost predicate FromEntry(m: map<string, Record>, mapping: map<string, string>, meta: map<string, Meta>, id: string)
    requires id in m
  {
    exists raw :: raw in mapping && !Blank(raw) && !Blank(mapping[raw])
      && Trim(raw) == id && m[id] == RecordOf(mapping, meta, raw)
  }

  class ModelRegistry {
    var byAuth: map<string, map<string, Record>>

    constructor ()
      ensures byAuth == map[]
    {
      byAuth := map[];
    }

    /** Replaces the snapshot of one account and of no other. */
    method StoreCatalog(authID: string, mapping: map<string, string>, meta: map<string, Meta>)
      modifies this
      ensures Blank(authID) ==> byAuth == old(byAuth)
      ensures !Blank(authID) ==>
        && Trim(authID) in byAuth
        && byAuth == old(byAuth)[Trim(authID) := byAuth[Trim(authID)]]
        && SnapshotOf(byAuth[Trim(authID)], mapping, meta)
    {
      var id := Trim(authID);
      if id == "" {
        return;
      }
      var snapshot := BuildSnapshot(mapping, meta);
      byAuth := byAuth[id := snapshot];
    }

    /** The record a public ID resolves to; a blank internal ID means none. */
    method ResolveRecord(authID: string, publicID: string) returns (record: Record, ok: bool)
      ensures ok <==> record.internalID != ""
      ensures record ==
        if Blank(authID) || Blank(publicID) then NO_RECORD
        else Resolved(if Trim(authID) in byAuth then byAuth[Trim(authID)] else map[], Trim(publicID))
    {
      var auth, id := Trim(authID), Trim(publicID);
      if auth == "" || id == "" {
        return NO_RECORD, false;
      }
      var mapping := if auth in byAuth then byAuth[auth] else map[];
      record := Get(mapping, id);
      if record.internalID == "" {
        if HasProviderPrefix(id) {
          record := Get(mapping, id[|PROVIDER_PREFIX|..]);
        } else {
          record := Get(mapping, PROVIDER_PREFIX + id);
        }
      }
      ok := record.internalID != "";
    }
  }

  /** Goes through the mapping in any order, as a range over a map does. */
  method BuildSnapshot(mapping: map<string, string>, meta: map<string, Meta>) returns (snapshot: map<string, Record>)
    ensures SnapshotOf(snapshot, mapping, meta)
  {
    snapshot := map[];
    var left := mapping.Keys;
    while left != {}
      invariant left <= mapping.Keys
      invariant forall raw :: raw in mapping && raw !in left && !Blank(raw) && !Blank(mapping[raw]) ==>
        Trim(raw) in snapshot
      invariant forall id :: id in snapshot ==> FromEntry(snapshot, mapping, meta, id)
      decreases left
    {
      var raw :| raw in left;
      left := left - {raw};
      var publicID, internalID := Trim(raw), Trim(mapping[raw]);
      if publicID == "" || internalID == "" {
        continue;
      }
      var record := Record(internalID, if publicID in meta then Some(meta[publicID]) else None);
      ghost var before := snapshot;
      snapshot := snapshot[publicID := record];
      forall id | id in snapshot
        ensures FromEntry(snapshot, mapping, meta, id)
      {
        if id != publicID {
          assert FromEntry(before, mapping, meta, id);
        }
      }
    }
  }

  // ---- Round trip through the registry ----

  lemma WellNamedIsTrimmed(id: string)
    requires WellNamed(id)
    ensures Trim(id) == id
  {
    assert id[0] == 'q';
    assert id[|id| - 1] == id[|PROVIDER_PREFIX|..][|id| - |PROVIDER_PREFIX| - 1];
    TrimFixed(id);
  }

  lemma InternalIsTrimmed(m: Model)
    ensures Trim(InternalID(m)) == InternalID(m)
  {
    TrimTrims(TrimPrefix(m.id, PROVIDER_PREFIX));
    TrimFixed(InternalID(m));
  }

  /** A stored catalog has exactly its own entries: nothing collapses or is dropped. */
  lemma SnapshotIsExact(upstream: seq<Model>, infos: seq<Info>, mapping: map<string, string>, meta: map<string, Meta>,
                        m: map<string, Record>, i: nat)
    requires Catalogued(upstream, infos, mapping, meta) && SnapshotOf(m, mapping, meta) && i < |infos|
    ensures infos[i].id in m && m[infos[i].id] == Record(infos[i].name, Some(MetaOf(Sources(upstream)[i])))
    ensures infos[i].name != ""
  {
    OneToOne(upstream, infos, mapping, meta);
    var id := infos[i].id;
    assert Lists(infos, Sources(upstream), i);
    WellNamedIsTrimmed(id);
    InternalIsTrimmed(Sources(upstream)[i]);
    assert FromEntry(m, mapping, meta, id);
    var raw :| raw in mapping && !Blank(raw) && !Blank(mapping[raw])
      && Trim(raw) == id && m[id] == RecordOf(mapping, meta, raw);
    var k :| 0 <= k < |infos| && infos[k].id == raw;
    assert Lists(infos, Sources(upstream), k);
    WellNamedIsTrimmed(raw);
  }

  /** Every listed public ID resolves to its own internal ID and metadata. */
  lemma ListedResolves(upstream: seq<Model>, infos: seq<Info>, mapping: map<string, string>, meta: map<string, Meta>,
                       m: map<string, Record>, i: nat)
    requires Catalogued(upstream, infos, mapping, meta) && SnapshotOf(m, mapping, meta) && i < |infos|
    ensures Trim(infos[i].id) == infos[i].id
    ensures Resolved(m, infos[i].id) == Record(infos[i].name, Some(MetaOf(Sources(upstream)[i])))
  {
    SnapshotIsExact(upstream, infos, mapping, meta, m, i);
    assert Lists(infos, Sources(upstream), i);
    WellNamedIsTrimmed(infos[i].id);
  }

  lemma SnapshotEntry(upstream: seq<Model>, infos: seq<Info>, mapping: map<string, string>, meta: map<string, Meta>,
                      m: map<string, Record>, id: string) returns (k: nat)
    requires Catalogued(upstream, infos, mapping, meta) && SnapshotOf(m, mapping, meta) && id in m
    ensures k < |infos| && infos[k].id == id && m[id].internalID == infos[k].name
  {
    OneToOne(upstream, infos, mapping, meta);
    assert FromEntry(m, mapping, meta, id);
    var raw :| raw in mapping && !Blank(raw) && !Blank(mapping[raw])
      && Trim(raw) == id && m[id] == RecordOf(mapping, meta, raw);
    k :| 0 <= k < |infos| && infos[k].id == raw;
    assert Lists(infos, Sources(upstream), k);
    WellNamedIsTrimmed(raw);
    InternalIsTrimmed(Sources(upstream)[k]);
  }

  lemma PrefixIsFolded(id: string)
    requires PROVIDER_PREFIX <= id
    ensures HasProviderPrefix(id)
  {
    assert ToLower(id)[..|PROVIDER_PREFIX|] == PROVIDER_PREFIX;
  }

  /** An identifier looks prefixed exactly when its first characters read "qoder/", in
      capitals or not. */
  lemma LooksPrefixedIff(id: string)
    ensures HasProviderPrefix(id) <==>
      |id| >= 6 && forall q :: 0 <= q < 6 ==> SameLetter(id[q], "qoder/"[q])
  {
    forall q | 0 <= q < 6 && q < |id|
      ensures ToLower(id)[q] == "qoder/"[q] <==> SameLetter(id[q], "qoder/"[q])
    {
      LowerIffSame(id[q], "qoder/"[q]);
    }
    hide SameLetter, LowerChar;
    if |id| >= 6 {
      var t := ToLower(id)[..6];
      assert t == "qoder/" <==> forall q :: 0 <= q < 6 ==> t[q] == "qoder/"[q];
    }
  }

  lemma ShorterIsOther(upstream: seq<Model>, infos: seq<Info>, mapping: map<string, string>, meta: map<string, Meta>,
                       m: map<string, Record>, i: nat, id: string)
    requires Catalogued(upstream, infos, mapping, meta) && SnapshotOf(m, mapping, meta)
    requires i < |infos| && |id| < |infos[i].id|
    ensures Get(m, id).internalID != infos[i].name
  {
    assert Lists(infos, Sources(upstream), i);
    if id in m {
      var k := SnapshotEntry(upstream, infos, mapping, meta, m, id);
      OneToOne(upstream, infos, mapping, meta);
    }
  }

  /** A listed model also resolves by its name without the provider prefix, unless that
      name itself looks prefixed. */
  lemma BareNameResolves(upstream: seq<Model>, infos: seq<Info>, mapping: map<string, string>, meta: map<string, Meta>,
                         m: map<string, Record>, i: nat)
    requires Catalogued(upstream, infos, mapping, meta) && SnapshotOf(m, mapping, meta) && i < |infos|
    ensures |PROVIDER_PREFIX| <= |infos[i].id|
    ensures var bare := infos[i].id[|PROVIDER_PREFIX|..];
      Resolved(m, bare).internalID == infos[i].name <==> !HasProviderPrefix(bare)
  {
    assert Lists(infos, Sources(upstream), i);
    var bare := infos[i].id[|PROVIDER_PREFIX|..];
    assert PROVIDER_PREFIX + bare == infos[i].id;
    SnapshotIsExact(upstream, infos, mapping, meta, m, i);
    ShorterIsOther(upstream, infos, mapping, meta, m, i, bare);
    if HasProviderPrefix(bare) {
      ShorterIsOther(upstream, infos, mapping, meta, m, i, bare[|PROVIDER_PREFIX|..]);
    } else if bare in m {
      var k := SnapshotEntry(upstream, infos, mapping, meta, m, bare);
      assert Lists(infos, Sources(upstream), k);
      PrefixIsFolded(bare);
    }
  }

  lemma OnlyPrefixedAreListed(upstream: seq<Model>, infos: seq<Info>, mapping: map<string, string>,
                              meta: map<string, Meta>, m: map<string, Record>, id: string)
    requires Catalogued(upstream, infos, mapping, meta) && SnapshotOf(m, mapping, meta) && id in m
    ensures "qoder/" <= id
  {
    var k := SnapshotEntry(upstream, infos, mapping, meta, m, id);
    assert Lists(infos, Sources(upstream), k);
  }

  /** A listed public ID also resolves with a second prefix before it that is not in lower
      case, as such an identifier is never listed itself. */
  lemma OtherCaseResolves(upstream: seq<Model>, infos: seq<Info>, mapping: map<string, string>,
                          meta: map<string, Meta>, m: map<string, Record>, i: nat, prefix: string)
    requires Catalogued(upstream, infos, mapping, meta) && SnapshotOf(m, mapping, meta) && i < |infos|
    requires |prefix| == 6 && prefix != "qoder/" && forall q :: 0 <= q < 6 ==> SameLetter(prefix[q], "qoder/"[q])
    ensures Resolved(m, prefix + infos[i].id) == Record(infos[i].name, Some(MetaOf(Sources(upstream)[i])))
  {
    var id := prefix + infos[i].id;
    SnapshotIsExact(upstream, infos, mapping, meta, m, i);
    LooksPrefixedIff(id);
    if id in m {
      OnlyPrefixedAreListed(upstream, infos, mapping, meta, m, id);
    }
    hide SameLetter, HasProviderPrefix, Catalogued, SnapshotOf;
    assert id[..6] == prefix && id[6..] == infos[i].id;
    assert !("qoder/" <= id);
  }

  /** The account a catalog is stored under: the one asked for or, if that is blank, the
      one derived from the digest of the user's identifier. */
  function AccountOf(authID: string, userDigest: string): string {
    if Trim(authID) == "" then "qoder-" + userDigest else Trim(authID)
  }

  lemma AccountIsNamed(authID: string, userDigest: string)
    ensures !Blank(AccountOf(authID, userDigest))
  {
    if Trim(authID) == "" {
      var s := AccountOf(authID, userDigest);
      assert !IsSpace(s[0]);
      if Blank(s) {
        BlankIsSpaces(s);
        assert false;
      }
    } else {
      TrimTrims(authID);
      TrimFixed(Trim(authID));
    }
  }

  /** What `models` does once the upstream list is fetched: afterwards every listing
      resolves, for that account, to its own internal ID and metadata. */
  method PublishModels(registry: ModelRegistry, authID: string, userDigest: string, upstream: seq<Model>)
    returns (infos: seq<Info>)
    modifies registry
    ensures |infos| == |Sources(upstream)|
    ensures forall i, j :: 0 <= i < j < |infos| ==> infos[i].id != infos[j].id
    ensures Trim(AccountOf(authID, userDigest)) in registry.byAuth
    ensures var records := registry.byAuth[Trim(AccountOf(authID, userDigest))];
      forall i :: 0 <= i < |infos| ==>
        && infos[i].name == InternalID(Sources(upstream)[i])
        && Resolved(records, infos[i].id) == Record(infos[i].name, Some(MetaOf(Sources(upstream)[i])))
  {
    var account := AccountOf(authID, userDigest);
    AccountIsNamed(authID, userDigest);
    var mapping, meta;
    infos, mapping, meta := BuildCatalog(upstream);
    registry.StoreCatalog(account, mapping, meta);
    OneToOne(upstream, infos, mapping, meta);
    hide Resolved, SnapshotOf, AccountOf;
    ghost var records := registry.byAuth[Trim(account)];
    forall i | 0 <= i < |infos|
      ensures infos[i].name == InternalID(Sources(upstream)[i])
      ensures Resolved(records, infos[i].id) == Record(infos[i].name, Some(MetaOf(Sources(upstream)[i])))
    {
      assert Lists(infos, Sources(upstream), i);
      ListedResolves(upstream, infos, mapping, meta, records, i);
    }
  }
}
