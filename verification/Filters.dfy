/** Filters taken from a URL query, and what filtering does to the contents of an aggregate. */
module Filters {
  import opened Doop
  import opened Regroup
  import opened Contents

  /** Allowed values of one field; the empty list allows everything. */
  type Filter = seq<string>

  predicate Match(f: Filter, givenValue: string) {
    f == [] || givenValue in f
  }

  predicate MatchAll(fs: map<string, Filter>, identity: Identity) {
    forall key :: key in fs ==> Match(fs[key], At(identity, key))
  }

  datatype FilterSet = FilterSet(
    clusterIdentity: map<string, Filter>, templateKind: Filter, constraintName: Filter,
    severity: Filter, objectIdentity: map<string, Filter>)
  {
    predicate MatchClusterIdentity(identity: Identity) { MatchAll(clusterIdentity, identity) }
    predicate MatchObjectIdentity(identity: Identity) { MatchAll(objectIdentity, identity) }
    predicate MatchTemplateKind(kind: string) { Match(templateKind, kind) }
    predicate MatchConstraintName(name: string) { Match(constraintName, name) }
    predicate MatchSeverity(value: string) { Match(severity, value) }

    /** All filters below the level of the cluster, at once. */
    predicate Keeps(at: Address) {
      && MatchTemplateKind(at.kind)
      && MatchConstraintName(at.name)
      && MatchSeverity(at.metadata.severity)
      && MatchObjectIdentity(at.pattern.objectIdentity)
    }
  }

  // ----- from the query -----

  type Query = map<string, seq<string>>

  function Values(query: Query, key: string): seq<string> {
    if key in query then query[key] else []
  }

  /** The query is a Go map, so its keys come in any order. */
  method BuildMapFilter(query: Query, prefix: string) returns (result: map<string, Filter>)
    ensures forall key :: key in result <==> prefix + key in query
    ensures forall key :: key in result ==> result[key] == query[prefix + key]
  {
    result := map[];
    var todo := query.Keys;
    while todo != {}
      invariant todo <= query.Keys
      invariant forall key :: key in result <==> prefix + key in query.Keys - todo
      invariant forall key :: key in result ==> result[key] == query[prefix + key]
      decreases |todo|
    {
      var queryKey :| queryKey in todo;
      todo := todo - {queryKey};
      if prefix <= queryKey {
        var key := queryKey[|prefix|..];
        assert prefix + key == queryKey;
        assert forall k :: prefix + k == queryKey ==> k == key by {
          forall k | prefix + k == queryKey ensures k == key {
            assert (prefix + k)[|prefix|..] == k;
          }
        }
        result := result[key := query[queryKey]];
      }
    }
  }

  /** The filter of an empty query. */
  const EVERYTHING := FilterSet(map[], [], [], [], map[])

  /** Each matcher reads its own query key or prefix. */
  ghost predicate IsFilterOf(query: Query, fs: FilterSet) {
    && fs.templateKind == Values(query, "template_kind")
    && fs.constraintName == Values(query, "constraint_name")
    && fs.severity == Values(query, "severity")
    && (forall identity :: fs.MatchClusterIdentity(identity) <==>
      forall key :: "cluster_identity." + key in query ==> Match(query["cluster_identity." + key], At(identity, key)))
    && (forall identity :: fs.MatchObjectIdentity(identity) <==>
      forall key :: "object_identity." + key in query ==> Match(query["object_identity." + key], At(identity, key)))
  }

  method BuildFilterSet(query: Query) returns (fs: FilterSet)
    ensures query == map[] ==> fs == EVERYTHING
    ensures IsFilterOf(query, fs)
  {
    var byCluster := BuildMapFilter(query, "cluster_identity.");
    var byObject := BuildMapFilter(query, "object_identity.");
    fs := FilterSet(byCluster, Values(query, "template_kind"), Values(query, "constraint_name"),
      Values(query, "severity"), byObject);
  }

  // ----- filtering a flat list -----

  function FilterPlaced(ps: seq<Placed>, keep: Address -> bool): seq<Placed> {
    if ps == [] then []
    else (if keep(ps[0].at) then [ps[0]] else []) + FilterPlaced(ps[1..], keep)
  }

  lemma {:induction false} FilterAppend(a: seq<Placed>, b: seq<Placed>, keep: Address -> bool)
    ensures FilterPlaced(a + b, keep) == FilterPlaced(a, keep) + FilterPlaced(b, keep)
  {
    if a == [] {
      assert a + b == b;
    } else {
      FilterAppend(a[1..], b, keep);
      assert (a + b)[0] == a[0] && (a + b)[1..] == a[1..] + b;
      FlattenStep(if keep(a[0].at) then [a[0]] else [], FilterPlaced(a[1..], keep), FilterPlaced(b, keep));
    }
  }

  lemma {:induction false} FilterNone(ps: seq<Placed>, keep: Address -> bool)
    requires forall p :: p in ps ==> !keep(p.at)
    ensures FilterPlaced(ps, keep) == []
  {
    if ps != [] {
      assert ps[0] in ps;
      FilterNone(ps[1..], keep);
    }
  }

  lemma {:induction false} FilterEvery(ps: seq<Placed>, keep: Address -> bool)
    requires forall p :: p in ps ==> keep(p.at)
    ensures FilterPlaced(ps, keep) == ps
  {
    if ps != [] {
      FilterEvery(ps[1..], keep);
    }
  }

  lemma {:induction false} FilteredMembers(ps: seq<Placed>, keep: Address -> bool)
    ensures forall p :: p in FilterPlaced(ps, keep) <==> p in ps && keep(p.at)
  {
    if ps != [] {
      FilteredMembers(ps[1..], keep);
      assert ps == [ps[0]] + ps[1..];
    }
  }

  lemma FilteredCleared(ps: seq<Placed>, keep: Address -> bool)
    requires AllCleared(ps)
    ensures AllCleared(FilterPlaced(ps, keep))
  {
    FilteredMembers(ps, keep);
    var r := FilterPlaced(ps, keep);
    forall i | 0 <= i < |r|
      ensures r[i].at.metadata.Cleared() == r[i].at.metadata
    {
      assert r[i] in r;
    }
  }

  ghost predicate Restricts(c: Content, keep: Address -> bool, kept: Content) {
    && (forall a :: a in kept.addresses <==> a in c.addresses && keep(a))
    && (forall e :: kept.entries[e] == if keep(e.at) then c.entries[e] else 0)
  }

  lemma EntriesAtAddress(at: Address, vs: seq<Violation>)
    ensures forall e :: e in EntriesAt(at, vs) ==> e.at == at
  {
  }

  /** Filtering a list keeps exactly the groups and instances whose address passes. */
  lemma {:induction false} FilterRestricts(ps: seq<Placed>, keep: Address -> bool)
    ensures Restricts(ContentOf(ps), keep, ContentOf(FilterPlaced(ps, keep)))
  {
    if ps != [] {
      FilterRestricts(ps[1..], keep);
      EntriesAtAddress(ps[0].at, ps[0].instances);
      if keep(ps[0].at) {
        assert FilterPlaced(ps, keep)[1..] == FilterPlaced(ps[1..], keep);
      } else {
        assert FilterPlaced(ps, keep) == FilterPlaced(ps[1..], keep);
      }
    }
  }

  // ----- filtering a tree -----

  function KeepGroups(kind: string, name: string, metadata: Metadata, gs: seq<Group>, f: FilterSet): seq<Group> {
    if gs == [] then []
    else
      (if f.Keeps(Address(kind, name, metadata.Cleared(), gs[0].pattern)) then [gs[0]] else [])
      + KeepGroups(kind, name, metadata, gs[1..], f)
  }

  /** Drops the groups that do not match, then the constraints left without groups. */
  function KeepConstraints(kind: string, cs: seq<Constraint>, f: FilterSet): seq<Constraint> {
    if cs == [] then []
    else
      var gs := KeepGroups(kind, cs[0].name, cs[0].metadata, cs[0].groups, f);
      (if gs == [] then [] else [cs[0].(groups := gs)]) + KeepConstraints(kind, cs[1..], f)
  }

  function KeepTemplates(ts: seq<Template>, f: FilterSet): seq<Template> {
    if ts == [] then []
    else
      var cs := KeepConstraints(ts[0].kind, ts[0].constraints, f);
      (if cs == [] then [] else [ts[0].(constraints := cs)]) + KeepTemplates(ts[1..], f)
  }

  lemma {:induction false} FlatKeepGroups(kind: string, name: string, metadata: Metadata, gs: seq<Group>, f: FilterSet)
    ensures FlatGroups(kind, name, metadata, KeepGroups(kind, name, metadata, gs, f))
         == FilterPlaced(FlatGroups(kind, name, metadata, gs), f.Keeps)
  {
    if gs != [] {
      FlatKeepGroups(kind, name, metadata, gs[1..], f);
      var flat := FlatGroups(kind, name, metadata, gs);
      assert flat[1..] == FlatGroups(kind, name, metadata, gs[1..]);
    }
  }

  lemma {:induction false} FlatKeepConstraints(kind: string, cs: seq<Constraint>, f: FilterSet)
    ensures FlatConstraints(kind, KeepConstraints(kind, cs, f)) == FilterPlaced(FlatConstraints(kind, cs), f.Keeps)
  {
    if cs != [] {
      var c := cs[0];
      var gs := KeepGroups(kind, c.name, c.metadata, c.groups, f);
      FlatKeepGroups(kind, c.name, c.metadata, c.groups, f);
      FlatKeepConstraints(kind, cs[1..], f);
      FilterAppend(FlatConstraint(kind, c), FlatConstraints(kind, cs[1..]), f.Keeps);
      var head := if gs == [] then [] else [c.(groups := gs)];
      FlatConstraintsAppend(kind, head, KeepConstraints(kind, cs[1..], f));
      if gs != [] {
        FlatConstraintsOne(kind, c.(groups := gs));
      }
    }
  }

  lemma {:induction false} FlatKeepTemplates(ts: seq<Template>, f: FilterSet)
    ensures FlatTemplates(KeepTemplates(ts, f)) == FilterPlaced(FlatTemplates(ts), f.Keeps)
  {
    if ts != [] {
      var t := ts[0];
      var cs := KeepConstraints(t.kind, t.constraints, f);
      FlatKeepConstraints(t.kind, t.constraints, f);
      FlatKeepTemplates(ts[1..], f);
      FilterAppend(FlatTemplate(t), FlatTemplates(ts[1..]), f.Keeps);
      var head := if cs == [] then [] else [t.(constraints := cs)];
      FlatTemplatesAppend(head, KeepTemplates(ts[1..], f));
      if cs != [] {
        FlatTemplatesOne(t.(constraints := cs));
      }
    }
  }

  lemma {:induction false} KeepGroupsWellFormed(kind: string, name: string, metadata: Metadata, gs: seq<Group>, f: FilterSet)
    requires WellFormedGroups(gs)
    ensures WellFormedGroups(KeepGroups(kind, name, metadata, gs, f))
    ensures forall h :: h in KeepGroups(kind, name, metadata, gs, f) ==> h in gs
  {
    if gs != [] {
      KeepGroupsWellFormed(kind, name, metadata, gs[1..], f);
      var rest := KeepGroups(kind, name, metadata, gs[1..], f);
      assert forall i :: 0 <= i < |rest| ==> rest[i] in gs[1..];
    }
  }

  /** A kept constraint is one that was there, apart from its groups. */
  ghost predicate KeptFrom(d: Constraint, cs: seq<Constraint>) {
    exists i :: 0 <= i < |cs| && cs[i].name == d.name && cs[i].metadata == d.metadata
  }

  lemma KeepConstraintWellFormed(kind: string, c: Constraint, f: FilterSet)
    requires WellFormedConstraint(c)
    ensures
      var gs := KeepGroups(kind, c.name, c.metadata, c.groups, f);
      gs != [] ==> WellFormedConstraint(c.(groups := gs))
  {
    KeepGroupsWellFormed(kind, c.name, c.metadata, c.groups, f);
  }

  lemma {:induction false} KeepConstraintsWellFormed(kind: string, cs: seq<Constraint>, f: FilterSet)
    requires WellFormedConstraints(cs)
    ensures WellFormedConstraints(KeepConstraints(kind, cs, f))
    ensures forall i :: 0 <= i < |KeepConstraints(kind, cs, f)| ==> KeptFrom(KeepConstraints(kind, cs, f)[i], cs)
  {
    if cs != [] {
      KeepConstraintsWellFormed(kind, cs[1..], f);
      KeepConstraintWellFormed(kind, cs[0], f);
      hide WellFormedConstraint, KeepGroups;
      var gs, rest := KeepGroups(kind, cs[0].name, cs[0].metadata, cs[0].groups, f), KeepConstraints(kind, cs[1..], f);
      forall i | 0 <= i < |rest|
        ensures KeptFrom(rest[i], cs) && !(cs[0].name == rest[i].name && cs[0].metadata == rest[i].metadata)
      {
        var j :| 0 <= j < |cs[1..]| && cs[1..][j].name == rest[i].name && cs[1..][j].metadata == rest[i].metadata;
        assert cs[j + 1] == cs[1..][j];
      }
      assert gs != [] ==> KeptFrom(cs[0].(groups := gs), cs);
      assert KeepConstraints(kind, cs, f) == (if gs == [] then [] else [cs[0].(groups := gs)]) + rest;
    }
  }

  /** Dropping keeps a tree well formed; in particular no parent is left empty. */
  lemma {:induction false} KeepTemplatesWellFormed(ts: seq<Template>, f: FilterSet)
    requires WellFormed(ts)
    ensures WellFormed(KeepTemplates(ts, f))
    ensures forall i :: 0 <= i < |KeepTemplates(ts, f)| ==> exists j :: 0 <= j < |ts| && ts[j].kind == KeepTemplates(ts, f)[i].kind
  {
    hide WellFormedConstraints, KeepConstraints;
    if ts != [] {
      KeepTemplatesWellFormed(ts[1..], f);
      KeepConstraintsWellFormed(ts[0].kind, ts[0].constraints, f);
      var cs, rest := KeepConstraints(ts[0].kind, ts[0].constraints, f), KeepTemplates(ts[1..], f);
      forall i | 0 <= i < |rest|
        ensures rest[i].kind != ts[0].kind && exists j :: 0 <= j < |ts| && ts[j].kind == rest[i].kind
      {
        var j :| 0 <= j < |ts[1..]| && ts[1..][j].kind == rest[i].kind;
        assert ts[j + 1] == ts[1..][j];
      }
      assert KeepTemplates(ts, f) == (if cs == [] then [] else [ts[0].(constraints := cs)]) + rest;
    }
  }

  lemma KeepTemplatesRestricts(ts: seq<Template>, f: FilterSet)
    ensures Restricts(ContentOfTree(ts), f.Keeps, ContentOfTree(KeepTemplates(ts, f)))
  {
    hide ContentOf, FilterPlaced, KeepTemplates, FlatTemplates;
    FlatKeepTemplates(ts, f);
    FilterRestricts(FlatTemplates(ts), f.Keeps);
  }

  lemma MergedContent(ps: seq<Placed>)
    requires AllCleared(ps)
    ensures ContentOfTree(PutAll([], ps)) == ContentOf(ps) && WellFormed(PutAll([], ps))
  {
    PutAllContent([], ps);
    NothingPlus(ContentOf(ps));
    PutAllWellFormed([], ps);
  }

  /** Filtering while aggregating gives the same contents as aggregating everything,
      then dropping what does not match together with the parents this empties. */
  lemma FilteringCommutes(ps: seq<Placed>, f: FilterSet)
    requires AllCleared(ps)
    ensures ContentOfTree(PutAll([], FilterPlaced(ps, f.Keeps))) == ContentOfTree(KeepTemplates(PutAll([], ps), f))
    ensures WellFormed(PutAll([], FilterPlaced(ps, f.Keeps))) && WellFormed(KeepTemplates(PutAll([], ps), f))
  {
    hide KeepTemplates, ContentOf, ContentOfTree, FilterPlaced, PutAll, WellFormed;
    FilteredCleared(ps, f.Keeps);
    MergedContent(ps);
    MergedContent(FilterPlaced(ps, f.Keeps));
    FilterRestricts(ps, f.Keeps);
    KeepTemplatesRestricts(PutAll([], ps), f);
    KeepTemplatesWellFormed(PutAll([], ps), f);
    RestrictsIsUnique(ContentOf(ps), f.Keeps, ContentOf(FilterPlaced(ps, f.Keeps)), ContentOfTree(KeepTemplates(PutAll([], ps), f)));
  }

  lemma RestrictsIsUnique(c: Content, keep: Address -> bool, x: Content, y: Content)
    requires Restricts(c, keep, x) && Restricts(c, keep, y)
    ensures x == y
  {
    assert x.addresses == y.addresses;
    assert x.entries == y.entries;
  }

  // ----- several values for one query variable -----

  ghost predicate UnionOf(ps: seq<Placed>, f: FilterSet, f1: FilterSet, f2: FilterSet) {
    && ContentOf(FilterPlaced(ps, f.Keeps))
      == ContentOf(FilterPlaced(ps, f1.Keeps)).Plus(ContentOf(FilterPlaced(ps, f2.Keeps)))
    && ContentOf(FilterPlaced(ps, f1.Keeps)).addresses !! ContentOf(FilterPlaced(ps, f2.Keeps)).addresses
  }

  ghost predicate Splits(keep: Address -> bool, keep1: Address -> bool, keep2: Address -> bool) {
    && (forall a :: keep(a) <==> keep1(a) || keep2(a))
    && (forall a :: !(keep1(a) && keep2(a)))
  }

  lemma RestrictionsAdd(c: Content, k: Address -> bool, k1: Address -> bool, k2: Address -> bool,
      d: Content, d1: Content, d2: Content)
    requires Splits(k, k1, k2)
    requires Restricts(c, k, d) && Restricts(c, k1, d1) && Restricts(c, k2, d2)
    ensures d == d1.Plus(d2) && d1.addresses !! d2.addresses
  {
    assert d.addresses == d1.addresses + d2.addresses;
    assert d.entries == d1.entries + d2.entries;
  }

  /** When no address passes both filters, and the combined filter passes what either
      passes, its result is the disjoint union of theirs. */
  lemma UnionOfFilters(ps: seq<Placed>, f: FilterSet, f1: FilterSet, f2: FilterSet)
    requires Splits(f.Keeps, f1.Keeps, f2.Keeps)
    ensures UnionOf(ps, f, f1, f2)
  {
    FilterRestricts(ps, f.Keeps);
    FilterRestricts(ps, f1.Keeps);
    FilterRestricts(ps, f2.Keeps);
    RestrictionsAdd(ContentOf(ps), f.Keeps, f1.Keeps, f2.Keeps, ContentOf(FilterPlaced(ps, f.Keeps)),
      ContentOf(FilterPlaced(ps, f1.Keeps)), ContentOf(FilterPlaced(ps, f2.Keeps)));
  }

  // A query variable given twice selects what its two values select separately.

  lemma TwoKinds(ps: seq<Placed>, f: FilterSet, a: string, b: string)
    requires a != b
    ensures UnionOf(ps, f.(templateKind := [a, b]), f.(templateKind := [a]), f.(templateKind := [b]))
  {
    UnionOfFilters(ps, f.(templateKind := [a, b]), f.(templateKind := [a]), f.(templateKind := [b]));
  }

  lemma TwoNames(ps: seq<Placed>, f: FilterSet, a: string, b: string)
    requires a != b
    ensures UnionOf(ps, f.(constraintName := [a, b]), f.(constraintName := [a]), f.(constraintName := [b]))
  {
    UnionOfFilters(ps, f.(constraintName := [a, b]), f.(constraintName := [a]), f.(constraintName := [b]));
  }

  lemma TwoSeverities(ps: seq<Placed>, f: FilterSet, a: string, b: string)
    requires a != b
    ensures UnionOf(ps, f.(severity := [a, b]), f.(severity := [a]), f.(severity := [b]))
  {
    UnionOfFilters(ps, f.(severity := [a, b]), f.(severity := [a]), f.(severity := [b]));
  }

  lemma TwoIdentityValues(ps: seq<Placed>, f: FilterSet, a: string, b: string, key: string)
    requires a != b
    ensures UnionOf(ps, f.(objectIdentity := f.objectIdentity[key := [a, b]]),
      f.(objectIdentity := f.objectIdentity[key := [a]]), f.(objectIdentity := f.objectIdentity[key := [b]]))
  {
    var both := f.(objectIdentity := f.objectIdentity[key := [a, b]]);
    var onlyA := f.(objectIdentity := f.objectIdentity[key := [a]]);
    var onlyB := f.(objectIdentity := f.objectIdentity[key := [b]]);
    forall at: Address
      ensures both.Keeps(at) <==> onlyA.Keeps(at) || onlyB.Keeps(at)
      ensures !(onlyA.Keeps(at) && onlyB.Keeps(at))
    {
      var id := at.pattern.objectIdentity;
      MatchAllUpdated(f.objectIdentity, key, [a, b], id);
      MatchAllUpdated(f.objectIdentity, key, [a], id);
      MatchAllUpdated(f.objectIdentity, key, [b], id);
    }
    UnionOfFilters(ps, both, onlyA, onlyB);
  }

  lemma MatchAllUpdated(fs: map<string, Filter>, key: string, v: Filter, id: Identity)
    ensures MatchAll(fs[key := v], id) <==> Match(v, At(id, key)) && MatchAll(fs - {key}, id)
  {
    var updated, others := fs[key := v], fs - {key};
    assert forall k :: k in others <==> k in fs && k != key;
    if MatchAll(updated, id) {
      assert key in updated;
      forall k | k in others ensures Match(others[k], At(id, k)) { assert k in updated; }
    }
  }
}
