/** What the emitted metrics say about the cluster reports. */
module Totals {
  import opened Text
  import opened Doop
  import opened Regroup
  import opened Contents
  import opened Filters
  import opened Sorting
  import opened Clusters
  import opened Canonicity
  import opened Tagging
  import opened Pipeline
  import opened Metrics
  import opened Emission
  import opened Collector
  import opened Loading = Downloader

  ghost predicate DistinctLabels(ms: seq<Metric>) {
    forall i, j :: 0 <= i < j < |ms| ==> ms[i].labels != ms[j].labels
  }

  /** No two metrics of one kind carry the same labels. */
  lemma LabelsAreDistinct(oidKeys: seq<string>, ps: seq<Placed>, raw: seq<Metric>, rawKeys: seq<InstanceKey>,
      grouped: seq<Metric>, groupedKeys: seq<GroupKey>)
    requires Emitted(oidKeys, ps, raw, rawKeys, grouped, groupedKeys)
    ensures DistinctLabels(raw) && DistinctLabels(grouped)
  {
    hide RawLabels, GroupedLabels, InstanceTotals, GroupTotals;
    forall i, j | 0 <= i < j < |raw|
      ensures raw[i].labels != raw[j].labels
    {
      if RawLabels(rawKeys[i]) == RawLabels(rawKeys[j]) {
        RawLabelsAreInjective(rawKeys[i], rawKeys[j]);
      }
    }
    forall i, j | 0 <= i < j < |grouped|
      ensures grouped[i].labels != grouped[j].labels
    {
      if GroupedLabels(groupedKeys[i]) == GroupedLabels(groupedKeys[j]) {
        GroupedLabelsAreInjective(groupedKeys[i], groupedKeys[j]);
      }
    }
  }

  /** Emission panics exactly when some group is found while no key is configured, or some
      configured identity value contains NUL. */
  lemma {:induction false} PanicsExactly(oidKeys: seq<string>, ps: seq<Placed>)
    ensures Unfit(oidKeys, ps) <==>
      exists i :: 0 <= i < |ps| && (oidKeys == [] || !NulFree(oidKeys, ps[i].at.pattern.objectIdentity))
  {
    hide Fits, KeyOf, NulFree;
    if ps != [] {
      PanicsExactly(oidKeys, ps[1..]);
      FitsExactly(oidKeys, ps[0].at);
      assert GroupTotals(oidKeys, ps) == multiset{KeyOf(oidKeys, ps[0].at)} + GroupTotals(oidKeys, ps[1..]);
      forall i | 0 <= i < |ps[1..]|
        ensures ps[1..][i] == ps[i + 1]
      {
      }
      if i :| 0 <= i < |ps| && (oidKeys == [] || !NulFree(oidKeys, ps[i].at.pattern.objectIdentity)) {
        if i > 0 {
          assert ps[1..][i - 1] == ps[i];
        }
      }
    }
  }

  // ----- the number of groups -----

  lemma {:induction false} GroupTotalsSize(oidKeys: seq<string>, ps: seq<Placed>)
    ensures |GroupTotals(oidKeys, ps)| == |ps|
  {
    if ps != [] {
      GroupTotalsSize(oidKeys, ps[1..]);
    }
  }

  ghost predicate DistinctAddresses(ps: seq<Placed>) {
    forall i, j :: 0 <= i < j < |ps| ==> ps[i].at != ps[j].at
  }

  lemma {:induction false} AddressesSize(ps: seq<Placed>)
    requires DistinctAddresses(ps)
    ensures |ContentOf(ps).addresses| == |ps|
  {
    if ps != [] {
      AddressesSize(ps[1..]);
      AddressesAreThose(ps[1..]);
      assert ps[0].at !in ContentOf(ps[1..]).addresses;
      assert ContentOf(ps).addresses == {ps[0].at} + ContentOf(ps[1..]).addresses;
    }
  }

  lemma DistinctTogether(a: seq<Placed>, b: seq<Placed>)
    requires DistinctAddresses(a) && DistinctAddresses(b)
    requires forall x, y :: x in a && y in b ==> x.at != y.at
    ensures DistinctAddresses(a + b)
  {
    forall i, j | 0 <= i < j < |a + b|
      ensures (a + b)[i].at != (a + b)[j].at
    {
      if i < |a| <= j {
        assert (a + b)[i] in a && (a + b)[j] in b;
      }
    }
  }

  lemma {:induction false} ConstraintsOfPlaced(kind: string, cs: seq<Constraint>)
    ensures forall p :: p in FlatConstraints(kind, cs) ==> p.at.kind == kind
    ensures forall p :: p in FlatConstraints(kind, cs) ==>
      exists i :: 0 <= i < |cs| && p.at.name == cs[i].name && p.at.metadata == cs[i].metadata.Cleared()
  {
    if cs != [] {
      ConstraintsOfPlaced(kind, cs[1..]);
      forall p | p in FlatConstraints(kind, cs)
        ensures p.at.kind == kind
        ensures exists i :: 0 <= i < |cs| && p.at.name == cs[i].name && p.at.metadata == cs[i].metadata.Cleared()
      {
        if p in FlatConstraints(kind, cs[1..]) {
          var i :| 0 <= i < |cs[1..]| && p.at.name == cs[1..][i].name && p.at.metadata == cs[1..][i].metadata.Cleared();
          assert cs[i + 1] == cs[1..][i];
        }
      }
    }
  }

  lemma {:induction false} DistinctInTemplate(kind: string, cs: seq<Constraint>)
    requires WellFormedConstraints(cs)
    ensures DistinctAddresses(FlatConstraints(kind, cs))
  {
    if cs != [] {
      var one, rest := FlatConstraint(kind, cs[0]), FlatConstraints(kind, cs[1..]);
      DistinctInTemplate(kind, cs[1..]);
      ConstraintsOfPlaced(kind, cs[1..]);
      assert WellFormedConstraint(cs[0]);
      forall x, y | x in one && y in rest
        ensures x.at != y.at
      {
        var i :| 0 <= i < |cs[1..]| && y.at.name == cs[1..][i].name && y.at.metadata == cs[1..][i].metadata.Cleared();
        assert cs[i + 1] == cs[1..][i] && WellFormedConstraint(cs[i + 1]);
      }
      DistinctTogether(one, rest);
    }
  }

  /** Every group of a well-formed report has an address of its own. */
  lemma {:induction false} DistinctInReport(ts: seq<Template>)
    requires WellFormed(ts)
    ensures DistinctAddresses(FlatTemplates(ts))
  {
    if ts != [] {
      var one, rest := FlatTemplate(ts[0]), FlatTemplates(ts[1..]);
      DistinctInReport(ts[1..]);
      DistinctInTemplate(ts[0].kind, ts[0].constraints);
      FlatConstraintsCleared(ts[0].kind, ts[0].constraints);
      KindsOfPlaced(ts[1..], ts[0].kind);
      DistinctTogether(one, rest);
    }
  }

  // ----- the number of instances of one cluster -----

  function IfFrom(v: Violation, cluster: string): seq<Violation> {
    if v.clusterName == cluster then [v] else []
  }

  function FromCluster(vs: seq<Violation>, cluster: string): seq<Violation> {
    if vs == [] then []
    else IfFrom(vs[0], cluster) + FromCluster(vs[1..], cluster)
  }

  /** The same groups with only the instances that name a cluster. */
  function Only(ps: seq<Placed>, cluster: string): seq<Placed> {
    if ps == [] then [] else [Placed(ps[0].at, FromCluster(ps[0].instances, cluster))] + Only(ps[1..], cluster)
  }

  lemma {:induction false} InstanceTotalsSize(oidKeys: seq<string>, ps: seq<Placed>)
    ensures |InstanceTotals(oidKeys, ps)| == InstanceCount(ps)
  {
    if ps != [] {
      InstanceTotalsSize(oidKeys, ps[1..]);
      InstancesUnderSize(KeyOf(oidKeys, ps[0].at), ps[0].instances);
    }
  }

  lemma {:induction false} InstancesUnderSize(k: GroupKey, vs: seq<Violation>)
    ensures |InstancesUnder(k, vs)| == |vs|
  {
    if vs != [] {
      InstancesUnderSize(k, vs[1..]);
    }
  }

  lemma {:induction false} EntriesSize(ps: seq<Placed>)
    ensures |ContentOf(ps).entries| == InstanceCount(ps)
  {
    if ps != [] {
      EntriesSize(ps[1..]);
    }
  }

  lemma PartsAdd(a: multiset<InstanceKey>, b: multiset<InstanceKey>, x: multiset<InstanceKey>, y: multiset<InstanceKey>, cluster: string)
    requires PartOf(a, b, cluster) && PartOf(x, y, cluster)
    ensures PartOf(a + x, b + y, cluster)
  {
  }

  lemma OnlyOneUnder(k: GroupKey, v: Violation, cluster: string)
    ensures PartOf(InstancesUnder(k, IfFrom(v, cluster)), InstancesUnder(k, [v]), cluster)
  {
    assert [v][1..] == [];
  }

  lemma {:induction false} OnlyUnder(k: GroupKey, vs: seq<Violation>, cluster: string)
    ensures PartOf(InstancesUnder(k, FromCluster(vs, cluster)), InstancesUnder(k, vs), cluster)
  {
    if vs != [] {
      var rest := FromCluster(vs[1..], cluster);
      assert vs == [vs[0]] + vs[1..] && FromCluster(vs, cluster) == IfFrom(vs[0], cluster) + rest;
      hide InstancesUnder, PartOf, FromCluster, IfFrom;
      OnlyUnder(k, vs[1..], cluster);
      InstancesUnderAppend(k, IfFrom(vs[0], cluster), rest);
      InstancesUnderAppend(k, [vs[0]], vs[1..]);
      OnlyOneUnder(k, vs[0], cluster);
      PartsAdd(InstancesUnder(k, IfFrom(vs[0], cluster)), InstancesUnder(k, [vs[0]]),
        InstancesUnder(k, rest), InstancesUnder(k, vs[1..]), cluster);
    }
  }

  lemma {:induction false} OnlyTotals(oidKeys: seq<string>, ps: seq<Placed>, cluster: string)
    ensures PartOf(InstanceTotals(oidKeys, Only(ps, cluster)), InstanceTotals(oidKeys, ps), cluster)
  {
    hide KeyOf, FromCluster, InstancesUnder;
    if ps != [] {
      OnlyTotals(oidKeys, ps[1..], cluster);
      OnlyUnder(KeyOf(oidKeys, ps[0].at), ps[0].instances, cluster);
      assert Only(ps, cluster)[1..] == Only(ps[1..], cluster);
    }
  }

  ghost predicate EntriesOf(part: multiset<Entry>, all: multiset<Entry>, cluster: string) {
    forall e :: part[e] == if e.instance.clusterName == cluster then all[e] else 0
  }

  lemma NoEntriesAt(at: Address)
    ensures EntriesAt(at, []) == multiset{}
  {
  }

  lemma OneEntryAt(at: Address, v: Violation)
    ensures EntriesAt(at, [v]) == multiset{Entry(at, v)}
  {
  }

  lemma {:induction false} OnlyEntriesAt(at: Address, vs: seq<Violation>, cluster: string)
    ensures EntriesOf(EntriesAt(at, FromCluster(vs, cluster)), EntriesAt(at, vs), cluster)
  {
    hide EntriesAt;
    NoEntriesAt(at);
    if vs != [] {
      OnlyEntriesAt(at, vs[1..], cluster);
      assert vs == [vs[0]] + vs[1..];
      EntriesAtAppend(at, [vs[0]], vs[1..]);
      EntriesAtAppend(at, if vs[0].clusterName == cluster then [vs[0]] else [], FromCluster(vs[1..], cluster));
      OneEntryAt(at, vs[0]);
    }
  }

  lemma {:induction false} OnlyEntries(ps: seq<Placed>, cluster: string)
    ensures EntriesOf(ContentOf(Only(ps, cluster)).entries, ContentOf(ps).entries, cluster)
  {
    hide FromCluster, EntriesAt;
    if ps != [] {
      OnlyEntries(ps[1..], cluster);
      OnlyEntriesAt(ps[0].at, ps[0].instances, cluster);
      assert Only(ps, cluster)[1..] == Only(ps[1..], cluster);
    }
  }

  lemma {:induction false} OnlyAppend(a: seq<Placed>, b: seq<Placed>, cluster: string)
    ensures InstanceCount(Only(a + b, cluster)) == InstanceCount(Only(a, cluster)) + InstanceCount(Only(b, cluster))
  {
    hide FromCluster;
    if a == [] {
      assert a + b == b;
    } else {
      assert (a + b)[0] == a[0] && (a + b)[1..] == a[1..] + b;
      OnlyAppend(a[1..], b, cluster);
    }
  }

  ghost predicate AllNamed(vs: seq<Violation>, cluster: string) {
    forall v :: v in vs ==> v.clusterName == cluster
  }

  ghost predicate NamedBy(ps: seq<Placed>, cluster: string) {
    forall p :: p in ps ==> AllNamed(p.instances, cluster)
  }

  lemma {:induction false} AllOrNone(vs: seq<Violation>, name: string, cluster: string)
    requires AllNamed(vs, name)
    ensures FromCluster(vs, cluster) == if name == cluster then vs else []
  {
    if vs != [] {
      assert vs[0] in vs;
      AllOrNone(vs[1..], name, cluster);
    }
  }

  lemma {:induction false} AllOrNothing(ps: seq<Placed>, name: string, cluster: string)
    requires NamedBy(ps, name)
    ensures InstanceCount(Only(ps, cluster)) == if name == cluster then InstanceCount(ps) else 0
  {
    if ps != [] {
      assert ps[0] in ps;
      AllOrNone(ps[0].instances, name, cluster);
      AllOrNothing(ps[1..], name, cluster);
    }
  }

  /** Each report's instances carry that cluster's name, as SetClusterName leaves them. */
  ghost predicate ProperlyNamed(reports: ClusterReports) {
    forall x :: x in reports ==> NamedBy(FlatTemplates(reports[x].templates), x)
  }

  lemma {:induction false} OnlyOneReport(reports: ClusterReports, order: seq<string>, cluster: string)
    requires ProperlyNamed(reports) && Distinct(order) && forall x :: x in order ==> x in reports
    ensures InstanceCount(Only(FlatClusters(reports, order, EVERYTHING), cluster))
      == if cluster in order then InstanceCount(FlatTemplates(reports[cluster].templates)) else 0
  {
    if order != [] {
      var x := order[0];
      FlatClusterUnfiltered(reports[x]);
      OnlyOneReport(reports, order[1..], cluster);
      AllOrNothing(FlatTemplates(reports[x].templates), x, cluster);
      OnlyAppend(FlatCluster(reports[x], EVERYTHING), FlatClusters(reports, order[1..], EVERYTHING), cluster);
    }
  }

  lemma SameEntriesSameCount(a: seq<Placed>, b: seq<Placed>, cluster: string)
    requires ContentOf(a).entries == ContentOf(b).entries
    ensures InstanceCount(Only(a, cluster)) == InstanceCount(Only(b, cluster))
  {
    hide Only, InstanceCount;
    EntriesSize(Only(a, cluster));
    EntriesSize(Only(b, cluster));
    OnlyEntries(a, cluster);
    OnlyEntries(b, cluster);
    assert ContentOf(Only(a, cluster)).entries == ContentOf(Only(b, cluster)).entries;
  }

  /** The raw metrics of a cluster add up to the instances in its report. */
  lemma {:induction false} RawCountsAreExact(oidKeys: seq<string>, reports: ClusterReports, order: seq<string>, cluster: string,
      raw: seq<Metric>, rawKeys: seq<InstanceKey>)
    requires ProperlyNamed(reports) && IsOrdering(order, reports.Keys) && cluster in reports
    requires Emits(raw, rawKeys, RawLabels, InstanceTotals(oidKeys, FlatTemplates(Aggregated(reports, order, EVERYTHING))))
    ensures CountSum(MetricsOf(raw, cluster)) == InstanceCount(FlatTemplates(reports[cluster].templates))
  {
    hide Emits, RawLabels, InstanceTotals, Only, ContentOf, FlatTemplates, FlatClusters, Aggregated, WellFormed, ProperlyNamed;
    var flat, ps := FlatClusters(reports, order, EVERYTHING), FlatTemplates(Aggregated(reports, order, EVERYTHING));
    AggregatedContent(reports, order, EVERYTHING);
    assert ContentOf(ps) == ContentOf(flat);
    OnlyTotals(oidKeys, ps, cluster);
    ClusterCountsAddUp(raw, rawKeys, InstanceTotals(oidKeys, ps), InstanceTotals(oidKeys, Only(ps, cluster)), cluster);
    InstanceTotalsSize(oidKeys, Only(ps, cluster));
    SameEntriesSameCount(ps, flat, cluster);
    OnlyOneReport(reports, order, cluster);
  }

  /** The grouped metrics add up to the different groups of all reports. */
  lemma {:induction false} GroupedCountsAreExact(oidKeys: seq<string>, reports: ClusterReports, order: seq<string>,
      grouped: seq<Metric>, groupedKeys: seq<GroupKey>)
    requires IsOrdering(order, reports.Keys)
    requires Emits(grouped, groupedKeys, GroupedLabels, GroupTotals(oidKeys, FlatTemplates(Aggregated(reports, order, EVERYTHING))))
    ensures CountSum(grouped) == |ContentOf(FlatClusters(reports, order, EVERYTHING)).addresses|
  {
    hide Emits, GroupedLabels, GroupTotals, FlatTemplates, FlatClusters, Aggregated, WellFormed;
    var ts := Aggregated(reports, order, EVERYTHING);
    AggregatedContent(reports, order, EVERYTHING);
    CountsAddUp(grouped, groupedKeys, GroupedLabels, GroupTotals(oidKeys, FlatTemplates(ts)));
    GroupTotalsSize(oidKeys, FlatTemplates(ts));
    DistinctInReport(ts);
    AddressesSize(FlatTemplates(ts));
  }

  /** A collection that does not panic is exact: no labels occur twice, the raw metrics of
      every cluster add up to its instances and the grouped metrics to the groups. */
  lemma {:induction false} CollectionIsExact(oidKeys: seq<string>, reports: ClusterReports, order: seq<string>,
      raw: seq<Metric>, grouped: seq<Metric>)
    requires ProperlyNamed(reports) && IsOrdering(order, reports.Keys)
    requires CollectedFrom(reports, order, oidKeys, raw, grouped, false)
    ensures DistinctLabels(raw) && DistinctLabels(grouped)
    ensures CountSum(grouped) == |ContentOf(FlatClusters(reports, order, EVERYTHING)).addresses|
    ensures forall cluster :: cluster in reports ==>
      CountSum(MetricsOf(raw, cluster)) == InstanceCount(FlatTemplates(reports[cluster].templates))
  {
    hide Emits, ProperlyNamed, Aggregated, FlatTemplates, FlatClusters, ContentOf, InstanceTotals, GroupTotals;
    hide CountSum, MetricsOf, InstanceCount, DistinctLabels, Unfit;
    var ps := FlatTemplates(Aggregated(reports, order, EVERYTHING));
    var rawKeys, groupedKeys :| Emitted(oidKeys, ps, raw, rawKeys, grouped, groupedKeys);
    LabelsAreDistinct(oidKeys, ps, raw, rawKeys, grouped, groupedKeys);
    GroupedCountsAreExact(oidKeys, reports, order, grouped, groupedKeys);
    forall cluster | cluster in reports
      ensures CountSum(MetricsOf(raw, cluster)) == InstanceCount(FlatTemplates(reports[cluster].templates))
    {
      RawCountsAreExact(oidKeys, reports, order, cluster, raw, rawKeys);
    }
  }

  // ----- tagging names every instance -----

  lemma TaggedGroupsNamed(kind: string, c: Constraint, cluster: string)
    ensures NamedBy(FlatConstraint(kind, TaggedConstraint(c, cluster)), cluster)
  {
    forall p | p in FlatConstraint(kind, TaggedConstraint(c, cluster))
      ensures AllNamed(p.instances, cluster)
    {
    }
  }

  lemma {:induction false} NamedConstraints(kind: string, cs: seq<Constraint>, cluster: string)
    requires forall c :: c in cs ==> NamedBy(FlatConstraint(kind, c), cluster)
    ensures NamedBy(FlatConstraints(kind, cs), cluster)
  {
    hide FlatConstraint;
    if cs != [] {
      assert cs[0] in cs && forall c :: c in cs[1..] ==> c in cs;
      NamedConstraints(kind, cs[1..], cluster);
    }
  }

  lemma {:induction false} NamedTemplates(ts: seq<Template>, cluster: string)
    requires forall t :: t in ts ==> NamedBy(FlatTemplate(t), cluster)
    ensures NamedBy(FlatTemplates(ts), cluster)
  {
    hide FlatTemplate;
    if ts != [] {
      assert ts[0] in ts && forall t :: t in ts[1..] ==> t in ts;
      NamedTemplates(ts[1..], cluster);
    }
  }

  lemma TaggedReportIsNamed(r: ClusterReport, cluster: string)
    ensures NamedBy(FlatTemplates(TaggedReport(r, cluster).templates), cluster)
  {
    hide NamedBy, FlatConstraint, FlatConstraints, FlatTemplates, TaggedConstraint;
    var ts := TaggedReport(r, cluster).templates;
    forall t | t in ts
      ensures NamedBy(FlatTemplate(t), cluster)
    {
      forall c | c in t.constraints
        ensures NamedBy(FlatConstraint(t.kind, c), cluster)
      {
        var i :| 0 <= i < |ts| && ts[i] == t;
        var j :| 0 <= j < |t.constraints| && t.constraints[j] == c;
        TaggedGroupsNamed(t.kind, r.templates[i].constraints[j], cluster);
      }
      NamedConstraints(t.kind, t.constraints, cluster);
    }
    NamedTemplates(ts, cluster);
  }

  lemma LoadedReportsAreNamed(raws: ClusterReports, cfgs: Configurations)
    requires raws.Keys <= cfgs.Keys
    ensures ProperlyNamed(LoadedReports(raws, cfgs))
  {
    hide NamedBy, TaggedReport, ProcessedReport;
    forall x | x in LoadedReports(raws, cfgs)
      ensures NamedBy(FlatTemplates(LoadedReports(raws, cfgs)[x].templates), x)
    {
      TaggedReportIsNamed(ProcessedReport(cfgs[x], raws[x]), x);
    }
  }

  // ----- the cache names every instance -----

  /** Every cached payload is named by its key. */
  ghost predicate NamedCache(cache: Cache) {
    forall x :: x in cache ==> NamedBy(FlatTemplates(cache[x].payload.templates), x)
  }

  lemma AfterPullIsNamed(cache: Cache, info: ObjectInfo, pull: Pull)
    requires NamedCache(cache)
    ensures NamedCache(AfterPull(cache, info, pull)) && info.name in AfterPull(cache, info, pull)
  {
    hide NamedBy, TaggedReport, FlatTemplates;
    assert NamedBy(FlatTemplates(EMPTY_REPORT.templates), info.name) by { NothingIsNamed(info.name); }
    if pull.Pulled? {
      TaggedReportIsNamed(pull.report, info.name);
    }
  }

  lemma NothingIsNamed(cluster: string)
    ensures NamedBy(FlatTemplates(EMPTY_REPORT.templates), cluster)
  {
  }

  /** Whatever is downloaded, the cache stays named, and so are the reports taken from it. */
  lemma {:induction false} LoadedPayloadsAreNamed(cache: Cache, infos: seq<ObjectInfo>, pulls: seq<Pull>)
    requires |pulls| == |infos| && NamedCache(cache)
    ensures NamedCache(AfterPulls(cache, infos, pulls)) && ProperlyNamed(Payloads(cache, infos, pulls))
    decreases |infos|
  {
    hide NamedBy, AfterPull, Succeeds, FlatTemplates;
    if infos != [] {
      AfterPullIsNamed(cache, infos[0], pulls[0]);
      LoadedPayloadsAreNamed(AfterPull(cache, infos[0], pulls[0]), infos[1..], pulls[1..]);
    }
  }

  /** So what is collected from a cache is exact for the reports that the cache leads to. */
  lemma {:induction false} CollectionFromCacheIsExact(cache: Cache, listing: Listing, pulls: seq<Pull>, oidKeys: seq<string>,
      raw: seq<Metric>, grouped: seq<Metric>)
    requires NamedCache(cache) && (listing.Listed? ==> |pulls| == |listing.infos|)
    requires Collected(Available(cache, listing, pulls), oidKeys, raw, grouped, false)
    ensures NamedCache(AfterCall(cache, listing, pulls))
    ensures DistinctLabels(raw) && DistinctLabels(grouped)
    ensures
      var reports := Available(cache, listing, pulls);
      && (forall cluster :: cluster in reports ==>
        CountSum(MetricsOf(raw, cluster)) == InstanceCount(FlatTemplates(reports[cluster].templates)))
      && (forall order :: IsOrdering(order, reports.Keys) ==>
        CountSum(grouped) == |ContentOf(FlatClusters(reports, order, EVERYTHING)).addresses|)
  {
    hide NamedCache, AfterPulls, Payloads, AllSucceed, DistinctLabels, CollectedFrom, CountSum, MetricsOf, InstanceCount;
    hide FlatTemplates, FlatClusters, ContentOf, ProperlyNamed;
    var reports := Available(cache, listing, pulls);
    if listing.Listed? {
      LoadedPayloadsAreNamed(cache, listing.infos, pulls);
    }
    assert ProperlyNamed(reports) by { NoneIsNamed(); }
    var order :| IsOrdering(order, reports.Keys) && CollectedFrom(reports, order, oidKeys, raw, grouped, false);
    CollectionIsExact(oidKeys, reports, order, raw, grouped);
    forall other | IsOrdering(other, reports.Keys)
      ensures ContentOf(FlatClusters(reports, other, EVERYTHING)) == ContentOf(FlatClusters(reports, order, EVERYTHING))
    {
      OrderDoesNotMatter(reports, order, other, EVERYTHING);
      AggregatedContent(reports, order, EVERYTHING);
      AggregatedContent(reports, other, EVERYTHING);
    }
  }

  lemma NoneIsNamed()
    ensures ProperlyNamed(map[])
  {
  }
}
