/** What each emitted metric counts, told from its label values alone. */
module LabelCounts {
  import opened Doop
  import opened Regroup
  import opened Contents
  import opened Filters
  import opened Sorting
  import opened Clusters
  import opened Canonicity
  import opened Metrics
  import opened Emission
  import opened Collector
  import opened Totals
  import opened Loading = Downloader

  ghost function Carrying(oidKeys: seq<string>, labels: seq<string>): Address -> bool {
    (at: Address) => HasLabels(oidKeys, at, labels)
  }

  // ----- of one aggregate -----

  lemma {:induction false} GroupsOfKey(oidKeys: seq<string>, ps: seq<Placed>, k: GroupKey)
    requires !Unfit(oidKeys, ps)
    ensures GroupTotals(oidKeys, ps)[k] == |FilterPlaced(ps, Carrying(oidKeys, GroupedLabels(k)))|
  {
    hide Fits, KeyOf, GroupedLabels, HasLabels;
    if ps != [] {
      FirstFits(oidKeys, ps);
      GroupsOfKey(oidKeys, ps[1..], k);
      LabelsDecideTheKey(oidKeys, ps[0].at, k);
    }
  }

  lemma FirstFits(oidKeys: seq<string>, ps: seq<Placed>)
    requires ps != [] && !Unfit(oidKeys, ps)
    ensures Fits(oidKeys, KeyOf(oidKeys, ps[0].at)) && !Unfit(oidKeys, ps[1..])
  {
    hide Fits, KeyOf;
    assert GroupTotals(oidKeys, ps) == multiset{KeyOf(oidKeys, ps[0].at)} + GroupTotals(oidKeys, ps[1..]);
  }

  lemma {:induction false} InstancesOfCluster(k: GroupKey, vs: seq<Violation>, cluster: string)
    ensures InstancesUnder(k, vs)[InstanceKey(cluster, k)] == |FromCluster(vs, cluster)|
  {
    if vs != [] {
      InstancesOfCluster(k, vs[1..], cluster);
    }
  }

  ghost function NamedInstances(oidKeys: seq<string>, ps: seq<Placed>, labels: seq<string>, cluster: string): nat {
    InstanceCount(Only(FilterPlaced(ps, Carrying(oidKeys, labels)), cluster))
  }

  lemma NamedInstancesStep(oidKeys: seq<string>, ps: seq<Placed>, labels: seq<string>, cluster: string)
    requires ps != []
    ensures NamedInstances(oidKeys, ps, labels, cluster) == NamedInstances(oidKeys, ps[1..], labels, cluster)
      + if HasLabels(oidKeys, ps[0].at, labels) then |FromCluster(ps[0].instances, cluster)| else 0
  {
    hide HasLabels, FromCluster;
    var rest := FilterPlaced(ps[1..], Carrying(oidKeys, labels));
    assert ([ps[0]] + rest)[1..] == rest && [] + rest == rest;
    var one, others := [Placed(ps[0].at, FromCluster(ps[0].instances, cluster))], Only(rest, cluster);
    assert (one + others)[1..] == others;
  }

  lemma {:induction false} InstancesOfKey(oidKeys: seq<string>, ps: seq<Placed>, k: InstanceKey)
    requires !Unfit(oidKeys, ps)
    ensures InstanceTotals(oidKeys, ps)[k] == NamedInstances(oidKeys, ps, GroupedLabels(k.group), k.cluster)
  {
    hide KeyOf, GroupedLabels, HasLabels, InstancesUnder, Unfit, FromCluster;
    if ps != [] {
      FirstFits(oidKeys, ps);
      InstancesOfKey(oidKeys, ps[1..], k);
      LabelsDecideTheKey(oidKeys, ps[0].at, k.group);
      NamedInstancesStep(oidKeys, ps, GroupedLabels(k.group), k.cluster);
      InstancesOfCluster(k.group, ps[0].instances, k.cluster);
      InstancesUnderKey(KeyOf(oidKeys, ps[0].at), ps[0].instances);
      hide NamedInstances, Fits;
    }
  }

  /** The value of the cluster label and the others. */
  lemma RawSplits(k: InstanceKey)
    ensures RawLabels(k) != [] && RawLabels(k)[0] == k.cluster && RawLabels(k)[1..] == GroupedLabels(k.group)
  {
  }

  /** Every metric counts what carries its labels, and everything is counted by some metric. */
  ghost predicate CountsByLabels(oidKeys: seq<string>, ps: seq<Placed>, raw: seq<Metric>, grouped: seq<Metric>) {
    && (forall m :: m in grouped ==> m.count == |FilterPlaced(ps, Carrying(oidKeys, m.labels))| > 0)
    && (forall m :: m in raw ==>
      m.labels != [] && m.count == NamedInstances(oidKeys, ps, m.labels[1..], m.labels[0]) > 0)
    && (forall p :: p in ps ==> exists m :: m in grouped && HasLabels(oidKeys, p.at, m.labels))
    && (forall p, v :: p in ps && v in p.instances ==> exists m :: m in raw && IsFor(oidKeys, p.at, v.clusterName, m))
  }

  predicate IsFor(oidKeys: seq<string>, at: Address, cluster: string, m: Metric) {
    m.labels != [] && m.labels[0] == cluster && HasLabels(oidKeys, at, m.labels[1..])
  }

  lemma CountedByGrouped(oidKeys: seq<string>, ps: seq<Placed>, grouped: seq<Metric>, keys: seq<GroupKey>)
    requires Emits(grouped, keys, GroupedLabels, GroupTotals(oidKeys, ps)) && !Unfit(oidKeys, ps)
    ensures forall m :: m in grouped ==> m.count == |FilterPlaced(ps, Carrying(oidKeys, m.labels))| > 0
  {
    hide GroupedLabels, GroupTotals, FilterPlaced, Unfit, HasLabels;
    forall m | m in grouped
      ensures m.count == |FilterPlaced(ps, Carrying(oidKeys, m.labels))| > 0
    {
      var i :| 0 <= i < |grouped| && grouped[i] == m;
      GroupsOfKey(oidKeys, ps, keys[i]);
      assert keys[i] in keys;
    }
  }

  lemma CountedByRaw(oidKeys: seq<string>, ps: seq<Placed>, raw: seq<Metric>, keys: seq<InstanceKey>)
    requires Emits(raw, keys, RawLabels, InstanceTotals(oidKeys, ps)) && !Unfit(oidKeys, ps)
    ensures forall m :: m in raw ==> m.labels != [] && m.count == NamedInstances(oidKeys, ps, m.labels[1..], m.labels[0]) > 0
  {
    hide RawLabels, GroupedLabels, InstanceTotals, NamedInstances, Unfit, HasLabels;
    forall m | m in raw
      ensures m.labels != [] && m.count == NamedInstances(oidKeys, ps, m.labels[1..], m.labels[0]) > 0
    {
      var i :| 0 <= i < |raw| && raw[i] == m;
      InstancesOfKey(oidKeys, ps, keys[i]);
      RawSplits(keys[i]);
      assert keys[i] in keys;
    }
  }

  lemma {:induction false} KeysOccur(oidKeys: seq<string>, ps: seq<Placed>, p: Placed)
    requires p in ps && !Unfit(oidKeys, ps)
    ensures KeyOf(oidKeys, p.at) in GroupTotals(oidKeys, ps) && HasLabels(oidKeys, p.at, GroupedLabels(KeyOf(oidKeys, p.at)))
    ensures forall v :: v in p.instances ==> InstanceKey(v.clusterName, KeyOf(oidKeys, p.at)) in InstanceTotals(oidKeys, ps)
  {
    hide KeyOf, GroupedLabels, HasLabels, InstancesUnder;
    FirstFits(oidKeys, ps);
    if p == ps[0] {
      LabelsDecideTheKey(oidKeys, p.at, KeyOf(oidKeys, p.at));
      InstancesOccur(KeyOf(oidKeys, p.at), p.instances);
    } else {
      KeysOccur(oidKeys, ps[1..], p);
    }
  }

  lemma {:induction false} InstancesOccur(k: GroupKey, vs: seq<Violation>)
    ensures forall v :: v in vs ==> InstanceKey(v.clusterName, k) in InstancesUnder(k, vs)
  {
    if vs != [] {
      InstancesOccur(k, vs[1..]);
    }
  }

  lemma MetricOfKey<K(!new)>(ms: seq<Metric>, keys: seq<K>, labels: K -> seq<string>, totals: multiset<K>, k: K)
    requires Emits(ms, keys, labels, totals) && k in totals
    ensures exists m :: m in ms && m.labels == labels(k)
  {
    var i :| 0 <= i < |keys| && keys[i] == k;
    assert ms[i] in ms;
  }

  lemma NothingUncounted(oidKeys: seq<string>, ps: seq<Placed>, raw: seq<Metric>, rawKeys: seq<InstanceKey>,
      grouped: seq<Metric>, groupedKeys: seq<GroupKey>)
    requires Emitted(oidKeys, ps, raw, rawKeys, grouped, groupedKeys) && !Unfit(oidKeys, ps)
    ensures forall p :: p in ps ==> exists m :: m in grouped && HasLabels(oidKeys, p.at, m.labels)
    ensures forall p, v :: p in ps && v in p.instances ==> exists m :: m in raw && IsFor(oidKeys, p.at, v.clusterName, m)
  {
    hide Emits, Unfit, KeyOf, GroupTotals, InstanceTotals, RawLabels, GroupedLabels, HasLabels;
    forall p | p in ps
      ensures exists m :: m in grouped && HasLabels(oidKeys, p.at, m.labels)
      ensures forall v :: v in p.instances ==> exists m :: m in raw && IsFor(oidKeys, p.at, v.clusterName, m)
    {
      var k := KeyOf(oidKeys, p.at);
      KeysOccur(oidKeys, ps, p);
      MetricOfKey(grouped, groupedKeys, GroupedLabels, GroupTotals(oidKeys, ps), k);
      forall v | v in p.instances
        ensures exists m :: m in raw && IsFor(oidKeys, p.at, v.clusterName, m)
      {
        var x := InstanceKey(v.clusterName, k);
        RawSplits(x);
        MetricOfKey(raw, rawKeys, RawLabels, InstanceTotals(oidKeys, ps), x);
        var m :| m in raw && m.labels == RawLabels(x);
        assert IsFor(oidKeys, p.at, v.clusterName, m);
      }
    }
  }

  lemma EmittedByLabels(oidKeys: seq<string>, ps: seq<Placed>, raw: seq<Metric>, rawKeys: seq<InstanceKey>,
      grouped: seq<Metric>, groupedKeys: seq<GroupKey>)
    requires Emitted(oidKeys, ps, raw, rawKeys, grouped, groupedKeys) && !Unfit(oidKeys, ps)
    ensures CountsByLabels(oidKeys, ps, raw, grouped)
  {
    hide Emits, Unfit, HasLabels, FilterPlaced, NamedInstances, IsFor;
    CountedByGrouped(oidKeys, ps, grouped, groupedKeys);
    CountedByRaw(oidKeys, ps, raw, rawKeys);
    NothingUncounted(oidKeys, ps, raw, rawKeys, grouped, groupedKeys);
  }

  // ----- of the cluster reports -----

  ghost function AddressesIn(reports: ClusterReports): set<Address> {
    set x, p | x in reports && p in FlatTemplates(reports[x].templates) :: p.at
  }

  /** How many instances a report has at addresses with these labels. */
  ghost function InstancesIn(oidKeys: seq<string>, r: ClusterReport, labels: seq<string>): nat {
    InstanceCount(FilterPlaced(FlatTemplates(r.templates), Carrying(oidKeys, labels)))
  }

  /** A grouped metric counts the different addresses with its labels, a raw metric the
      instances in its own cluster's report that are listed at such addresses; and every
      group and every instance is counted. */
  ghost predicate CountsReports(oidKeys: seq<string>, reports: ClusterReports, raw: seq<Metric>, grouped: seq<Metric>) {
    && (forall m :: m in grouped ==>
      m.count == |set at | at in AddressesIn(reports) && HasLabels(oidKeys, at, m.labels)| > 0)
    && (forall m :: m in raw ==>
      m.labels != [] && m.labels[0] in reports && m.count == InstancesIn(oidKeys, reports[m.labels[0]], m.labels[1..]) > 0)
    && (forall at :: at in AddressesIn(reports) ==> exists m :: m in grouped && HasLabels(oidKeys, at, m.labels))
    && (forall x, p :: x in reports && p in FlatTemplates(reports[x].templates) && p.instances != [] ==>
      exists m :: m in raw && IsFor(oidKeys, p.at, x, m))
  }

  lemma {:induction false} FlatClustersMembers(reports: ClusterReports, order: seq<string>)
    requires forall x :: x in order ==> x in reports
    ensures forall p :: p in FlatClusters(reports, order, EVERYTHING) <==>
      exists x :: x in order && p in FlatTemplates(reports[x].templates)
  {
    hide FlatTemplates;
    if order != [] {
      FlatClusterUnfiltered(reports[order[0]]);
      FlatClustersMembers(reports, order[1..]);
      assert order == [order[0]] + order[1..];
    }
  }

  lemma AddressesOfAggregate(reports: ClusterReports, order: seq<string>)
    requires IsOrdering(order, reports.Keys)
    ensures ContentOfTree(Aggregated(reports, order, EVERYTHING)).addresses == AddressesIn(reports)
  {
    hide FlatTemplates, Aggregated, WellFormed, FlatClusters, ContentOf;
    var flat := FlatClusters(reports, order, EVERYTHING);
    AggregatedContent(reports, order, EVERYTHING);
    FlatClustersMembers(reports, order);
    AddressesAreThose(flat);
    forall at
      ensures at in ContentOf(flat).addresses <==> at in AddressesIn(reports)
    {
      if at in ContentOf(flat).addresses {
        var i :| 0 <= i < |flat| && flat[i].at == at;
        assert flat[i] in flat;
      }
      if at in AddressesIn(reports) {
        var x, p :| x in reports && p in FlatTemplates(reports[x].templates) && p.at == at;
        assert x in order && p in flat;
      }
    }
  }

  lemma {:induction false} FilteredDistinct(ps: seq<Placed>, keep: Address -> bool)
    requires DistinctAddresses(ps)
    ensures DistinctAddresses(FilterPlaced(ps, keep))
  {
    if ps != [] {
      FilteredDistinct(ps[1..], keep);
      FilteredMembers(ps[1..], keep);
      var rest := FilterPlaced(ps[1..], keep);
      forall i | 0 <= i < |rest|
        ensures rest[i].at != ps[0].at
      {
        assert rest[i] in ps[1..];
      }
    }
  }

  lemma DifferentAddresses(ps: seq<Placed>, keep: Address -> bool)
    requires DistinctAddresses(ps)
    ensures |FilterPlaced(ps, keep)| == |set at | at in ContentOf(ps).addresses && keep(at)|
  {
    hide FilterPlaced, ContentOf, DistinctAddresses;
    FilteredDistinct(ps, keep);
    AddressesSize(FilterPlaced(ps, keep));
    FilterRestricts(ps, keep);
    assert ContentOf(FilterPlaced(ps, keep)).addresses == set at | at in ContentOf(ps).addresses && keep(at);
  }

  lemma GroupedOfReports(oidKeys: seq<string>, reports: ClusterReports, order: seq<string>, labels: seq<string>)
    requires IsOrdering(order, reports.Keys)
    ensures |FilterPlaced(FlatTemplates(Aggregated(reports, order, EVERYTHING)), Carrying(oidKeys, labels))|
      == |set at | at in AddressesIn(reports) && HasLabels(oidKeys, at, labels)|
  {
    hide FlatTemplates, Aggregated, WellFormed, FilterPlaced, AddressesIn, HasLabels, DistinctAddresses, FlatClusters;
    var ts := Aggregated(reports, order, EVERYTHING);
    AggregatedContent(reports, order, EVERYTHING);
    AddressesOfAggregate(reports, order);
    DistinctInReport(ts);
    DifferentAddresses(FlatTemplates(ts), Carrying(oidKeys, labels));
    assert (set at | at in AddressesIn(reports) && Carrying(oidKeys, labels)(at))
      == set at | at in AddressesIn(reports) && HasLabels(oidKeys, at, labels);
  }

  lemma {:induction false} NamedInFlat(oidKeys: seq<string>, reports: ClusterReports, order: seq<string>,
      labels: seq<string>, cluster: string)
    requires ProperlyNamed(reports) && Distinct(order) && forall x :: x in order ==> x in reports
    ensures NamedInstances(oidKeys, FlatClusters(reports, order, EVERYTHING), labels, cluster)
      == if cluster in order then InstancesIn(oidKeys, reports[cluster], labels) else 0
  {
    hide HasLabels, Only, InstanceCount, FilterPlaced, FlatTemplates, NamedBy;
    if order == [] {
      NothingNamed(oidKeys, labels, cluster);
    } else {
      var x, keep := order[0], Carrying(oidKeys, labels);
      var one, rest := FlatTemplates(reports[x].templates), FlatClusters(reports, order[1..], EVERYTHING);
      FlatClusterUnfiltered(reports[x]);
      NamedInFlat(oidKeys, reports, order[1..], labels, cluster);
      FilterAppend(one, rest, keep);
      OnlyAppend(FilterPlaced(one, keep), FilterPlaced(rest, keep), cluster);
      FilteredStaysNamed(one, keep, x);
      AllOrNothing(FilterPlaced(one, keep), x, cluster);
    }
  }

  lemma NothingNamed(oidKeys: seq<string>, labels: seq<string>, cluster: string)
    ensures NamedInstances(oidKeys, [], labels, cluster) == 0
  {
  }

  lemma FilteredStaysNamed(ps: seq<Placed>, keep: Address -> bool, cluster: string)
    requires NamedBy(ps, cluster)
    ensures NamedBy(FilterPlaced(ps, keep), cluster)
  {
    FilteredMembers(ps, keep);
  }

  lemma SameContentSameNamed(oidKeys: seq<string>, a: seq<Placed>, b: seq<Placed>, labels: seq<string>, cluster: string)
    requires ContentOf(a) == ContentOf(b)
    ensures NamedInstances(oidKeys, a, labels, cluster) == NamedInstances(oidKeys, b, labels, cluster)
  {
    hide ContentOf, FilterPlaced, HasLabels, Only;
    var keep := Carrying(oidKeys, labels);
    FilterRestricts(a, keep);
    FilterRestricts(b, keep);
    RestrictsIsUnique(ContentOf(a), keep, ContentOf(FilterPlaced(a, keep)), ContentOf(FilterPlaced(b, keep)));
    SameEntriesSameCount(FilterPlaced(a, keep), FilterPlaced(b, keep), cluster);
  }

  lemma RawOfReports(oidKeys: seq<string>, reports: ClusterReports, order: seq<string>, labels: seq<string>, cluster: string)
    requires ProperlyNamed(reports) && IsOrdering(order, reports.Keys)
    ensures NamedInstances(oidKeys, FlatTemplates(Aggregated(reports, order, EVERYTHING)), labels, cluster)
      == if cluster in reports then InstancesIn(oidKeys, reports[cluster], labels) else 0
  {
    hide FlatTemplates, Aggregated, WellFormed, FilterPlaced, NamedInstances, HasLabels, FlatClusters, InstanceCount, ContentOf;
    AggregatedContent(reports, order, EVERYTHING);
    SameContentSameNamed(oidKeys, FlatTemplates(Aggregated(reports, order, EVERYTHING)), FlatClusters(reports, order, EVERYTHING), labels, cluster);
    NamedInFlat(oidKeys, reports, order, labels, cluster);
  }

  /** What a collection that does not panic sends for properly named reports. */
  lemma CollectionCountsReports(oidKeys: seq<string>, reports: ClusterReports, order: seq<string>,
      raw: seq<Metric>, grouped: seq<Metric>)
    requires ProperlyNamed(reports) && IsOrdering(order, reports.Keys)
    requires CollectedFrom(reports, order, oidKeys, raw, grouped, false)
    ensures CountsReports(oidKeys, reports, raw, grouped)
  {
    hide Emitted, ProperlyNamed, Aggregated, FlatTemplates, Unfit, HasLabels, FilterPlaced, NamedInstances, InstancesIn;
    var ps := FlatTemplates(Aggregated(reports, order, EVERYTHING));
    var rawKeys, groupedKeys :| Emitted(oidKeys, ps, raw, rawKeys, grouped, groupedKeys);
    EmittedByLabels(oidKeys, ps, raw, rawKeys, grouped, groupedKeys);
    forall m | m in grouped
      ensures m.count == |set at | at in AddressesIn(reports) && HasLabels(oidKeys, at, m.labels)|
    {
      GroupedOfReports(oidKeys, reports, order, m.labels);
    }
    forall m | m in raw
      ensures m.labels[0] in reports && m.count == InstancesIn(oidKeys, reports[m.labels[0]], m.labels[1..])
    {
      RawOfReports(oidKeys, reports, order, m.labels[1..], m.labels[0]);
    }
    ReportsAreCounted(oidKeys, reports, order, raw, grouped);
  }

  lemma ReportsAreCounted(oidKeys: seq<string>, reports: ClusterReports, order: seq<string>,
      raw: seq<Metric>, grouped: seq<Metric>)
    requires ProperlyNamed(reports) && IsOrdering(order, reports.Keys)
    requires CountsByLabels(oidKeys, FlatTemplates(Aggregated(reports, order, EVERYTHING)), raw, grouped)
    ensures forall at :: at in AddressesIn(reports) ==> exists m :: m in grouped && HasLabels(oidKeys, at, m.labels)
    ensures forall x, p :: x in reports && p in FlatTemplates(reports[x].templates) && p.instances != [] ==>
      exists m :: m in raw && IsFor(oidKeys, p.at, x, m)
  {
    hide Aggregated, FlatTemplates, HasLabels, FilterPlaced, NamedInstances, ContentOf, FlatClusters, WellFormed, IsFor;
    var ps, flat := FlatTemplates(Aggregated(reports, order, EVERYTHING)), FlatClusters(reports, order, EVERYTHING);
    AggregatedContent(reports, order, EVERYTHING);
    AddressesOfAggregate(reports, order);
    AddressesAreThose(ps);
    forall at | at in AddressesIn(reports)
      ensures exists m :: m in grouped && HasLabels(oidKeys, at, m.labels)
    {
      var p :| p in ps && p.at == at;
    }
    FlatClustersMembers(reports, order);
    forall x, p | x in reports && p in FlatTemplates(reports[x].templates) && p.instances != []
      ensures exists m :: m in raw && IsFor(oidKeys, p.at, x, m)
    {
      var v := p.instances[0];
      assert AllNamed(p.instances, x);
      assert v.clusterName == x;
      EntriesAreThose(flat, Entry(p.at, v));
      EntriesAreThose(ps, Entry(p.at, v));
      var q :| q in ps && q.at == p.at && v in q.instances;
    }
  }

  lemma {:induction false} EntriesAreThose(ps: seq<Placed>, e: Entry)
    ensures e in ContentOf(ps).entries <==> exists p :: p in ps && p.at == e.at && e.instance in p.instances
  {
    if ps != [] {
      EntriesAreThose(ps[1..], e);
      EntryIsListed(ps[0].at, ps[0].instances, e);
      assert ps == [ps[0]] + ps[1..];
    }
  }

  lemma {:induction false} EntryIsListed(at: Address, vs: seq<Violation>, e: Entry)
    ensures e in EntriesAt(at, vs) <==> at == e.at && e.instance in vs
  {
    hide EntriesAt;
    if vs == [] {
      NoEntriesAt(at);
    } else {
      EntryIsListed(at, vs[1..], e);
      assert vs == [vs[0]] + vs[1..];
      EntriesAtAppend(at, [vs[0]], vs[1..]);
      OneEntryAt(at, vs[0]);
    }
  }

  /** The same holds for what is collected from a cache whose payloads are properly named. */
  lemma CollectionFromCacheCounts(cache: Cache, listing: Listing, pulls: seq<Pull>, oidKeys: seq<string>,
      raw: seq<Metric>, grouped: seq<Metric>)
    requires NamedCache(cache) && (listing.Listed? ==> |pulls| == |listing.infos|)
    requires Collected(Available(cache, listing, pulls), oidKeys, raw, grouped, false)
    ensures CountsReports(oidKeys, Available(cache, listing, pulls), raw, grouped)
  {
    hide CollectedFrom, CountsReports, Payloads, NamedBy;
    var reports := Available(cache, listing, pulls);
    if CallSucceeds(cache, listing, pulls) {
      LoadedPayloadsAreNamed(cache, listing.infos, pulls);
    }
    var order :| IsOrdering(order, reports.Keys) && CollectedFrom(reports, order, oidKeys, raw, grouped, false);
    CollectionCountsReports(oidKeys, reports, order, raw, grouped);
  }
}
