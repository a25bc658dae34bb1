/** The specification of merging all cluster reports, for any order of visiting the clusters. */
module Clusters {
  import opened Doop
  import opened Regroup
  import opened Contents
  import opened Filters
  import opened Sorting

  type ClusterReports = map<string, ClusterReport>

  ghost predicate IsOrdering(order: seq<string>, names: set<string>) {
    && (forall x :: x in order <==> x in names)
    && Distinct(order)
  }

  /** What one cluster contributes. */
  function FlatCluster(r: ClusterReport, f: FilterSet): seq<Placed> {
    if f.MatchClusterIdentity(r.clusterIdentity) then FilterPlaced(FlatTemplates(r.templates), f.Keeps) else []
  }

  function FlatClusters(reports: ClusterReports, order: seq<string>, f: FilterSet): seq<Placed>
    requires forall x :: x in order ==> x in reports
  {
    if order == [] then []
    else
      assert order[0] in order;
      FlatCluster(reports[order[0]], f) + FlatClusters(reports, order[1..], f)
  }

  /** The aggregate for one order of visiting the clusters. */
  function Aggregated(reports: ClusterReports, order: seq<string>, f: FilterSet): seq<Template>
    requires forall x :: x in order ==> x in reports
  {
    PutAll([], FlatClusters(reports, order, f))
  }

  function MatchingIdentities(reports: ClusterReports, f: FilterSet): map<string, Identity> {
    map x | x in reports && f.MatchClusterIdentity(reports[x].clusterIdentity) :: reports[x].clusterIdentity
  }

  lemma {:induction false} FlatClustersAppend(reports: ClusterReports, a: seq<string>, b: seq<string>, f: FilterSet)
    requires forall x :: x in a + b ==> x in reports
    requires forall x :: x in a ==> x in reports
    requires forall x :: x in b ==> x in reports
    ensures FlatClusters(reports, a + b, f) == FlatClusters(reports, a, f) + FlatClusters(reports, b, f)
  {
    if a == [] {
      assert a + b == b;
    } else {
      assert (a + b)[0] == a[0] && (a + b)[1..] == a[1..] + b;
      FlatClustersAppend(reports, a[1..], b, f);
      FlattenStep(FlatCluster(reports[a[0]], f), FlatClusters(reports, a[1..], f), FlatClusters(reports, b, f));
    }
  }

  lemma FlatClusterCleared(r: ClusterReport, f: FilterSet)
    ensures AllCleared(FlatCluster(r, f))
  {
    FlatTemplatesCleared(r.templates);
    FilteredCleared(FlatTemplates(r.templates), f.Keeps);
  }

  lemma {:induction false} FlatClustersCleared(reports: ClusterReports, order: seq<string>, f: FilterSet)
    requires forall x :: x in order ==> x in reports
    ensures AllCleared(FlatClusters(reports, order, f))
  {
    if order != [] {
      FlatClusterCleared(reports[order[0]], f);
      FlatClustersCleared(reports, order[1..], f);
    }
  }

  /** The aggregate says exactly what the matching parts of the reports say. */
  lemma AggregatedContent(reports: ClusterReports, order: seq<string>, f: FilterSet)
    requires forall x :: x in order ==> x in reports
    ensures ContentOfTree(Aggregated(reports, order, f)) == ContentOf(FlatClusters(reports, order, f))
    ensures WellFormed(Aggregated(reports, order, f))
  {
    FlatClustersCleared(reports, order, f);
    MergedContent(FlatClusters(reports, order, f));
  }

  lemma {:induction false} ClustersAddUp(reports: ClusterReports, order: seq<string>, f: FilterSet, m: map<string, Content>)
    requires forall i :: 0 <= i < |order| ==> order[i] in reports && order[i] in m
    requires forall x :: x in m && x in reports ==> m[x] == ContentOf(FlatCluster(reports[x], f))
    ensures ContentOf(FlatClusters(reports, order, f)) == Sum(Mapped(order, m))
  {
    hide FlatCluster, ContentOf;
    if order == [] {
      ContentOfNone();
    } else {
      ClustersAddUp(reports, order[1..], f, m);
      ContentAppend(FlatCluster(reports[order[0]], f), FlatClusters(reports, order[1..], f));
      assert Mapped(order, m)[1..] == Mapped(order[1..], m);
    }
  }

  /** Visiting the clusters in another order does not change what the aggregate says. */
  lemma OrderDoesNotMatter(reports: ClusterReports, a: seq<string>, b: seq<string>, f: FilterSet)
    requires IsOrdering(a, reports.Keys) && IsOrdering(b, reports.Keys)
    ensures ContentOfTree(Aggregated(reports, a, f)) == ContentOfTree(Aggregated(reports, b, f))
  {
    var m := map x | x in reports :: ContentOf(FlatCluster(reports[x], f));
    ClustersAddUp(reports, a, f, m);
    ClustersAddUp(reports, b, f, m);
    OrderingsAgree(a, b, reports.Keys);
    MappedCounts(a, b, m);
    SumPermutes(Mapped(a, m), Mapped(b, m));
    AggregatedContent(reports, a, f);
    AggregatedContent(reports, b, f);
  }

  lemma MoveToFront(reports: ClusterReports, before: seq<string>, x: string, after: seq<string>, f: FilterSet)
    requires x in reports
    requires forall y :: y in before ==> y in reports
    requires forall y :: y in after ==> y in reports
    requires forall y :: y in before + [x] + after ==> y in reports
    ensures FlatClusters(reports, before + [x] + after, f)
      == FlatClusters(reports, before, f) + FlatCluster(reports[x], f) + FlatClusters(reports, after, f)
  {
    FlatClustersAppend(reports, before + [x], after, f);
    FlatClustersAppend(reports, before, [x], f);
    assert FlatClusters(reports, [x][1..], f) == [];
    assert FlatClusters(reports, [x], f) == FlatCluster(reports[x], f);
  }

  lemma OrderingsAgree(a: seq<string>, b: seq<string>, names: set<string>)
    requires IsOrdering(a, names) && IsOrdering(b, names)
    ensures multiset(a) == multiset(b)
  {
    forall x
      ensures multiset(a)[x] == multiset(b)[x]
    {
      DistinctCounts(a, x);
      DistinctCounts(b, x);
    }
  }

  // ----- filtering the aggregate -----

  /** The clusters whose identity matches. */
  function Selected(reports: ClusterReports, order: seq<string>, f: FilterSet): (r: seq<string>)
    requires forall x :: x in order ==> x in reports
    ensures forall x :: x in r <==> x in order && f.MatchClusterIdentity(reports[x].clusterIdentity)
  {
    if order == [] then []
    else
      assert order[0] in order;
      (if f.MatchClusterIdentity(reports[order[0]].clusterIdentity) then [order[0]] else [])
        + Selected(reports, order[1..], f)
  }

  lemma FlatClusterUnfiltered(r: ClusterReport)
    ensures FlatCluster(r, EVERYTHING) == FlatTemplates(r.templates)
  {
    FilterEvery(FlatTemplates(r.templates), EVERYTHING.Keeps);
  }

  lemma {:induction false} FilterWholeClusters(reports: ClusterReports, order: seq<string>, f: FilterSet)
    requires forall x :: x in order ==> x in reports
    ensures FlatClusters(reports, order, f)
      == FilterPlaced(FlatClusters(reports, Selected(reports, order, f), EVERYTHING), f.Keeps)
  {
    if order != [] {
      var x, rest := order[0], Selected(reports, order[1..], f);
      FilterWholeClusters(reports, order[1..], f);
      if f.MatchClusterIdentity(reports[x].clusterIdentity) {
        FlatClusterUnfiltered(reports[x]);
        assert ([x] + rest)[0] == x && ([x] + rest)[1..] == rest;
        FilterAppend(FlatCluster(reports[x], EVERYTHING), FlatClusters(reports, rest, EVERYTHING), f.Keeps);
      } else {
        assert Selected(reports, order, f) == rest;
      }
    }
  }

  /** Aggregating with a filter says the same as aggregating the matching clusters without one
      and then dropping what does not match and what became empty. */
  lemma FilteringTheAggregate(reports: ClusterReports, order: seq<string>, f: FilterSet)
    requires forall x :: x in order ==> x in reports
    ensures ContentOfTree(Aggregated(reports, order, f))
      == ContentOfTree(KeepTemplates(Aggregated(reports, Selected(reports, order, f), EVERYTHING), f))
    ensures WellFormed(Aggregated(reports, order, f))
    ensures WellFormed(KeepTemplates(Aggregated(reports, Selected(reports, order, f), EVERYTHING), f))
  {
    var all := FlatClusters(reports, Selected(reports, order, f), EVERYTHING);
    FilterWholeClusters(reports, order, f);
    FlatClustersCleared(reports, Selected(reports, order, f), EVERYTHING);
    hide FlatClusters, ContentOfTree, WellFormed, PutAll, KeepTemplates, FilterPlaced;
    FilteringCommutes(all, f);
  }

  // ----- two values for one key of the cluster identity -----

  lemma PlusExchange(a: Content, b: Content, c: Content, d: Content)
    ensures a.Plus(b).Plus(c.Plus(d)) == a.Plus(c).Plus(b.Plus(d))
  {
  }

  function ForCluster(f: FilterSet, key: string, values: Filter): FilterSet {
    f.(clusterIdentity := f.clusterIdentity[key := values])
  }

  lemma OneOfTwoClusterValues(r: ClusterReport, f: FilterSet, key: string, a: string, b: string)
    requires a != b
    ensures ContentOf(FlatCluster(r, ForCluster(f, key, [a, b])))
      == ContentOf(FlatCluster(r, ForCluster(f, key, [a]))).Plus(ContentOf(FlatCluster(r, ForCluster(f, key, [b]))))
  {
    hide ContentOf, FilterPlaced, MatchAll;
    assert ContentOf([]) == Content({}, multiset{}) by { ContentOfNone(); }
    MatchAllUpdated(f.clusterIdentity, key, [a, b], r.clusterIdentity);
    MatchAllUpdated(f.clusterIdentity, key, [a], r.clusterIdentity);
    MatchAllUpdated(f.clusterIdentity, key, [b], r.clusterIdentity);
    var flat := FlatTemplates(r.templates);
    SameKeeps(flat, ForCluster(f, key, [a, b]), ForCluster(f, key, [a]));
    SameKeeps(flat, ForCluster(f, key, [a, b]), ForCluster(f, key, [b]));
    NothingPlus(ContentOf(FilterPlaced(flat, ForCluster(f, key, [b]).Keeps)));
    PlusNothing(ContentOf(FilterPlaced(flat, ForCluster(f, key, [a]).Keeps)));
    NothingPlus(Content({}, multiset{}));
  }

  lemma ContentOfNone()
    ensures ContentOf([]) == Content({}, multiset{})
  {
  }

  lemma {:induction false} SameKeeps(ps: seq<Placed>, f: FilterSet, g: FilterSet)
    requires f == g.(clusterIdentity := f.clusterIdentity)
    ensures FilterPlaced(ps, f.Keeps) == FilterPlaced(ps, g.Keeps)
  {
    if ps != [] {
      SameKeeps(ps[1..], f, g);
    }
  }

  /** Two values for one key of the cluster identity give the groups of both single results
      and, as every cluster matches only one of the values, the sum of their instances. */
  lemma {:induction false} TwoClusterIdentityValues(reports: ClusterReports, order: seq<string>, f: FilterSet, key: string,
      a: string, b: string)
    requires a != b && forall x :: x in order ==> x in reports
    ensures ContentOfTree(Aggregated(reports, order, ForCluster(f, key, [a, b])))
      == ContentOfTree(Aggregated(reports, order, ForCluster(f, key, [a])))
        .Plus(ContentOfTree(Aggregated(reports, order, ForCluster(f, key, [b]))))
  {
    hide Aggregated, ContentOf, ContentOfTree, FlatClusters;
    TwoValuesOfFlatClusters(reports, order, f, key, a, b);
    AggregatedContent(reports, order, ForCluster(f, key, [a, b]));
    AggregatedContent(reports, order, ForCluster(f, key, [a]));
    AggregatedContent(reports, order, ForCluster(f, key, [b]));
  }

  lemma {:induction false} TwoValuesOfFlatClusters(reports: ClusterReports, order: seq<string>, f: FilterSet, key: string,
      a: string, b: string)
    requires a != b && forall x :: x in order ==> x in reports
    ensures ContentOf(FlatClusters(reports, order, ForCluster(f, key, [a, b])))
      == ContentOf(FlatClusters(reports, order, ForCluster(f, key, [a])))
        .Plus(ContentOf(FlatClusters(reports, order, ForCluster(f, key, [b]))))
  {
    if order == [] {
      ContentOfNone();
    } else {
      TwoValuesOfFlatClusters(reports, order[1..], f, key, a, b);
      FirstCluster(reports, order, ForCluster(f, key, [a, b]));
      FirstCluster(reports, order, ForCluster(f, key, [a]));
      FirstCluster(reports, order, ForCluster(f, key, [b]));
      hide ContentOf, FlatCluster, FlatClusters, ForCluster;
      OneOfTwoClusterValues(reports[order[0]], f, key, a, b);
      PlusExchange(
        ContentOf(FlatCluster(reports[order[0]], ForCluster(f, key, [a]))),
        ContentOf(FlatCluster(reports[order[0]], ForCluster(f, key, [b]))),
        ContentOf(FlatClusters(reports, order[1..], ForCluster(f, key, [a]))),
        ContentOf(FlatClusters(reports, order[1..], ForCluster(f, key, [b]))));
    }
  }

  lemma FirstCluster(reports: ClusterReports, order: seq<string>, f: FilterSet)
    requires order != [] && forall x :: x in order ==> x in reports
    ensures ContentOf(FlatClusters(reports, order, f))
      == ContentOf(FlatCluster(reports[order[0]], f)).Plus(ContentOf(FlatClusters(reports, order[1..], f)))
  {
    ContentAppend(FlatCluster(reports[order[0]], f), FlatClusters(reports, order[1..], f));
  }
}
