/** What a request asks for, and that its answer is exactly that: told from the query itself. */
module Queries {
  import opened Doop
  import opened Regroup
  import opened Contents
  import opened Filters
  import opened Clusters
  import opened Canonical
  import opened Api

  /** A query variable without values asks for nothing in particular. */
  ghost predicate Allows(query: Query, key: string, value: string) {
    key in query && query[key] != [] ==> exists i :: 0 <= i < |query[key]| && query[key][i] == value
  }

  /** A key that the identity does not have counts as one with an empty value. */
  ghost predicate AllowsIdentity(query: Query, prefix: string, identity: Identity) {
    forall key :: prefix + key in query ==> Allows(query, prefix + key, if key in identity then identity[key] else "")
  }

  ghost predicate AsksFor(query: Query, at: Address) {
    && Allows(query, "template_kind", at.kind)
    && Allows(query, "constraint_name", at.name)
    && Allows(query, "severity", at.metadata.severity)
    && AllowsIdentity(query, "object_identity.", at.pattern.objectIdentity)
  }

  ghost predicate AsksForCluster(query: Query, r: ClusterReport) {
    AllowsIdentity(query, "cluster_identity.", r.clusterIdentity)
  }

  lemma MatchExactly(query: Query, key: string, value: string)
    ensures Match(Values(query, key), value) <==> Allows(query, key, value)
  {
  }

  lemma MatchIdentityExactly(query: Query, prefix: string, identity: Identity)
    ensures (forall key :: prefix + key in query ==> Match(query[prefix + key], At(identity, key)))
      <==> AllowsIdentity(query, prefix, identity)
  {
    forall key | prefix + key in query
      ensures Match(query[prefix + key], At(identity, key))
        <==> Allows(query, prefix + key, if key in identity then identity[key] else "")
    {
      MatchExactly(query, prefix + key, At(identity, key));
    }
  }

  lemma KeepsExactly(query: Query, f: FilterSet)
    requires IsFilterOf(query, f)
    ensures forall at: Address :: f.Keeps(at) <==> AsksFor(query, at)
    ensures forall r: ClusterReport :: f.MatchClusterIdentity(r.clusterIdentity) <==> AsksForCluster(query, r)
  {
    hide Match, Allows, AllowsIdentity;
    forall at: Address
      ensures f.Keeps(at) <==> AsksFor(query, at)
    {
      MatchExactly(query, "template_kind", at.kind);
      MatchExactly(query, "constraint_name", at.name);
      MatchExactly(query, "severity", at.metadata.severity);
      MatchIdentityExactly(query, "object_identity.", at.pattern.objectIdentity);
    }
    forall r: ClusterReport
      ensures f.MatchClusterIdentity(r.clusterIdentity) <==> AsksForCluster(query, r)
    {
      MatchIdentityExactly(query, "cluster_identity.", r.clusterIdentity);
    }
  }

  /** How often the clusters asked for list an instance at an address. */
  ghost function TimesListed(reports: ClusterReports, order: seq<string>, query: Query, e: Entry): nat
    requires forall x :: x in order ==> x in reports
  {
    if order == [] then 0
    else
      assert order[0] in order;
      (if AsksForCluster(query, reports[order[0]]) then ContentOfTree(reports[order[0]].templates).entries[e] else 0)
      + TimesListed(reports, order[1..], query, e)
  }

  ghost predicate SomeAskedFor(reports: ClusterReports, order: seq<string>, query: Query, at: Address) {
    exists x :: x in order && x in reports && AsksForCluster(query, reports[x]) && at in ContentOfTree(reports[x].templates).addresses
  }

  ghost predicate IsSelection(reports: ClusterReports, order: seq<string>, query: Query, c: Content)
    requires forall x :: x in order ==> x in reports
  {
    && (forall at :: at in c.addresses <==> AsksFor(query, at) && SomeAskedFor(reports, order, query, at))
    && (forall e :: c.entries[e] == if AsksFor(query, e.at) then TimesListed(reports, order, query, e) else 0)
  }

  lemma ClusterSelected(query: Query, f: FilterSet, r: ClusterReport)
    requires IsFilterOf(query, f)
    ensures
      var c, all := ContentOf(FlatCluster(r, f)), ContentOfTree(r.templates);
      && (forall at :: at in c.addresses <==> AsksFor(query, at) && AsksForCluster(query, r) && at in all.addresses)
      && (forall e :: c.entries[e] == if AsksFor(query, e.at) && AsksForCluster(query, r) then all.entries[e] else 0)
  {
    hide AsksFor, AsksForCluster, IsFilterOf, FilterPlaced, FlatTemplates, ContentOf;
    KeepsExactly(query, f);
    FilterRestricts(FlatTemplates(r.templates), f.Keeps);
    ContentOfNone();
  }

  lemma OneSelected(reports: ClusterReports, order: seq<string>, query: Query, f: FilterSet, rest: Content)
    requires order != [] && (forall x :: x in order ==> x in reports) && IsFilterOf(query, f)
    requires IsSelection(reports, order[1..], query, rest)
    ensures IsSelection(reports, order, query, ContentOf(FlatCluster(reports[order[0]], f)).Plus(rest))
  {
    hide AsksFor, AsksForCluster, IsFilterOf, FlatCluster, ContentOf, ContentOfTree;
    var x := order[0];
    ClusterSelected(query, f, reports[x]);
    assert order == [x] + order[1..];
    forall at
      ensures SomeAskedFor(reports, order, query, at) <==>
        (AsksForCluster(query, reports[x]) && at in ContentOfTree(reports[x].templates).addresses)
        || SomeAskedFor(reports, order[1..], query, at)
    {
    }
  }

  lemma {:induction false} FlatClustersSelect(reports: ClusterReports, order: seq<string>, query: Query, f: FilterSet)
    requires (forall x :: x in order ==> x in reports) && IsFilterOf(query, f)
    ensures IsSelection(reports, order, query, ContentOf(FlatClusters(reports, order, f)))
  {
    hide AsksFor, AsksForCluster, IsFilterOf, FlatCluster, ContentOf, ContentOfTree;
    if order == [] {
      ContentOfNone();
    } else {
      hide IsSelection;
      FlatClustersSelect(reports, order[1..], query, f);
      OneSelected(reports, order, query, f, ContentOf(FlatClusters(reports, order[1..], f)));
      ContentAppend(FlatCluster(reports[order[0]], f), FlatClusters(reports, order[1..], f));
    }
  }

  /** An answer has exactly the groups that the query asks for in the clusters that it asks
      for, each instance there as often as those clusters list it, in ascending order, and
      it names exactly those clusters. */
  lemma AnswersAsAsked(reports: ClusterReports, query: Query, answer: seq<Template>, identities: map<string, Identity>, order: seq<string>)
    requires AnswersQuery(reports, query, answer, identities) && IsOrdering(order, reports.Keys)
    ensures IsSelection(reports, order, query, ContentOfTree(answer)) && Ascending(answer)
    ensures forall x :: x in identities <==> x in reports && AsksForCluster(query, reports[x])
    ensures forall x :: x in identities ==> identities[x] == reports[x].clusterIdentity
  {
    hide AsksForCluster, IsFilterOf, IsAnswer, FlatClusters, ContentOf, ContentOfTree, IsSelection, Ascending;
    var f :| IsFilterOf(query, f) && IsAnswer(reports, f, answer) && identities == MatchingIdentities(reports, f);
    AnswerContent(reports, f, answer, order);
    FlatClustersSelect(reports, order, query, f);
    KeepsExactly(query, f);
  }
}
