/** Well-formed reports with the same contents are the same up to the order of their lists. */
module Rearranging {
  import opened Text
  import opened Doop
  import opened Regroup
  import opened Contents
  import opened Filters
  import opened Sorting
  import opened Clusters
  import opened Canonical
  import opened Canonicity

  // ----- equality up to order: each list rearranged, its elements rearranged within -----

  ghost predicate GroupRearranged(g: Group, h: Group) {
    h.pattern == g.pattern && multiset(h.instances) == multiset(g.instances)
  }

  ghost predicate GroupsMatched(gs: seq<Group>, mid: seq<Group>, hs: seq<Group>) {
    && multiset(mid) == multiset(gs)
    && |mid| == |hs|
    && forall i :: 0 <= i < |mid| ==> GroupRearranged(mid[i], hs[i])
  }

  ghost predicate ConstraintRearranged(c: Constraint, d: Constraint) {
    && d == c.(groups := d.groups)
    && exists mid :: GroupsMatched(c.groups, mid, d.groups)
  }

  ghost predicate ConstraintsMatched(cs: seq<Constraint>, mid: seq<Constraint>, ds: seq<Constraint>) {
    && multiset(mid) == multiset(cs)
    && |mid| == |ds|
    && forall i :: 0 <= i < |mid| ==> ConstraintRearranged(mid[i], ds[i])
  }

  ghost predicate TemplateRearranged(t: Template, u: Template) {
    && u.kind == t.kind
    && exists mid :: ConstraintsMatched(t.constraints, mid, u.constraints)
  }

  ghost predicate TemplatesMatched(ts: seq<Template>, mid: seq<Template>, us: seq<Template>) {
    && multiset(mid) == multiset(ts)
    && |mid| == |us|
    && forall i :: 0 <= i < |mid| ==> TemplateRearranged(mid[i], us[i])
  }

  ghost predicate Rearranged(ts: seq<Template>, us: seq<Template>) {
    exists mid :: TemplatesMatched(ts, mid, us)
  }

  // ----- matching two lists by their keys -----

  ghost predicate DistinctBy<T, K>(s: seq<T>, key: T -> K) {
    forall i, j :: 0 <= i < j < |s| ==> key(s[i]) != key(s[j])
  }

  ghost predicate Occurs<T, K>(s: seq<T>, key: T -> K, k: K) {
    exists i :: 0 <= i < |s| && key(s[i]) == k
  }

  ghost function Pick<T, K>(s: seq<T>, key: T -> K, k: K): (x: T)
    requires Occurs(s, key, k)
    ensures x in s && key(x) == k
  {
    var i :| 0 <= i < |s| && key(s[i]) == k;
    s[i]
  }

  /** Lists with distinct and equal sets of keys can be matched element by element. */
  lemma MatchByKey<T(!new), K>(s: seq<T>, r: seq<T>, key: T -> K) returns (mid: seq<T>)
    requires DistinctBy(s, key) && DistinctBy(r, key)
    requires forall i :: 0 <= i < |s| ==> Occurs(r, key, key(s[i]))
    requires forall i :: 0 <= i < |r| ==> Occurs(s, key, key(r[i]))
    ensures multiset(mid) == multiset(s) && |mid| == |r|
    ensures forall i :: 0 <= i < |r| ==> mid[i] in s && key(mid[i]) == key(r[i])
  {
    mid := seq(|r|, i requires 0 <= i < |r| => Pick(s, key, key(r[i])));
    assert DistinctBy(mid, key);
    forall x
      ensures multiset(mid)[x] == multiset(s)[x]
    {
      if x in s {
        var i :| 0 <= i < |s| && s[i] == x;
        var j :| 0 <= j < |r| && key(r[j]) == key(s[i]);
        SameKeySameElement(s, key, x, mid[j]);
      }
      DistinctByCounts(mid, key, x);
      DistinctByCounts(s, key, x);
    }
  }

  lemma SameKeySameElement<T, K>(s: seq<T>, key: T -> K, x: T, y: T)
    requires DistinctBy(s, key) && x in s && y in s && key(x) == key(y)
    ensures x == y
  {
    var i :| 0 <= i < |s| && s[i] == x;
    var j :| 0 <= j < |s| && s[j] == y;
  }

  lemma DistinctByCounts<T, K>(s: seq<T>, key: T -> K, x: T)
    requires DistinctBy(s, key)
    ensures multiset(s)[x] == if x in s then 1 else 0
  {
    assert Distinct(s);
    DistinctCounts(s, x);
  }

  // ----- the contents determine the tree up to order -----

  lemma SameGroupsRearranged(kind: string, c: Constraint, d: Constraint)
    requires WellFormedConstraint(c) && WellFormedConstraint(d) && d.name == c.name && d.metadata == c.metadata
    requires ContentOf(FlatConstraint(kind, c)) == ContentOf(FlatConstraint(kind, d))
    ensures ConstraintRearranged(c, d)
  {
    hide ContentOf, FlatConstraint, FlatGroups;
    var key := (g: Group) => g.pattern;
    assert FlatConstraint(kind, c) == FlatGroups(kind, c.name, c.metadata, c.groups) by { FlatConstraintIs(kind, c); }
    assert FlatConstraint(kind, d) == FlatGroups(kind, d.name, d.metadata, d.groups) by { FlatConstraintIs(kind, d); }
    PatternsOccur(kind, c.name, c.metadata, c.groups, d.groups);
    PatternsOccur(kind, c.name, c.metadata, d.groups, c.groups);
    var mid := MatchByKey(c.groups, d.groups, key);
    forall i | 0 <= i < |mid|
      ensures GroupRearranged(mid[i], d.groups[i])
    {
      var j :| 0 <= j < |c.groups| && c.groups[j] == mid[i];
      SameGroupRearranged(kind, c, d, j, i);
    }
    assert GroupsMatched(c.groups, mid, d.groups);
  }

  lemma FlatConstraintIs(kind: string, c: Constraint)
    ensures FlatConstraint(kind, c) == FlatGroups(kind, c.name, c.metadata, c.groups)
  {
  }

  lemma PatternsOccur(kind: string, name: string, metadata: Metadata, gs: seq<Group>, hs: seq<Group>)
    requires ContentOf(FlatGroups(kind, name, metadata, gs)) == ContentOf(FlatGroups(kind, name, metadata, hs))
    ensures forall i :: 0 <= i < |gs| ==> Occurs(hs, (g: Group) => g.pattern, gs[i].pattern)
  {
    hide ContentOf, FlatGroups;
    PatternsReappear(kind, name, metadata, gs, hs);
    forall i | 0 <= i < |gs|
      ensures Occurs(hs, (g: Group) => g.pattern, gs[i].pattern)
    {
      assert Patterns(gs)[i] == gs[i].pattern && Patterns(gs)[i] in Patterns(gs);
      var j :| 0 <= j < |hs| && Patterns(hs)[j] == gs[i].pattern;
      assert hs[j].pattern == gs[i].pattern;
    }
  }

  lemma SameGroupRearranged(kind: string, c: Constraint, d: Constraint, i: nat, j: nat)
    requires WellFormedConstraint(c) && WellFormedConstraint(d) && d.name == c.name && d.metadata == c.metadata
    requires ContentOf(FlatConstraint(kind, c)) == ContentOf(FlatConstraint(kind, d))
    requires i < |c.groups| && j < |d.groups| && c.groups[i].pattern == d.groups[j].pattern
    ensures GroupRearranged(c.groups[i], d.groups[j])
  {
    hide ContentOf;
    var ps, qs := FlatConstraint(kind, c), FlatConstraint(kind, d);
    SameGroupContent(ps, qs, i, j);
    SameInstances(ps[i].at, ps[i].instances, qs[j].instances);
  }

  lemma SameConstraintsRearranged(t: Template, u: Template)
    requires WellFormedConstraints(t.constraints) && WellFormedConstraints(u.constraints) && u.kind == t.kind
    requires ContentOf(FlatTemplate(t)) == ContentOf(FlatTemplate(u))
    ensures TemplateRearranged(t, u)
  {
    var key := (c: Constraint) => (c.name, c.metadata);
    var cs, ds := t.constraints, u.constraints;
    assert DistinctBy(cs, key) && DistinctBy(ds, key);
    hide ContentOf, FlatConstraints, FlatConstraint, WellFormedConstraint, ConstraintRearranged;
    ConstraintsOccur(t.kind, cs, ds);
    ConstraintsOccur(t.kind, ds, cs);
    var mid := MatchByKey(cs, ds, key);
    forall i | 0 <= i < |mid|
      ensures ConstraintRearranged(mid[i], ds[i])
    {
      var j :| 0 <= j < |cs| && cs[j] == mid[i];
      SameConstraintContent(t.kind, cs, ds, j, i);
      SameGroupsRearranged(t.kind, cs[j], ds[i]);
    }
    assert ConstraintsMatched(cs, mid, ds);
  }

  lemma ConstraintsOccur(kind: string, cs: seq<Constraint>, ds: seq<Constraint>)
    requires WellFormedConstraints(cs) && WellFormedConstraints(ds)
    requires ContentOf(FlatConstraints(kind, cs)) == ContentOf(FlatConstraints(kind, ds))
    ensures forall i :: 0 <= i < |cs| ==> Occurs(ds, (c: Constraint) => (c.name, c.metadata), (cs[i].name, cs[i].metadata))
  {
    hide ContentOf, FlatConstraints;
    forall i | 0 <= i < |cs|
      ensures Occurs(ds, (c: Constraint) => (c.name, c.metadata), (cs[i].name, cs[i].metadata))
    {
      ConstraintReappears(kind, cs, ds, i);
      var k :| 0 <= k < |ds| && ds[k].name == cs[i].name && ds[k].metadata.Cleared() == cs[i].metadata.Cleared();
      assert WellFormedConstraint(cs[i]) && WellFormedConstraint(ds[k]);
      assert ds[k].metadata == cs[i].metadata;
    }
  }

  /** Well-formed reports say the same exactly when they are the same up to order. */
  lemma SameContentsExactlyUpToOrder(ts: seq<Template>, us: seq<Template>)
    requires WellFormed(ts) && WellFormed(us)
    ensures ContentOfTree(ts) == ContentOfTree(us) <==> Rearranged(ts, us)
  {
    hide ContentOfTree, WellFormed, Rearranged;
    if ContentOfTree(ts) == ContentOfTree(us) {
      SameTemplatesRearranged(ts, us);
    }
    if Rearranged(ts, us) {
      RearrangedContent(ts, us);
    }
  }

  lemma SameTemplatesRearranged(ts: seq<Template>, us: seq<Template>)
    requires WellFormed(ts) && WellFormed(us) && ContentOfTree(ts) == ContentOfTree(us)
    ensures Rearranged(ts, us)
  {
    hide ContentOf, ContentOfTree, FlatTemplate, WellFormedConstraints, TemplateRearranged;
    var key := (t: Template) => t.kind;
    KindsOccur(ts, us);
    KindsOccur(us, ts);
    var mid := MatchByKey(ts, us, key);
    forall i | 0 <= i < |mid|
      ensures TemplateRearranged(mid[i], us[i])
    {
      var j :| 0 <= j < |ts| && ts[j] == mid[i];
      SameTemplateContent(ts, us, j, i);
      SameConstraintsRearranged(ts[j], us[i]);
    }
    assert TemplatesMatched(ts, mid, us);
  }

  lemma KindsOccur(ts: seq<Template>, us: seq<Template>)
    requires WellFormed(ts) && ContentOfTree(ts) == ContentOfTree(us)
    ensures forall i :: 0 <= i < |ts| ==> Occurs(us, (t: Template) => t.kind, ts[i].kind)
  {
    hide ContentOfTree, WellFormed;
    forall i | 0 <= i < |ts|
      ensures Occurs(us, (t: Template) => t.kind, ts[i].kind)
    {
      TemplateReappears(ts, us, i);
      var k :| 0 <= k < |us| && us[k].kind == ts[i].kind;
    }
  }

  // ----- rearranging keeps the contents -----

  lemma {:induction false} GroupsKeepContent(kind: string, name: string, metadata: Metadata, mid: seq<Group>, hs: seq<Group>)
    requires |hs| == |mid| && forall i :: 0 <= i < |mid| ==> GroupRearranged(mid[i], hs[i])
    ensures ContentOf(FlatGroups(kind, name, metadata, hs)) == ContentOf(FlatGroups(kind, name, metadata, mid))
  {
    if mid != [] {
      assert GroupRearranged(mid[0], hs[0]);
      EntriesAtPermute(Address(kind, name, metadata.Cleared(), mid[0].pattern), mid[0].instances, hs[0].instances);
      GroupsKeepContent(kind, name, metadata, mid[1..], hs[1..]);
      assert FlatGroups(kind, name, metadata, hs)[1..] == FlatGroups(kind, name, metadata, hs[1..]);
      assert FlatGroups(kind, name, metadata, mid)[1..] == FlatGroups(kind, name, metadata, mid[1..]);
    }
  }

  lemma ConstraintKeepsContent(kind: string, c: Constraint, d: Constraint)
    requires ConstraintRearranged(c, d)
    ensures ContentOf(FlatConstraint(kind, d)) == ContentOf(FlatConstraint(kind, c))
  {
    hide ContentOf;
    var mid: seq<Group> :| GroupsMatched(c.groups, mid, d.groups);
    GroupsPermuteContent(kind, c.name, c.metadata, c.groups, mid);
    GroupsKeepContent(kind, c.name, c.metadata, mid, d.groups);
  }

  lemma {:induction false} ConstraintsKeepContent(kind: string, mid: seq<Constraint>, ds: seq<Constraint>)
    requires |ds| == |mid| && forall i :: 0 <= i < |mid| ==> ConstraintRearranged(mid[i], ds[i])
    ensures ContentOf(FlatConstraints(kind, ds)) == ContentOf(FlatConstraints(kind, mid))
  {
    hide ContentOf, FlatConstraint, FlatConstraints, ConstraintRearranged;
    FirstConstraintContent(kind, mid);
    FirstConstraintContent(kind, ds);
    if mid != [] {
      ConstraintKeepsContent(kind, mid[0], ds[0]);
      ConstraintsKeepContent(kind, mid[1..], ds[1..]);
    }
  }

  lemma TemplateKeepsContent(t: Template, u: Template)
    requires TemplateRearranged(t, u)
    ensures ContentOf(FlatTemplate(u)) == ContentOf(FlatTemplate(t))
  {
    hide ContentOf, FlatConstraints;
    var mid: seq<Constraint> :| ConstraintsMatched(t.constraints, mid, u.constraints);
    ConstraintsPermuteContent(t.kind, t.constraints, mid);
    ConstraintsKeepContent(t.kind, mid, u.constraints);
  }

  lemma {:induction false} TemplatesKeepContent(mid: seq<Template>, us: seq<Template>)
    requires |us| == |mid| && forall i :: 0 <= i < |mid| ==> TemplateRearranged(mid[i], us[i])
    ensures ContentOfTree(us) == ContentOfTree(mid)
  {
    hide ContentOf, FlatTemplate, ContentOfTree, TemplateRearranged;
    FirstTemplateContent(mid);
    FirstTemplateContent(us);
    if mid != [] {
      TemplateKeepsContent(mid[0], us[0]);
      TemplatesKeepContent(mid[1..], us[1..]);
    }
  }

  lemma RearrangedContent(ts: seq<Template>, us: seq<Template>)
    requires Rearranged(ts, us)
    ensures ContentOfTree(us) == ContentOfTree(ts)
  {
    hide ContentOfTree, TemplateRearranged;
    var mid: seq<Template> :| TemplatesMatched(ts, mid, us);
    TemplatesPermuteContent(ts, mid);
    TemplatesKeepContent(mid, us);
  }

  // ----- the possible results of sorting -----

  lemma ConstraintRearrangedInOrder(c: Constraint, d: Constraint)
    requires ConstraintRearranged(c, d) && GroupsInOrder(d.groups)
    ensures ConstraintSorted(c, d)
  {
    hide ByViolation;
    var mid: seq<Group> :| GroupsMatched(c.groups, mid, d.groups);
    assert forall i :: 0 <= i < |mid| ==> GroupRearranged(mid[i], d.groups[i]) && GroupSorted(mid[i], d.groups[i]);
    assert GroupsArranged(c.groups, mid, d.groups);
  }

  lemma TemplateRearrangedInOrder(t: Template, u: Template)
    requires TemplateRearranged(t, u) && ConstraintsInOrder(u.constraints)
    ensures TemplateSorted(t, u)
  {
    hide Compare, ConstraintSorted, GroupsInOrder;
    var mid: seq<Constraint> :| ConstraintsMatched(t.constraints, mid, u.constraints);
    forall i | 0 <= i < |mid|
      ensures ConstraintSorted(mid[i], u.constraints[i])
    {
      ConstraintRearrangedInOrder(mid[i], u.constraints[i]);
    }
    assert ConstraintsArranged(t.constraints, mid, u.constraints);
  }

  lemma RearrangedInOrder(ts: seq<Template>, us: seq<Template>)
    requires Rearranged(ts, us) && InOrder(us)
    ensures TreeSortedInto(ts, us)
  {
    hide Compare, TemplateSorted, ConstraintsInOrder;
    var mid: seq<Template> :| TemplatesMatched(ts, mid, us);
    forall i | 0 <= i < |mid|
      ensures TemplateSorted(mid[i], us[i])
    {
      TemplateRearrangedInOrder(mid[i], us[i]);
    }
    assert TemplatesArranged(ts, mid, us);
  }

  /** Sorting a well-formed report may give exactly the well-formed reports in order that say
      the same. So reports that say the same have the same sorted results. */
  lemma SortedResultsExactly(ts: seq<Template>, us: seq<Template>)
    requires WellFormed(ts)
    ensures TreeSortedInto(ts, us) <==> WellFormed(us) && InOrder(us) && ContentOfTree(us) == ContentOfTree(ts)
  {
    hide ContentOfTree, WellFormed, Rearranged, TreeSortedInto, InOrder;
    if TreeSortedInto(ts, us) {
      SortingRearranges(ts, us);
    }
    if WellFormed(us) && InOrder(us) && ContentOfTree(us) == ContentOfTree(ts) {
      SameContentsExactlyUpToOrder(ts, us);
      RearrangedInOrder(ts, us);
    }
  }

  // ----- filtering -----

  /** Merging what passes the filter gives, up to order, what is left of merging everything
      when the groups that do not match and the parents they leave empty are dropped. */
  lemma FilteringCommutesUpToOrder(ps: seq<Placed>, f: FilterSet)
    requires AllCleared(ps)
    ensures Rearranged(KeepTemplates(PutAll([], ps), f), PutAll([], FilterPlaced(ps, f.Keeps)))
  {
    hide ContentOfTree, WellFormed, Rearranged, PutAll, KeepTemplates, FilterPlaced;
    FilteringCommutes(ps, f);
    SameContentsExactlyUpToOrder(KeepTemplates(PutAll([], ps), f), PutAll([], FilterPlaced(ps, f.Keeps)));
  }

  /** The same for reports: filtering while aggregating is, up to order, aggregating the
      matching clusters unfiltered and then dropping. */
  lemma FilteringTheAggregateUpToOrder(reports: ClusterReports, order: seq<string>, f: FilterSet)
    requires forall x :: x in order ==> x in reports
    ensures Rearranged(KeepTemplates(Aggregated(reports, Selected(reports, order, f), EVERYTHING), f),
      Aggregated(reports, order, f))
  {
    hide ContentOfTree, WellFormed, Rearranged, Aggregated, KeepTemplates;
    FilteringTheAggregate(reports, order, f);
    SameContentsExactlyUpToOrder(KeepTemplates(Aggregated(reports, Selected(reports, order, f), EVERYTHING), f),
      Aggregated(reports, order, f));
  }
}
