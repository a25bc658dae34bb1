/** The other direction of canonicity: a tie always leaves sorting a choice, and the choice
    can depend on the order in which the clusters were visited. */
module Ties {
  import opened Text
  import opened Doop
  import opened Regroup
  import opened Contents
  import opened Filters
  import opened Sorting
  import opened Clusters
  import opened Canonical
  import opened Canonicity

  function Swapped<T>(s: seq<T>, i: nat, j: nat): (r: seq<T>)
    requires i < |s| && j < |s|
    ensures |r| == |s|
  {
    s[i := s[j]][j := s[i]]
  }

  // ----- sorting may give another result -----

  /** Whatever sorts into t may sort into u instead. */
  ghost predicate TemplateMayBe(t: Template, u: Template) {
    forall m :: TemplateSorted(m, t) ==> TemplateSorted(m, u)
  }

  ghost predicate ConstraintMayBe(c: Constraint, d: Constraint) {
    forall m :: ConstraintSorted(m, c) ==> ConstraintSorted(m, d)
  }

  ghost predicate GroupMayBe(g: Group, h: Group) {
    forall m :: GroupSorted(m, g) ==> GroupSorted(m, h)
  }

  lemma ReplaceTemplate(agg: seq<Template>, ts: seq<Template>, t: nat, u: Template)
    requires TreeSortedInto(agg, ts) && t < |ts| && TemplateMayBe(ts[t], u)
    ensures TreeSortedInto(agg, ts[t := u])
  {
    hide TemplateSorted;
    var mid: seq<Template> :| TemplatesArranged(agg, mid, ts);
    assert TemplatesArranged(agg, mid, ts[t := u]);
  }

  lemma ReplaceConstraint(t: Template, i: nat, c: Constraint)
    requires i < |t.constraints| && ConstraintMayBe(t.constraints[i], c)
    ensures TemplateMayBe(t, t.(constraints := t.constraints[i := c]))
  {
    hide ConstraintSorted;
    var u := t.(constraints := t.constraints[i := c]);
    forall m | TemplateSorted(m, t)
      ensures TemplateSorted(m, u)
    {
      var mid: seq<Constraint> :| ConstraintsArranged(m.constraints, mid, t.constraints);
      assert ConstraintsArranged(m.constraints, mid, u.constraints);
    }
  }

  lemma ReplaceGroup(c: Constraint, g: nat, h: Group)
    requires g < |c.groups| && GroupMayBe(c.groups[g], h)
    ensures ConstraintMayBe(c, c.(groups := c.groups[g := h]))
  {
    hide GroupSorted;
    var d := c.(groups := c.groups[g := h]);
    forall m | ConstraintSorted(m, c)
      ensures ConstraintSorted(m, d)
    {
      var mid: seq<Group> :| GroupsArranged(m.groups, mid, c.groups);
      assert GroupsArranged(m.groups, mid, d.groups);
    }
  }

  // ----- the three kinds of ties -----

  lemma SwapConstraints(t: Template, i: nat, j: nat)
    requires i < |t.constraints| && j < |t.constraints| && i != j && t.constraints[i].name == t.constraints[j].name
    ensures TemplateMayBe(t, t.(constraints := Swapped(t.constraints, i, j)))
  {
    var u := t.(constraints := Swapped(t.constraints, i, j));
    forall m | TemplateSorted(m, t)
      ensures TemplateSorted(m, u)
    {
      var mid: seq<Constraint> :| ConstraintsArranged(m.constraints, mid, t.constraints);
      SwapArrangedConstraints(m.constraints, mid, t.constraints, i, j);
    }
  }

  lemma SwapArrangedConstraints(cs: seq<Constraint>, mid: seq<Constraint>, cs': seq<Constraint>, i: nat, j: nat)
    requires ConstraintsArranged(cs, mid, cs') && i < |cs'| && j < |cs'| && i != j && cs'[i].name == cs'[j].name
    ensures ConstraintsArranged(cs, Swapped(mid, i, j), Swapped(cs', i, j))
  {
    SwapKeepsContents(mid, i, j);
    assert ConstraintSorted(mid[i], cs'[i]) && ConstraintSorted(mid[j], cs'[j]);
    hide ConstraintSorted, Compare;
    SwappedNamesInOrder(mid, i, j);
    forall k | 0 <= k < |mid|
      ensures ConstraintSorted(Swapped(mid, i, j)[k], Swapped(cs', i, j)[k])
    {
      assert ConstraintSorted(mid[k], cs'[k]);
    }
  }

  lemma SwappedNamesInOrder(mid: seq<Constraint>, i: nat, j: nat)
    requires forall k, l :: 0 <= k < l < |mid| ==> Compare(mid[k].name, mid[l].name) <= 0
    requires i < |mid| && j < |mid| && mid[i].name == mid[j].name
    ensures
      var s := Swapped(mid, i, j);
      forall k, l :: 0 <= k < l < |s| ==> Compare(s[k].name, s[l].name) <= 0
  {
    hide Compare;
    var s := Swapped(mid, i, j);
    assert forall k :: 0 <= k < |s| ==> s[k].name == mid[k].name;
  }

  lemma SwapGroups(c: Constraint, g: nat, h: nat)
    requires g < |c.groups| && h < |c.groups| && g != h
    requires ByViolation(c.groups[g].pattern, c.groups[h].pattern) == 0
    ensures ConstraintMayBe(c, c.(groups := Swapped(c.groups, g, h)))
  {
    var d := c.(groups := Swapped(c.groups, g, h));
    forall m | ConstraintSorted(m, c)
      ensures ConstraintSorted(m, d)
    {
      var mid: seq<Group> :| GroupsArranged(m.groups, mid, c.groups);
      SwapArrangedGroups(m.groups, mid, c.groups, g, h);
    }
  }

  lemma SwapArrangedGroups(gs: seq<Group>, mid: seq<Group>, gs': seq<Group>, g: nat, h: nat)
    requires GroupsArranged(gs, mid, gs') && g < |gs'| && h < |gs'| && g != h
    requires ByViolation(gs'[g].pattern, gs'[h].pattern) == 0
    ensures GroupsArranged(gs, Swapped(mid, g, h), Swapped(gs', g, h))
  {
    SwapKeepsContents(mid, g, h);
    assert GroupSorted(mid[g], gs'[g]) && GroupSorted(mid[h], gs'[h]);
    hide GroupSorted, ByViolation;
    SwappedPatternsInOrder(mid, g, h);
    forall k | 0 <= k < |mid|
      ensures GroupSorted(Swapped(mid, g, h)[k], Swapped(gs', g, h)[k])
    {
      assert GroupSorted(mid[k], gs'[k]);
    }
  }

  lemma SwappedPatternsInOrder(mid: seq<Group>, g: nat, h: nat)
    requires forall i, j :: 0 <= i < j < |mid| ==> ByViolation(mid[i].pattern, mid[j].pattern) <= 0
    requires g < |mid| && h < |mid| && g != h && ByViolation(mid[g].pattern, mid[h].pattern) == 0
    ensures
      var s := Swapped(mid, g, h);
      forall i, j :: 0 <= i < j < |s| ==> ByViolation(s[i].pattern, s[j].pattern) <= 0
  {
    hide TotalPreorder;
    CompareToFlips(mid[g].pattern, mid[h].pattern);
    OrdersArePreorders();
    SwapKeepsSorted(Patterns(mid), g, h, ByViolation);
    var s := Swapped(mid, g, h);
    assert Patterns(s) == Patterns(mid)[g := Patterns(mid)[h]][h := Patterns(mid)[g]];
    assert forall k :: 0 <= k < |s| ==> s[k].pattern == Patterns(s)[k];
  }

  lemma SwapInstances(g: Group, v: nat, w: nat)
    requires v < |g.instances| && w < |g.instances| && v != w && ByViolation(g.instances[v], g.instances[w]) == 0
    ensures GroupMayBe(g, g.(instances := Swapped(g.instances, v, w)))
  {
    hide ByViolation, TotalPreorder;
    var h := g.(instances := Swapped(g.instances, v, w));
    SwapKeepsContents(g.instances, v, w);
    TiesFlip(g.instances[v], g.instances[w]);
    OrdersArePreorders();
    forall m | GroupSorted(m, g)
      ensures GroupSorted(m, h)
    {
      SwapKeepsSorted(g.instances, v, w, ByViolation);
    }
  }

  lemma TiesFlip(v: Violation, w: Violation)
    requires ByViolation(v, w) == 0
    ensures ByViolation(w, v) == 0
  {
    CompareToFlips(v, w);
  }

  // ----- finding a tie in the tree -----

  lemma Locate(ts: seq<Template>, a: Address) returns (t: nat, i: nat, g: nat)
    requires WellFormed(ts) && a in ContentOfTree(ts).addresses
    ensures t < |ts| && ts[t].kind == a.kind
    ensures i < |ts[t].constraints| && ts[t].constraints[i].name == a.name && ts[t].constraints[i].metadata == a.metadata
    ensures g < |ts[t].constraints[i].groups| && ts[t].constraints[i].groups[g].pattern == a.pattern
  {
    hide ContentOf, FlatConstraints, ContentOfTree;
    t := AddressTemplate(ts, a);
    i := AddressConstraint(ts[t].kind, ts[t].constraints, a);
    assert WellFormedConstraint(ts[t].constraints[i]);
    var gs := ts[t].constraints[i].groups;
    g :| 0 <= g < |gs| && Patterns(gs)[g] == a.pattern;
  }

  lemma EntryAddress(ps: seq<Placed>, e: Entry) returns (k: nat)
    requires e in ContentOf(ps).entries
    ensures k < |ps| && ps[k].at == e.at && e.instance in ps[k].instances
  {
    if e in EntriesAt(ps[0].at, ps[0].instances) {
      EntriesAtCount(ps[0].at, ps[0].instances, e);
      k := 0;
    } else {
      k := EntryAddress(ps[1..], e);
      k := k + 1;
    }
  }

  ghost predicate MetadataTies(a: Address, b: Address) {
    a.kind == b.kind && a.name == b.name && a.metadata != b.metadata
  }

  ghost predicate InstancesTie(x: Entry, y: Entry) {
    x.at == y.at && ByViolation(x.instance, y.instance) == 0 && x.instance != y.instance
  }

  ghost predicate PatternsTie(a: Address, b: Address) {
    b == a.(pattern := b.pattern) && ByViolation(a.pattern, b.pattern) == 0 && a.pattern != b.pattern
  }

  /** A tie leaves sorting a choice. */
  lemma TieLeavesChoice(agg: seq<Template>, ts: seq<Template>)
    requires TreeSortedInto(agg, ts) && WellFormed(ts) && !TieFree(ContentOfTree(ts))
    ensures exists us :: TreeSortedInto(agg, us) && us != ts
  {
    hide ContentOfTree, WellFormed, TreeSortedInto, ByViolation;
    var c := ContentOfTree(ts);
    if a, b :| a in c.addresses && b in c.addresses && MetadataTies(a, b) {
      MetadataTie(agg, ts, a, b);
    } else if a, b :| a in c.addresses && b in c.addresses && PatternsTie(a, b) {
      PatternTie(agg, ts, a, b);
    } else {
      var x, y :| x in c.entries && y in c.entries && InstancesTie(x, y);
      InstanceTie(agg, ts, x, y);
    }
  }

  lemma MetadataTie(agg: seq<Template>, ts: seq<Template>, a: Address, b: Address)
    requires TreeSortedInto(agg, ts) && WellFormed(ts)
    requires a in ContentOfTree(ts).addresses && b in ContentOfTree(ts).addresses && MetadataTies(a, b)
    ensures exists us :: TreeSortedInto(agg, us) && us != ts
  {
    hide ContentOfTree, WellFormedConstraints, TreeSortedInto, TemplateMayBe;
    var t, i, g := Locate(ts, a);
    var t', j, h := Locate(ts, b);
    assert t == t';
    var cs := ts[t].constraints;
    var u := ts[t].(constraints := Swapped(cs, i, j));
    SwapConstraints(ts[t], i, j);
    ReplaceTemplate(agg, ts, t, u);
    assert u.constraints[i].metadata != cs[i].metadata;
    assert ts[t := u][t] == u;
  }

  lemma PatternTie(agg: seq<Template>, ts: seq<Template>, a: Address, b: Address)
    requires TreeSortedInto(agg, ts) && WellFormed(ts)
    requires a in ContentOfTree(ts).addresses && b in ContentOfTree(ts).addresses && PatternsTie(a, b)
    ensures exists us :: TreeSortedInto(agg, us) && us != ts
  {
    hide ContentOfTree, WellFormedConstraint, TreeSortedInto, ByViolation, ConstraintMayBe;
    var t, i, g := Locate(ts, a);
    var t', j, h := Locate(ts, b);
    assert t == t';
    assert i == j;
    var c := ts[t].constraints[i];
    SwapGroups(c, g, h);
    assert Swapped(c.groups, g, h)[g].pattern != c.groups[g].pattern;
    AnotherConstraint(agg, ts, t, i, c.(groups := Swapped(c.groups, g, h)));
  }

  lemma AnotherConstraint(agg: seq<Template>, ts: seq<Template>, t: nat, i: nat, d: Constraint)
    requires TreeSortedInto(agg, ts) && t < |ts| && i < |ts[t].constraints|
    requires ConstraintMayBe(ts[t].constraints[i], d) && d != ts[t].constraints[i]
    ensures exists us :: TreeSortedInto(agg, us) && us != ts
  {
    hide TreeSortedInto, ConstraintMayBe, TemplateMayBe;
    var u := ts[t].(constraints := ts[t].constraints[i := d]);
    ReplaceConstraint(ts[t], i, d);
    ReplaceTemplate(agg, ts, t, u);
    assert u.constraints[i] == d && ts[t := u][t] == u;
  }

  lemma InstanceTie(agg: seq<Template>, ts: seq<Template>, x: Entry, y: Entry)
    requires TreeSortedInto(agg, ts) && WellFormed(ts)
    requires x in ContentOfTree(ts).entries && y in ContentOfTree(ts).entries && InstancesTie(x, y)
    ensures exists us :: TreeSortedInto(agg, us) && us != ts
  {
    hide ContentOfTree, WellFormedConstraint, TreeSortedInto, ByViolation, ConstraintMayBe, GroupMayBe;
    var t, i, g, v := LocateEntry(ts, x);
    var t', j, h, w := LocateEntry(ts, y);
    assert t == t';
    assert i == j;
    var c := ts[t].constraints[i];
    assert g == h by {
      assert WellFormedConstraint(c);
      PatternIndex(c, g, h);
    }
    var ws := Swapped(c.groups[g].instances, v, w);
    SwapInstances(c.groups[g], v, w);
    ReplaceGroup(c, g, c.groups[g].(instances := ws));
    assert ws[v] != c.groups[g].instances[v];
    assert c.groups[g := c.groups[g].(instances := ws)][g].instances == ws;
    AnotherConstraint(agg, ts, t, i, c.(groups := c.groups[g := c.groups[g].(instances := ws)]));
  }

  // ----- canonicity, exactly -----

  /** Sorting has only one possible result exactly when nothing ties. */
  lemma SortedOneWayExactly(agg: seq<Template>, sorted: seq<Template>)
    requires WellFormed(agg) && TreeSortedInto(agg, sorted)
    ensures (forall s :: TreeSortedInto(agg, s) ==> s == sorted) <==> TieFree(ContentOfTree(agg))
  {
    hide TreeSortedInto, WellFormed, ContentOfTree, InOrder, TieFree;
    SortingRearranges(agg, sorted);
    if TieFree(ContentOfTree(agg)) {
      forall s | TreeSortedInto(agg, s)
        ensures s == sorted
      {
        SortingRearranges(agg, s);
        InOrderIsUnique(s, sorted);
      }
    } else {
      TieLeavesChoice(agg, sorted);
    }
  }

  /** The answer for a set of cluster reports is the same in whatever order the clusters are
      visited and however sorting treats ties, if and only if nothing ties. */
  lemma CanonicalExactlyWithoutTies(reports: ClusterReports, f: FilterSet, order: seq<string>, sorted: seq<Template>)
    requires IsOrdering(order, reports.Keys) && TreeSortedInto(Aggregated(reports, order, f), sorted)
    ensures OnlyAnswer(reports, f, sorted) <==> TieFree(ContentOf(FlatClusters(reports, order, f)))
  {
    hide TreeSortedInto, WellFormed, ContentOf, ContentOfTree, TieFree, Aggregated, FlatClusters;
    var agg := Aggregated(reports, order, f);
    AggregatedContent(reports, order, f);
    SortedOneWayExactly(agg, sorted);
    if TieFree(ContentOfTree(agg)) {
      forall order', s | IsOrdering(order', reports.Keys) && TreeSortedInto(Aggregated(reports, order', f), s)
        ensures s == sorted
      {
        AggregationIsCanonical(reports, f, order, order', sorted, s);
      }
    }
  }

  ghost predicate OnlyAnswer(reports: ClusterReports, f: FilterSet, sorted: seq<Template>) {
    forall order, s :: IsOrdering(order, reports.Keys) && TreeSortedInto(Aggregated(reports, order, f), s) ==> s == sorted
  }

  lemma PatternIndex(c: Constraint, g: nat, h: nat)
    requires WellFormedConstraint(c) && g < |c.groups| && h < |c.groups|
    requires c.groups[g].pattern == c.groups[h].pattern
    ensures g == h
  {
  }

  lemma LocateEntry(ts: seq<Template>, x: Entry) returns (t: nat, i: nat, g: nat, v: nat)
    requires WellFormed(ts) && x in ContentOfTree(ts).entries
    ensures t < |ts| && ts[t].kind == x.at.kind
    ensures i < |ts[t].constraints|
    ensures ts[t].constraints[i].name == x.at.name && ts[t].constraints[i].metadata == x.at.metadata
    ensures g < |ts[t].constraints[i].groups| && ts[t].constraints[i].groups[g].pattern == x.at.pattern
    ensures v < |ts[t].constraints[i].groups[g].instances| && ts[t].constraints[i].groups[g].instances[v] == x.instance
  {
    hide WellFormedConstraint;
    t, i, g := LocateAny(ts, x);
    assert WellFormedConstraint(ts[t].constraints[i]) && WellFormedConstraints(ts[t].constraints);
    v :| 0 <= v < |ts[t].constraints[i].groups[g].instances| && ts[t].constraints[i].groups[g].instances[v] == x.instance;
    assert ts[t].constraints[i].metadata == x.at.metadata by {
      ClearedAlready(ts[t].constraints[i]);
    }
  }

  lemma ClearedAlready(c: Constraint)
    requires WellFormedConstraint(c)
    ensures c.metadata.Cleared() == c.metadata
  {
  }

  lemma LocateAny(ts: seq<Template>, x: Entry) returns (t: nat, i: nat, g: nat)
    requires x in ContentOfTree(ts).entries
    ensures t < |ts| && ts[t].kind == x.at.kind
    ensures i < |ts[t].constraints|
    ensures ts[t].constraints[i].name == x.at.name && ts[t].constraints[i].metadata.Cleared() == x.at.metadata
    ensures g < |ts[t].constraints[i].groups| && ts[t].constraints[i].groups[g].pattern == x.at.pattern
    ensures x.instance in ts[t].constraints[i].groups[g].instances
  {
    FirstTemplateContent(ts);
    hide ContentOf, ContentOfTree, FlatConstraints;
    if x in ContentOf(FlatTemplate(ts[0])).entries {
      t := 0;
      i, g := LocateInConstraints(ts[0].kind, ts[0].constraints, x);
    } else {
      t, i, g := LocateAny(ts[1..], x);
      t := t + 1;
    }
  }

  lemma LocateInConstraints(kind: string, cs: seq<Constraint>, x: Entry) returns (i: nat, g: nat)
    requires x in ContentOf(FlatConstraints(kind, cs)).entries
    ensures kind == x.at.kind && i < |cs| && cs[i].name == x.at.name && cs[i].metadata.Cleared() == x.at.metadata
    ensures g < |cs[i].groups| && cs[i].groups[g].pattern == x.at.pattern && x.instance in cs[i].groups[g].instances
  {
    hide ContentOf, FlatConstraints;
    FirstConstraintContent(kind, cs);
    if x in ContentOf(FlatConstraint(kind, cs[0])).entries {
      i := 0;
      g := EntryAddress(FlatConstraint(kind, cs[0]), x);
    } else {
      i, g := LocateInConstraints(kind, cs[1..], x);
      i := i + 1;
    }
  }

  // ----- a tie between two clusters -----

  /** The constraint "c" with one violation, at the given severity. */
  function Sample(severity: string): Constraint {
    var v := Violation("Pod", "p", "ns", "no limit", map[], "");
    ReportForConstraint("c", Metadata(severity, "", "", "", ""), [], [ViolationGroup(v, [v])])
  }

  function SampleReport(severity: string): ClusterReport {
    Report(map[], [ReportForTemplate("K", [Sample(severity)])])
  }

  lemma SampleFlat(severity: string)
    ensures
      var c := Sample(severity);
      FlatCluster(SampleReport(severity), EVERYTHING)
        == [Placed(Address("K", "c", c.metadata, c.groups[0].pattern), c.groups[0].instances)]
  {
    var c, t := Sample(severity), ReportForTemplate("K", [Sample(severity)]);
    FlatTemplatesOne(t);
    FlatConstraintsOne("K", c);
    var ps := FlatConstraint("K", c);
    assert |ps| == 1 && FilterPlaced(ps[1..], EVERYTHING.Keeps) == [];
    assert EVERYTHING.Keeps(ps[0].at);
  }

  lemma SampleFirst(s: string, p: Placed)
    requires p == Placed(Address("K", "c", Sample(s).metadata, Sample(s).groups[0].pattern), Sample(s).groups[0].instances)
    ensures PutTemplate([], p) == [ReportForTemplate("K", [Sample(s)])]
  {
    assert PutGroup([], p) == Sample(s).groups;
    assert PutConstraint([], p) == [Sample(s)];
  }

  lemma SampleSecond(s: string, t: string, q: Placed)
    requires s != t
    requires q == Placed(Address("K", "c", Sample(t).metadata, Sample(t).groups[0].pattern), Sample(t).groups[0].instances)
    ensures PutTemplate([ReportForTemplate("K", [Sample(s)])], q) == [ReportForTemplate("K", [Sample(s), Sample(t)])]
  {
    var cs := [Sample(s)];
    assert PutGroup([], q) == Sample(t).groups;
    assert FindConstraint(cs, "c", q.at.metadata) == 1;
    assert PutConstraint(cs, q) == [Sample(s), Sample(t)];
  }

  lemma SampleAggregate(reports: ClusterReports, x: string, y: string, s: string, t: string)
    requires x in reports && y in reports && s != t
    requires reports[x] == SampleReport(s) && reports[y] == SampleReport(t)
    ensures Aggregated(reports, [x, y], EVERYTHING) == [ReportForTemplate("K", [Sample(s), Sample(t)])]
  {
    SampleFlat(s);
    SampleFlat(t);
    var order := [x, y];
    var p, q := FlatCluster(reports[x], EVERYTHING), FlatCluster(reports[y], EVERYTHING);
    assert order[1..] == [y] && [y][1..] == [];
    assert FlatClusters(reports, [y], EVERYTHING) == q;
    assert FlatClusters(reports, order, EVERYTHING) == [p[0], q[0]];
    assert [p[0], q[0]][1..] == [q[0]] && [q[0]][1..] == [];
    SampleFirst(s, p[0]);
    SampleSecond(s, t, q[0]);
    assert Fold(PutTemplate, [], [p[0], q[0]]) == Fold(PutTemplate, PutTemplate([], p[0]), [q[0]]);
  }

  lemma SampleConstraintIsSorted(s: string)
    ensures ConstraintSorted(Sample(s), Sample(s))
  {
    var gs := Sample(s).groups;
    assert GroupsArranged(gs, gs, gs);
  }

  lemma SampleIsSorted(s: string, t: string)
    ensures
      var ts := [ReportForTemplate("K", [Sample(s), Sample(t)])];
      TreeSortedInto(ts, ts)
  {
    var cs := [Sample(s), Sample(t)];
    var ts := [ReportForTemplate("K", cs)];
    SampleConstraintIsSorted(s);
    SampleConstraintIsSorted(t);
    CompareIsEquality("c", "c");
    hide ConstraintSorted, Compare;
    assert ConstraintsArranged(cs, cs, cs);
    hide ConstraintsArranged;
    assert TemplateSorted(ts[0], ts[0]);
    hide TemplateSorted;
    assert TemplatesArranged(ts, ts, ts);
  }

  /** One constraint with different severities in two clusters: both visiting orders give
      an aggregate that sorting may leave as it is, and the two differ. */
  lemma VisitingOrderCanShow() returns (reports: ClusterReports, order: seq<string>, order': seq<string>,
      sorted: seq<Template>, sorted': seq<Template>)
    ensures IsOrdering(order, reports.Keys) && IsOrdering(order', reports.Keys)
    ensures TreeSortedInto(Aggregated(reports, order, EVERYTHING), sorted)
    ensures TreeSortedInto(Aggregated(reports, order', EVERYTHING), sorted')
    ensures sorted != sorted'
  {
    hide TreeSortedInto, Aggregated;
    reports := map["one" := SampleReport("error"), "two" := SampleReport("info")];
    order, order' := ["one", "two"], ["two", "one"];
    assert "one" != "two" && "error" != "info" by { assert |"error"| != |"info"| && "one"[0] != "two"[0]; }
    SampleAggregate(reports, "one", "two", "error", "info");
    SampleAggregate(reports, "two", "one", "info", "error");
    SampleIsSorted("error", "info");
    SampleIsSorted("info", "error");
    sorted, sorted' := Aggregated(reports, order, EVERYTHING), Aggregated(reports, order', EVERYTHING);
    assert sorted[0].constraints[0].metadata.severity != sorted'[0].constraints[0].metadata.severity;
  }
}
