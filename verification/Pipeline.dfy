/** From gathered violations to the aggregate: nothing is lost, duplicated or altered. */
module Pipeline {
  import opened Doop
  import opened Regroup
  import opened Contents
  import opened Filters
  import opened Sorting
  import opened Clusters
  import opened Process
  import opened Tagging

  /** A report as the analyzer uploads it and the API loads it under the cluster's name. */
  function ProcessedConstraint(cfg: Configuration, c: Constraint): Constraint {
    c.(violations := [], groups := PutAllGroups([], Singles(cfg, "", c.name, c.metadata, c.violations)))
  }

  function ProcessedTemplate(cfg: Configuration, t: Template): Template {
    t.(constraints := seq(|t.constraints|, i requires 0 <= i < |t.constraints| =>
      ProcessedConstraint(cfg, t.constraints[i])))
  }

  function ProcessedReport(cfg: Configuration, r: ClusterReport): ClusterReport {
    r.(templates := seq(|r.templates|, i requires 0 <= i < |r.templates| => ProcessedTemplate(cfg, r.templates[i])))
  }

  function LoadedReport(cfg: Configuration, r: ClusterReport, clusterName: string): ClusterReport {
    TaggedReport(ProcessedReport(cfg, r), clusterName)
  }

  // ----- findings: the flat list of gathered violations -----

  /** One gathered violation with its place and the configuration of its cluster. */
  datatype Finding = Finding(
    cfg: Configuration, cluster: string, kind: string, name: string, metadata: Metadata, violation: Violation)
  {
    function Pattern(): Violation { PatternFor(cfg, violation) }

    /** What a reader of the aggregate should see of it. */
    function Expected(): Restored {
      Restored(kind, name, metadata.Cleared(), Tagged(Processed(cfg, violation), cluster))
    }

    /** Its compressed form, as a group of its own. */
    function AsPlaced(): Placed {
      Placed(Address(kind, name, metadata.Cleared(), Pattern()), [Tagged(Compressed(cfg, violation), cluster)])
    }

    function AsEntry(): Entry {
      Entry(AsPlaced().at, AsPlaced().instances[0])
    }

    /** What that group restores to. */
    function Actual(): Restored {
      Restore(AsEntry())
    }
  }

  datatype Restored = Restored(kind: string, name: string, metadata: Metadata, violation: Violation)

  function Restore(e: Entry): Restored {
    Restored(e.at.kind, e.at.name, e.at.metadata, e.instance.ExpandAgainst(e.at.pattern))
  }

  function ConstraintFindings(cfg: Configuration, cluster: string, kind: string, c: Constraint): (r: seq<Finding>)
    ensures |r| == |c.violations|
  {
    seq(|c.violations|, i requires 0 <= i < |c.violations| =>
      Finding(cfg, cluster, kind, c.name, c.metadata, c.violations[i]))
  }

  function ConstraintsFindings(cfg: Configuration, cluster: string, kind: string, cs: seq<Constraint>): seq<Finding> {
    if cs == [] then []
    else ConstraintFindings(cfg, cluster, kind, cs[0]) + ConstraintsFindings(cfg, cluster, kind, cs[1..])
  }

  function TemplatesFindings(cfg: Configuration, cluster: string, ts: seq<Template>): seq<Finding> {
    if ts == [] then []
    else ConstraintsFindings(cfg, cluster, ts[0].kind, ts[0].constraints) + TemplatesFindings(cfg, cluster, ts[1..])
  }

  type Configurations = map<string, Configuration>

  /** The findings of one cluster that match the filter. */
  function ClusterFindings(cfg: Configuration, cluster: string, r: ClusterReport, f: FilterSet): seq<Finding> {
    if f.MatchClusterIdentity(r.clusterIdentity) then Matching(TemplatesFindings(cfg, cluster, r.templates), f) else []
  }

  function Matching(xs: seq<Finding>, f: FilterSet): seq<Finding> {
    if xs == [] then []
    else (if f.Keeps(xs[0].AsPlaced().at) then [xs[0]] else []) + Matching(xs[1..], f)
  }

  function AllFindings(raws: ClusterReports, cfgs: Configurations, order: seq<string>, f: FilterSet): seq<Finding>
    requires forall i :: 0 <= i < |order| ==> order[i] in raws && order[i] in cfgs
  {
    if order == [] then []
    else ClusterFindings(cfgs[order[0]], order[0], raws[order[0]], f) + AllFindings(raws, cfgs, order[1..], f)
  }

  function AllPlaced(xs: seq<Finding>): (r: seq<Placed>)
    ensures |r| == |xs|
  {
    seq(|xs|, i requires 0 <= i < |xs| => xs[i].AsPlaced())
  }

  lemma AllPlacedAppend(a: seq<Finding>, b: seq<Finding>)
    ensures AllPlaced(a + b) == AllPlaced(a) + AllPlaced(b)
  {
    hide Finding.AsPlaced;
  }

  // ----- grouping and tagging one constraint -----

  lemma {:induction false} PutAllGroupsContent(kind: string, name: string, metadata: Metadata, gs: seq<Group>, ps: seq<Placed>)
    requires forall i :: 0 <= i < |ps| ==> ps[i].at == Address(kind, name, metadata.Cleared(), ps[i].at.pattern)
    ensures ContentOf(FlatGroups(kind, name, metadata, PutAllGroups(gs, ps)))
      == ContentOf(FlatGroups(kind, name, metadata, gs)).Plus(ContentOf(ps))
    decreases |ps|
  {
    hide PutGroup, FlatGroups, ContentIn;
    if ps == [] {
      PlusNothing(ContentOf(FlatGroups(kind, name, metadata, gs)));
    } else {
      PutGroupContent(kind, name, metadata, gs, ps[0]);
      PutAllGroupsContent(kind, name, metadata, PutGroup(gs, ps[0]), ps[1..]);
      PlusAssociates(ContentOf(FlatGroups(kind, name, metadata, gs)), ContentIn(ps[0]), ContentOf(ps[1..]));
    }
  }

  function TaggedGroups(gs: seq<Group>, clusterName: string): (r: seq<Group>)
    ensures |r| == |gs|
  {
    seq(|gs|, i requires 0 <= i < |gs| => TaggedGroup(gs[i], clusterName))
  }

  function TaggedPlaced(p: Placed, clusterName: string): Placed {
    Placed(p.at, seq(|p.instances|, i requires 0 <= i < |p.instances| => Tagged(p.instances[i], clusterName)))
  }

  lemma TaggingCommutesWithPut(gs: seq<Group>, p: Placed, clusterName: string)
    ensures TaggedGroups(PutGroup(gs, p), clusterName) == PutGroup(TaggedGroups(gs, clusterName), TaggedPlaced(p, clusterName))
  {
    var i := FindGroup(gs, p.at.pattern);
    var tagged := TaggedGroups(gs, clusterName);
    var j := FindGroup(tagged, p.at.pattern);
    assert i == j by {
      assert !(i < j) && !(j < i);
    }
    if i < |gs| {
      assert TaggedGroup(PutGroup(gs, p)[i], clusterName).instances
        == tagged[i].instances + TaggedPlaced(p, clusterName).instances;
    }
  }

  lemma {:induction false} TaggingCommutesWithGrouping(gs: seq<Group>, ps: seq<Placed>, qs: seq<Placed>, clusterName: string)
    requires |qs| == |ps| && forall i :: 0 <= i < |ps| ==> SameTagged(qs[i], ps[i], clusterName)
    ensures TaggedGroups(PutAllGroups(gs, ps), clusterName) == PutAllGroups(TaggedGroups(gs, clusterName), qs)
    decreases |ps|
  {
    hide PutGroup;
    if ps != [] {
      TaggingCommutesWithPut(gs, ps[0], clusterName);
      PutGroupSees(TaggedGroups(gs, clusterName), TaggedPlaced(ps[0], clusterName), qs[0]);
      TaggingCommutesWithGrouping(PutGroup(gs, ps[0]), ps[1..], qs[1..], clusterName);
    }
  }

  ghost predicate SameTagged(q: Placed, p: Placed, clusterName: string) {
    q.at.pattern == p.at.pattern && q.instances == TaggedPlaced(p, clusterName).instances
  }

  lemma PutGroupSees(gs: seq<Group>, p: Placed, q: Placed)
    requires p.at.pattern == q.at.pattern && p.instances == q.instances
    ensures PutGroup(gs, p) == PutGroup(gs, q)
  {
  }

  /** A processed, loaded constraint says what its findings say. */
  lemma ConstraintContent(cfg: Configuration, cluster: string, kind: string, c: Constraint)
    ensures ContentOf(FlatConstraint(kind, TaggedConstraint(ProcessedConstraint(cfg, c), cluster)))
      == ContentOf(AllPlaced(ConstraintFindings(cfg, cluster, kind, c)))
  {
    hide PutAllGroups, PatternFor, Compressed, ContentOf;
    var ps := Singles(cfg, "", c.name, c.metadata, c.violations);
    var qs := AllPlaced(ConstraintFindings(cfg, cluster, kind, c));
    forall i | 0 <= i < |ps|
      ensures SameTagged(qs[i], ps[i], cluster)
    {
    }
    TaggingCommutesWithGrouping([], ps, qs, cluster);
    assert TaggedGroups([], cluster) == [];
    var d := TaggedConstraint(ProcessedConstraint(cfg, c), cluster);
    assert d.groups == TaggedGroups(PutAllGroups([], ps), cluster);
    PutAllGroupsContent(kind, c.name, c.metadata, [], qs);
    assert FlatGroups(kind, c.name, c.metadata, []) == [];
    EmptyContent(ContentOf(qs));
  }

  lemma EmptyContent(x: Content)
    ensures ContentOf([]).Plus(x) == x
  {
    NothingPlus(x);
  }

  // ----- a whole report -----

  function LoadedConstraints(cfg: Configuration, cluster: string, cs: seq<Constraint>): (r: seq<Constraint>)
    ensures |r| == |cs|
  {
    seq(|cs|, i requires 0 <= i < |cs| => TaggedConstraint(ProcessedConstraint(cfg, cs[i]), cluster))
  }

  function LoadedTemplates(cfg: Configuration, cluster: string, ts: seq<Template>): (r: seq<Template>)
    ensures |r| == |ts|
  {
    seq(|ts|, i requires 0 <= i < |ts| =>
      ReportForTemplate(ts[i].kind, LoadedConstraints(cfg, cluster, ts[i].constraints)))
  }

  lemma LoadedReportIs(cfg: Configuration, r: ClusterReport, cluster: string)
    ensures LoadedReport(cfg, r, cluster) == Report(r.clusterIdentity, LoadedTemplates(cfg, cluster, r.templates))
  {
    hide ProcessedConstraint, TaggedConstraint;
    var loaded, expected := LoadedReport(cfg, r, cluster).templates, LoadedTemplates(cfg, cluster, r.templates);
    assert |loaded| == |expected|;
    forall i | 0 <= i < |loaded|
      ensures loaded[i] == expected[i]
    {
      assert loaded[i].constraints == expected[i].constraints;
    }
  }

  lemma {:induction false} ConstraintsContent(cfg: Configuration, cluster: string, kind: string, cs: seq<Constraint>)
    ensures ContentOf(FlatConstraints(kind, LoadedConstraints(cfg, cluster, cs)))
      == ContentOf(AllPlaced(ConstraintsFindings(cfg, cluster, kind, cs)))
  {
    hide FlatConstraint, ConstraintFindings, ContentOf, ProcessedConstraint, TaggedConstraint;
    if cs == [] {
      ContentOfNothing();
    } else {
      var loaded := LoadedConstraints(cfg, cluster, cs);
      assert loaded[1..] == LoadedConstraints(cfg, cluster, cs[1..]);
      ConstraintContent(cfg, cluster, kind, cs[0]);
      ConstraintsContent(cfg, cluster, kind, cs[1..]);
      var a, b := ConstraintFindings(cfg, cluster, kind, cs[0]), ConstraintsFindings(cfg, cluster, kind, cs[1..]);
      AllPlacedAppend(a, b);
      ContentAppend(AllPlaced(a), AllPlaced(b));
      ContentAppend(FlatConstraint(kind, loaded[0]), FlatConstraints(kind, loaded[1..]));
    }
  }

  lemma {:induction false} TemplatesContent(cfg: Configuration, cluster: string, ts: seq<Template>)
    ensures ContentOfTree(LoadedTemplates(cfg, cluster, ts)) == ContentOf(AllPlaced(TemplatesFindings(cfg, cluster, ts)))
  {
    hide FlatConstraints, FlatTemplates, ConstraintsFindings, ContentOf, ContentOfTree, LoadedConstraints;
    var loaded := LoadedTemplates(cfg, cluster, ts);
    FirstTemplateContent(loaded);
    if ts == [] {
      ContentOfNothing();
    } else {
      assert loaded[1..] == LoadedTemplates(cfg, cluster, ts[1..]);
      ConstraintsContent(cfg, cluster, ts[0].kind, ts[0].constraints);
      TemplatesContent(cfg, cluster, ts[1..]);
      var a, b := ConstraintsFindings(cfg, cluster, ts[0].kind, ts[0].constraints), TemplatesFindings(cfg, cluster, ts[1..]);
      AllPlacedAppend(a, b);
      ContentAppend(AllPlaced(a), AllPlaced(b));
    }
  }

  lemma ContentOfNothing()
    ensures ContentOf(AllPlaced([])) == Content({}, multiset{}) == ContentOf([])
  {
  }

  lemma {:induction false} MatchingIsFiltering(xs: seq<Finding>, f: FilterSet)
    ensures AllPlaced(Matching(xs, f)) == FilterPlaced(AllPlaced(xs), f.Keeps)
  {
    hide Finding.AsPlaced, FilterSet.Keeps;
    if xs != [] {
      MatchingIsFiltering(xs[1..], f);
      assert AllPlaced(xs)[1..] == AllPlaced(xs[1..]);
      var head := if f.Keeps(xs[0].AsPlaced().at) then [xs[0]] else [];
      AllPlacedAppend(head, Matching(xs[1..], f));
      assert AllPlaced(head) == if f.Keeps(AllPlaced(xs)[0].at) then [AllPlaced(xs)[0]] else [];
    }
  }

  lemma ClusterContent(cfg: Configuration, cluster: string, r: ClusterReport, f: FilterSet)
    ensures ContentOf(FlatCluster(LoadedReport(cfg, r, cluster), f)) == ContentOf(AllPlaced(ClusterFindings(cfg, cluster, r, f)))
  {
    hide ContentOf, FlatTemplates, TemplatesFindings, FilterPlaced, Matching;
    LoadedReportIs(cfg, r, cluster);
    if f.MatchClusterIdentity(r.clusterIdentity) {
      var xs, flat := TemplatesFindings(cfg, cluster, r.templates), FlatTemplates(LoadedTemplates(cfg, cluster, r.templates));
      TemplatesContent(cfg, cluster, r.templates);
      MatchingIsFiltering(xs, f);
      FilterRestricts(AllPlaced(xs), f.Keeps);
      FilterRestricts(flat, f.Keeps);
      RestrictsIsUnique(ContentOf(flat), f.Keeps,
        ContentOf(FilterPlaced(flat, f.Keeps)), ContentOf(FilterPlaced(AllPlaced(xs), f.Keeps)));
    } else {
      assert FlatCluster(LoadedReport(cfg, r, cluster), f) == [];
      assert AllPlaced([]) == [];
    }
  }

  function LoadedReports(raws: ClusterReports, cfgs: Configurations): ClusterReports
    requires raws.Keys <= cfgs.Keys
  {
    map x | x in raws :: LoadedReport(cfgs[x], raws[x], x)
  }

  /** The groups that go into the aggregate say what the matching findings say. */
  lemma {:induction false} ClustersContent(raws: ClusterReports, cfgs: Configurations, order: seq<string>, f: FilterSet)
    requires raws.Keys <= cfgs.Keys && forall i :: 0 <= i < |order| ==> order[i] in raws
    ensures ContentOf(FlatClusters(LoadedReports(raws, cfgs), order, f))
      == ContentOf(AllPlaced(AllFindings(raws, cfgs, order, f)))
  {
    hide FlatCluster, ClusterFindings, LoadedReport, ContentIn;
    var loaded := LoadedReports(raws, cfgs);
    if order != [] {
      ClusterContent(cfgs[order[0]], order[0], raws[order[0]], f);
      ClustersContent(raws, cfgs, order[1..], f);
      var a, b := ClusterFindings(cfgs[order[0]], order[0], raws[order[0]], f), AllFindings(raws, cfgs, order[1..], f);
      AllPlacedAppend(a, b);
      ContentAppend(AllPlaced(a), AllPlaced(b));
      ContentAppend(FlatCluster(loaded[order[0]], f), FlatClusters(loaded, order[1..], f));
    }
  }

  // ----- expanding the aggregate -----

  /** The multiset of restored violations of a multiset of entries. */
  ghost function RestoredAll(es: multiset<Entry>): multiset<Restored>
    decreases |es|
  {
    if es == multiset{} then multiset{}
    else
      var e :| e in es;
      multiset{Restore(e)} + RestoredAll(es - multiset{e})
  }

  lemma {:induction false} RestoredOne(es: multiset<Entry>, e: Entry)
    requires e in es
    ensures RestoredAll(es) == multiset{Restore(e)} + RestoredAll(es - multiset{e})
    decreases |es|
  {
    hide Restore;
    var x :| x in es && RestoredAll(es) == multiset{Restore(x)} + RestoredAll(es - multiset{x});
    if x != e {
      RestoredOne(es - multiset{x}, e);
      RestoredOne(es - multiset{e}, x);
      var rest := es - multiset{x} - multiset{e};
      assert rest == es - multiset{e} - multiset{x};
      ExchangeOne(multiset{Restore(x)}, multiset{Restore(e)}, RestoredAll(rest));
    }
  }

  lemma ExchangeOne(a: multiset<Restored>, b: multiset<Restored>, c: multiset<Restored>)
    ensures a + (b + c) == b + (a + c)
  {
  }

  function ActualAll(xs: seq<Finding>): (r: seq<Restored>)
    ensures |r| == |xs|
  {
    seq(|xs|, i requires 0 <= i < |xs| => xs[i].Actual())
  }

  function ExpectedAll(xs: seq<Finding>): (r: seq<Restored>)
    ensures |r| == |xs|
  {
    seq(|xs|, i requires 0 <= i < |xs| => xs[i].Expected())
  }

  lemma {:induction false} RestoredFindings(xs: seq<Finding>)
    ensures RestoredAll(ContentOf(AllPlaced(xs)).entries) == multiset(ActualAll(xs))
  {
    hide Finding.AsPlaced, Finding.Actual, Restore, RestoredAll, ContentOf, AllPlaced;
    if xs == [] {
      NothingRestored();
    } else {
      RestoredFindings(xs[1..]);
      FirstFindingRestored(xs[0], xs[1..]);
      assert xs == [xs[0]] + xs[1..];
      assert ActualAll(xs) == [xs[0].Actual()] + ActualAll(xs[1..]);
    }
  }

  lemma NothingRestored()
    ensures RestoredAll(multiset{}) == multiset{} && ContentOf(AllPlaced([])).entries == multiset{}
  {
  }

  lemma FindingEntry(x: Finding)
    ensures ContentIn(x.AsPlaced()).entries == multiset{x.AsEntry()}
  {
    SingleEntry(x.AsPlaced());
  }

  lemma FirstFindingContent(x: Finding, xs: seq<Finding>)
    ensures ContentOf(AllPlaced([x] + xs)).entries == multiset{x.AsEntry()} + ContentOf(AllPlaced(xs)).entries
  {
    hide Finding.AsPlaced, Finding.AsEntry, ContentIn;
    FindingEntry(x);
    assert AllPlaced([x] + xs)[1..] == AllPlaced(xs);
  }

  lemma FirstFindingRestored(x: Finding, xs: seq<Finding>)
    ensures RestoredAll(ContentOf(AllPlaced([x] + xs)).entries)
      == multiset{x.Actual()} + RestoredAll(ContentOf(AllPlaced(xs)).entries)
  {
    hide Finding.AsEntry, Restore, RestoredAll, ContentOf, AllPlaced;
    var e, rest := x.AsEntry(), ContentOf(AllPlaced(xs)).entries;
    FirstFindingContent(x, xs);
    RestoredOne(multiset{e} + rest, e);
    assert multiset{e} + rest - multiset{e} == rest;
  }

  lemma SingleEntry(p: Placed)
    requires |p.instances| == 1
    ensures ContentIn(p).entries == multiset{Entry(p.at, p.instances[0])}
  {
    assert seq(1, i requires 0 <= i < 1 => Entry(p.at, p.instances[i])) == [Entry(p.at, p.instances[0])];
  }

  // ----- when expansion is exact -----

  ghost predicate Faithful(x: Finding) {
    Tagged(Processed(x.cfg, x.violation), x.cluster).NotFilledBy(x.Pattern())
  }

  lemma FindingRestored(x: Finding)
    ensures
      && (x.Actual() == x.Expected() <==> Faithful(x))
      && x.Actual().violation.Weight() >= x.Expected().violation.Weight()
      && (x.Actual().violation.Weight() == x.Expected().violation.Weight() <==> Faithful(x))
  {
    hide Processed, PatternFor;
    var v, p := Processed(x.cfg, x.violation), x.Pattern();
    var actual := Tagged(v.DifferenceTo(p), x.cluster).ExpandAgainst(p);
    assert actual.IsEqualTo(Tagged(v, x.cluster)) <==> actual == Tagged(v, x.cluster);
  }

  function TotalWeight(rs: seq<Restored>): nat {
    if rs == [] then 0 else rs[0].violation.Weight() + TotalWeight(rs[1..])
  }

  lemma {:induction false} WeightWithout(rs: seq<Restored>, j: nat)
    requires j < |rs|
    ensures TotalWeight(rs) == rs[j].violation.Weight() + TotalWeight(rs[..j] + rs[j + 1..])
  {
    if j == 0 {
      assert rs[..0] + rs[1..] == rs[1..];
    } else {
      var rest := rs[..j] + rs[j + 1..];
      WeightWithout(rs[1..], j - 1);
      assert rest[0] == rs[0] && rest[1..] == rs[1..][..j - 1] + rs[1..][j..];
    }
  }

  lemma {:induction false} WeightPermutes(a: seq<Restored>, b: seq<Restored>)
    requires multiset(a) == multiset(b)
    ensures TotalWeight(a) == TotalWeight(b)
    decreases |a|
  {
    if a == [] {
      assert |multiset(b)| == 0;
    } else {
      assert a[0] in multiset(b);
      var j :| 0 <= j < |b| && b[j] == a[0];
      var rest := b[..j] + b[j + 1..];
      RemoveAt(b, j);
      assert a == [a[0]] + a[1..];
      CancelOne(multiset(a[1..]), multiset(rest), a[0]);
      WeightPermutes(a[1..], rest);
      WeightWithout(b, j);
    }
  }

  lemma {:induction false} WeightsCompare(xs: seq<Finding>)
    ensures TotalWeight(ActualAll(xs)) >= TotalWeight(ExpectedAll(xs))
    ensures TotalWeight(ActualAll(xs)) == TotalWeight(ExpectedAll(xs)) <==> forall i :: 0 <= i < |xs| ==> Faithful(xs[i])
  {
    hide Faithful, Finding.Actual, Finding.Expected, Violation.Weight;
    if xs != [] {
      FindingRestored(xs[0]);
      WeightsCompare(xs[1..]);
      assert ActualAll(xs)[1..] == ActualAll(xs[1..]);
      assert ExpectedAll(xs)[1..] == ExpectedAll(xs[1..]);
      assert (forall i :: 0 <= i < |xs| ==> Faithful(xs[i])) <==>
        Faithful(xs[0]) && forall i :: 0 <= i < |xs[1..]| ==> Faithful(xs[1..][i]);
    }
  }

  lemma ActualIsExpectedExactly(xs: seq<Finding>)
    ensures multiset(ActualAll(xs)) == multiset(ExpectedAll(xs)) <==> forall i :: 0 <= i < |xs| ==> Faithful(xs[i])
  {
    hide Faithful, Finding.Actual, Finding.Expected, Violation.Weight;
    if multiset(ActualAll(xs)) == multiset(ExpectedAll(xs)) {
      WeightPermutes(ActualAll(xs), ExpectedAll(xs));
      WeightsCompare(xs);
    }
    if forall i :: 0 <= i < |xs| ==> Faithful(xs[i]) {
      forall i | 0 <= i < |xs|
        ensures ActualAll(xs)[i] == ExpectedAll(xs)[i]
      {
        FindingRestored(xs[i]);
      }
      assert ActualAll(xs) == ExpectedAll(xs);
    }
  }

  /** As gathered: violations only. The analyzer panics on a constraint that has groups already. */
  ghost predicate Unprocessed(r: ClusterReport) {
    forall t :: t in r.templates ==> forall c :: c in t.constraints ==> c.groups == []
  }

  /** End to end: expanding the aggregate gives exactly the matching processed violations,
      each under its cluster's name, if and only if no merging rule fills a field that the
      processed violation leaves empty. */
  lemma PipelineIsFaithful(raws: ClusterReports, cfgs: Configurations, order: seq<string>, f: FilterSet)
    requires raws.Keys <= cfgs.Keys && IsOrdering(order, raws.Keys)
    requires forall x :: x in raws ==> Unprocessed(raws[x])
    ensures
      var findings := AllFindings(raws, cfgs, order, f);
      var aggregate := Aggregated(LoadedReports(raws, cfgs), order, f);
      && RestoredAll(ContentOfTree(aggregate).entries) == multiset(ActualAll(findings))
      && (RestoredAll(ContentOfTree(aggregate).entries) == multiset(ExpectedAll(findings))
        <==> forall i :: 0 <= i < |findings| ==> Faithful(findings[i]))
  {
    hide Aggregated, ContentOf, ContentOfTree, FlatClusters, AllFindings, RestoredAll, Faithful, LoadedReports;
    LoadedReportsKeys(raws, cfgs);
    assert forall i :: 0 <= i < |order| ==> order[i] in order;
    AggregatedContent(LoadedReports(raws, cfgs), order, f);
    ClustersContent(raws, cfgs, order, f);
    RestoredFindings(AllFindings(raws, cfgs, order, f));
    ActualIsExpectedExactly(AllFindings(raws, cfgs, order, f));
  }

  lemma LoadedReportsKeys(raws: ClusterReports, cfgs: Configurations)
    requires raws.Keys <= cfgs.Keys
    ensures LoadedReports(raws, cfgs).Keys == raws.Keys
  {
  }
}
