/** SetClusterName: writing the cluster's name into every instance of a freshly loaded report. */
module Tagging {
  import opened Doop
  import opened Slices

  function Tagged(v: Violation, clusterName: string): Violation {
    v.(clusterName := clusterName)
  }

  function TaggedGroup(g: Group, clusterName: string): Group {
    g.(instances := seq(|g.instances|, i requires 0 <= i < |g.instances| => Tagged(g.instances[i], clusterName)))
  }

  function TaggedConstraint(c: Constraint, clusterName: string): Constraint {
    c.(groups := seq(|c.groups|, i requires 0 <= i < |c.groups| => TaggedGroup(c.groups[i], clusterName)))
  }

  function TaggedTemplate(t: Template, clusterName: string): Template {
    t.(constraints := seq(|t.constraints|, i requires 0 <= i < |t.constraints| =>
      TaggedConstraint(t.constraints[i], clusterName)))
  }

  function TaggedReport(r: ClusterReport, clusterName: string): ClusterReport {
    r.(templates := seq(|r.templates|, i requires 0 <= i < |r.templates| => TaggedTemplate(r.templates[i], clusterName)))
  }

  /** Every instance names the cluster; all else is as before, in the same places. */
  ghost predicate OnlyNamed(now: ClusterReport, was: ClusterReport, clusterName: string) {
    && now.clusterIdentity == was.clusterIdentity
    && |now.templates| == |was.templates|
    && forall i :: 0 <= i < |was.templates| ==> TemplateOnlyNamed(now.templates[i], was.templates[i], clusterName)
  }

  ghost predicate TemplateOnlyNamed(now: Template, was: Template, clusterName: string) {
    && now.kind == was.kind
    && |now.constraints| == |was.constraints|
    && forall i :: 0 <= i < |was.constraints| ==> ConstraintOnlyNamed(now.constraints[i], was.constraints[i], clusterName)
  }

  ghost predicate ConstraintOnlyNamed(now: Constraint, was: Constraint, clusterName: string) {
    && now.name == was.name && now.metadata == was.metadata && now.violations == was.violations
    && |now.groups| == |was.groups|
    && forall i :: 0 <= i < |was.groups| ==> GroupOnlyNamed(now.groups[i], was.groups[i], clusterName)
  }

  ghost predicate GroupOnlyNamed(now: Group, was: Group, clusterName: string) {
    && now.pattern == was.pattern
    && |now.instances| == |was.instances|
    && forall i :: 0 <= i < |was.instances| ==>
      var v, w := now.instances[i], was.instances[i];
      && v.clusterName == clusterName && v.kind == w.kind && v.name == w.name && v.namespace == w.namespace
      && v.message == w.message && v.objectIdentity == w.objectIdentity
  }

  lemma TaggingOnlyNames(r: ClusterReport, clusterName: string)
    ensures OnlyNamed(TaggedReport(r, clusterName), r, clusterName)
  {
    hide TemplateOnlyNamed, ConstraintOnlyNamed, GroupOnlyNamed;
    var now := TaggedReport(r, clusterName);
    forall i | 0 <= i < |r.templates|
      ensures TemplateOnlyNamed(now.templates[i], r.templates[i], clusterName)
    {
      TemplateNames(r.templates[i], clusterName);
    }
  }

  lemma TemplateNames(t: Template, clusterName: string)
    ensures TemplateOnlyNamed(TaggedTemplate(t, clusterName), t, clusterName)
  {
    hide GroupOnlyNamed;
    forall i, g | 0 <= i < |t.constraints| && 0 <= g < |t.constraints[i].groups|
      ensures GroupOnlyNamed(TaggedGroup(t.constraints[i].groups[g], clusterName), t.constraints[i].groups[g], clusterName)
    {
      GroupNames(t.constraints[i].groups[g], clusterName);
    }
  }

  lemma GroupNames(g: Group, clusterName: string)
    ensures GroupOnlyNamed(TaggedGroup(g, clusterName), g, clusterName)
  {
  }

  /** Elements only ever change by being tagged, so tagging an array twice does no harm. */
  twostate predicate OnlyTagged(arrays: set<array<Violation>>, clusterName: string)
    reads arrays
  {
    forall a, k :: a in arrays && 0 <= k < a.Length ==>
      a[k] == old(a[k]) || a[k] == Tagged(old(a[k]), clusterName)
  }

  method TagInstances(s: Slice, clusterName: string, ghost all: set<array<Violation>>)
    requires s.Valid() && s.arr in all
    modifies s.arr
    ensures OnlyTagged(all, clusterName)
    ensures forall k :: 0 <= k < s.len ==> s.arr[k] == Tagged(old(s.arr[k]), clusterName)
  {
    for idx := 0 to s.len
      invariant forall k :: 0 <= k < idx ==> s.arr[k] == Tagged(old(s.arr[k]), clusterName)
      invariant forall k :: idx <= k < s.arr.Length ==> s.arr[k] == old(s.arr[k])
    {
      s.arr[idx] := Tagged(s.arr[idx], clusterName);
    }
  }

  twostate predicate SliceTagged(s: Slice, clusterName: string, all: set<array<Violation>>)
    requires s.Valid()
    reads all
  {
    && s.arr in all
    && forall k :: 0 <= k < s.len ==> s.arr[k] == Tagged(old(s.arr[k]), clusterName)
  }

  twostate predicate GroupsTagged(gs: seq<StoredGroup>, clusterName: string, all: set<array<Violation>>)
    requires ValidGroups(gs)
    reads all
  {
    forall i :: 0 <= i < |gs| ==> SliceTagged(gs[i].instances, clusterName, all)
  }

  lemma TaggingTwice(clusterName: string)
    ensures forall v :: Tagged(Tagged(v, clusterName), clusterName) == Tagged(v, clusterName)
  {
  }

  method TagConstraint(c: StoredConstraint, clusterName: string, ghost all: set<array<Violation>>)
    requires ValidGroups(c.groups) && GroupArrays(c.groups) <= all
    modifies GroupArrays(c.groups)
    ensures OnlyTagged(all, clusterName) && GroupsTagged(c.groups, clusterName, all)
  {
    TaggingTwice(clusterName);
    hide Tagged;
    for i := 0 to |c.groups|
      invariant OnlyTagged(all, clusterName)
      invariant GroupsTagged(c.groups[..i], clusterName, all)
    {
      assert c.groups[i].instances.arr in GroupArrays(c.groups);
      TagInstances(c.groups[i].instances, clusterName, all);
    }
    assert c.groups[..|c.groups|] == c.groups;
  }

  twostate predicate ConstraintsTagged(cs: seq<StoredConstraint>, clusterName: string, all: set<array<Violation>>)
    requires ValidConstraints(cs)
    reads all
  {
    forall i :: 0 <= i < |cs| ==> GroupsTagged(cs[i].groups, clusterName, all)
  }

  method TagTemplate(t: StoredTemplate, clusterName: string, ghost all: set<array<Violation>>)
    requires ValidConstraints(t.constraints) && ConstraintArrays(t.constraints) <= all
    modifies ConstraintArrays(t.constraints)
    ensures OnlyTagged(all, clusterName) && ConstraintsTagged(t.constraints, clusterName, all)
  {
    TaggingTwice(clusterName);
    hide ConstraintArrays, GroupArrays, Tagged;
    for i := 0 to |t.constraints|
      invariant OnlyTagged(all, clusterName)
      invariant ConstraintsTagged(t.constraints[..i], clusterName, all)
    {
      ArraysOfConstraint(t.constraints, i);
      TagConstraint(t.constraints[i], clusterName, all);
    }
    assert t.constraints[..|t.constraints|] == t.constraints;
  }

  twostate predicate TemplatesTagged(ts: seq<StoredTemplate>, clusterName: string, all: set<array<Violation>>)
    requires ValidTemplates(ts)
    reads all
  {
    forall i :: 0 <= i < |ts| ==> ConstraintsTagged(ts[i].constraints, clusterName, all)
  }

  lemma ArraysOfConstraint(cs: seq<StoredConstraint>, i: nat)
    requires i < |cs|
    ensures GroupArrays(cs[i].groups) <= ConstraintArrays(cs)
  {
  }

  lemma ArraysOfTemplate(ts: seq<StoredTemplate>, i: nat)
    requires i < |ts|
    ensures ConstraintArrays(ts[i].constraints) <= TemplateArrays(ts)
  {
  }

  method TagTemplates(ts: seq<StoredTemplate>, clusterName: string, ghost all: set<array<Violation>>)
    requires ValidTemplates(ts) && TemplateArrays(ts) <= all
    modifies TemplateArrays(ts)
    ensures TemplatesTagged(ts, clusterName, all)
  {
    TaggingTwice(clusterName);
    hide TemplateArrays, ConstraintArrays, GroupArrays, Tagged;
    for i := 0 to |ts|
      invariant OnlyTagged(all, clusterName)
      invariant TemplatesTagged(ts[..i], clusterName, all)
    {
      ArraysOfTemplate(ts, i);
      TagTemplate(ts[i], clusterName, all);
    }
    assert ts[..|ts|] == ts;
  }

  lemma IsTaggedGroup(g: Group, was: Group, clusterName: string)
    requires g.pattern == was.pattern && |g.instances| == |was.instances|
    requires forall k :: 0 <= k < |g.instances| ==> g.instances[k] == Tagged(was.instances[k], clusterName)
    ensures g == TaggedGroup(was, clusterName)
  {
    assert g.instances == TaggedGroup(was, clusterName).instances;
  }

  lemma IsTaggedConstraint(c: Constraint, was: Constraint, clusterName: string)
    requires c == was.(groups := c.groups) && |c.groups| == |was.groups|
    requires forall i :: 0 <= i < |c.groups| ==> c.groups[i] == TaggedGroup(was.groups[i], clusterName)
    ensures c == TaggedConstraint(was, clusterName)
  {
    assert c.groups == TaggedConstraint(was, clusterName).groups;
  }

  lemma IsTaggedTemplate(t: Template, was: Template, clusterName: string)
    requires t.kind == was.kind && |t.constraints| == |was.constraints|
    requires forall i :: 0 <= i < |t.constraints| ==> t.constraints[i] == TaggedConstraint(was.constraints[i], clusterName)
    ensures t == TaggedTemplate(was, clusterName)
  {
    assert t.constraints == TaggedTemplate(was, clusterName).constraints;
  }

  lemma IsTaggedReport(r: ClusterReport, was: ClusterReport, clusterName: string)
    requires r == was.(templates := r.templates) && |r.templates| == |was.templates|
    requires forall i :: 0 <= i < |r.templates| ==> r.templates[i] == TaggedTemplate(was.templates[i], clusterName)
    ensures r == TaggedReport(was, clusterName)
  {
    assert r.templates == TaggedReport(was, clusterName).templates;
  }

  /** Every instance gets the cluster's name and nothing else changes; shared arrays are no problem. */
  method SetClusterName(r: StoredReport, clusterName: string) returns (self: StoredReport)
    requires ValidTemplates(r.templates)
    modifies TemplateArrays(r.templates)
    ensures self == r
    ensures ViewReport(r) == TaggedReport(old(ViewReport(r)), clusterName)
    ensures OnlyNamed(ViewReport(r), old(ViewReport(r)), clusterName)
  {
    hide OnlyNamed, OnlyTagged, TaggedGroup, TaggedConstraint, TaggedTemplate;
    var ts := r.templates;
    ghost var all := TemplateArrays(ts);
    TagTemplates(ts, clusterName, all);
    forall i, j, g | 0 <= i < |ts| && 0 <= j < |ts[i].constraints| && 0 <= g < |ts[i].constraints[j].groups|
      ensures ViewGroup(ts[i].constraints[j].groups[g])
        == TaggedGroup(old(ViewGroup(ts[i].constraints[j].groups[g])), clusterName)
    {
      assert GroupsTagged(ts[i].constraints[j].groups, clusterName, all);
      IsTaggedGroup(ViewGroup(ts[i].constraints[j].groups[g]), old(ViewGroup(ts[i].constraints[j].groups[g])), clusterName);
    }
    forall i, j | 0 <= i < |ts| && 0 <= j < |ts[i].constraints|
      ensures ViewConstraint(ts[i].constraints[j]) == TaggedConstraint(old(ViewConstraint(ts[i].constraints[j])), clusterName)
    {
      IsTaggedConstraint(ViewConstraint(ts[i].constraints[j]), old(ViewConstraint(ts[i].constraints[j])), clusterName);
    }
    forall i | 0 <= i < |ts|
      ensures ViewTemplate(ts[i]) == TaggedTemplate(old(ViewTemplate(ts[i])), clusterName)
    {
      IsTaggedTemplate(ViewTemplate(ts[i]), old(ViewTemplate(ts[i])), clusterName);
    }
    IsTaggedReport(ViewReport(r), old(ViewReport(r)), clusterName);
    TaggingOnlyNames(old(ViewReport(r)), clusterName);
    self := r;
  }
}
