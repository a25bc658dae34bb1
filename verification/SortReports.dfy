/** The Sort methods of the report types, which sort slices in place. */
module SortReports {
  import opened Text
  import opened Sorting
  import opened Slices
  import opened Aggregate
  import opened Canonical

  /** slices.SortFunc on the instances of one group, in the group's own array. */
  method SortInstances(s: Slice)
    requires s.Valid()
    modifies s.arr
    ensures multiset(s.Elems()) == multiset(old(s.Elems()))
    ensures Sorted(s.Elems(), ByViolation)
  {
    hide TotalPreorder, ByViolation;
    OrdersArePreorders();
    var r := SortFunc(s.arr[..s.len], v => v, ByViolation);
    assert |multiset(r)| == |multiset(s.arr[..s.len])|;
    forall i | 0 <= i < s.len {
      s.arr[i] := r[i];
    }
    assert s.Elems() == r;
  }

  lemma PermutedGroups(gs: seq<StoredGroup>, mid: seq<StoredGroup>)
    requires multiset(mid) == multiset(gs)
    ensures |mid| == |gs| && GroupArrays(mid) == GroupArrays(gs)
    ensures ValidGroups(gs) ==> ValidGroups(mid)
    ensures SeparateGroups(gs) ==> SeparateGroups(mid)
  {
    SameMembers(gs, mid);
    assert forall i :: 0 <= i < |gs| ==> gs[i] in mid;
    if SeparateGroups(gs) {
      PairwisePermutes(gs, mid, (g: StoredGroup, h: StoredGroup) => g.instances.arr != h.instances.arr);
    }
  }

  lemma PermutedGroupsView(gs: seq<StoredGroup>, mid: seq<StoredGroup>)
    requires multiset(mid) == multiset(gs) && ValidGroups(gs) && ValidGroups(mid)
    ensures multiset(ViewGroups(mid)) == multiset(ViewGroups(gs))
  {
    SameMembers(gs, mid);
    var m := map g | g in gs :: ViewGroup(g);
    MappedCounts(gs, mid, m);
    assert Mapped(gs, m) == ViewGroups(gs);
    assert Mapped(mid, m) == ViewGroups(mid);
  }

  /** Sorting the instances of every group, each within its own array. */
  method SortEachGroup(gs: seq<StoredGroup>)
    requires ValidGroups(gs) && SeparateGroups(gs)
    modifies GroupArrays(gs)
    ensures forall i :: 0 <= i < |gs| ==> GroupSorted(old(ViewGroups(gs))[i], ViewGroups(gs)[i])
  {
    hide ByViolation;
    ghost var before := ViewGroups(gs);
    for i := 0 to |gs|
      invariant forall j :: 0 <= j < i ==> GroupSorted(before[j], ViewGroup(gs[j]))
      invariant forall j :: i <= j < |gs| ==> ViewGroup(gs[j]) == before[j]
    {
      SortInstances(gs[i].instances);
    }
  }

  /** Sort of a ReportForConstraint. */
  method SortConstraint(c: StoredConstraint) returns (r: StoredConstraint)
    requires ValidGroups(c.groups) && SeparateGroups(c.groups)
    modifies GroupArrays(c.groups)
    ensures ValidGroups(r.groups) && SeparateGroups(r.groups) && GroupArrays(r.groups) == GroupArrays(c.groups)
    ensures ConstraintSorted(old(ViewConstraint(c)), ViewConstraint(r))
  {
    hide TotalPreorder, ByViolation;
    OrdersArePreorders();
    var gs := SortFunc(c.groups, (g: StoredGroup) => g.pattern, ByViolation);
    PermutedGroups(c.groups, gs);
    PermutedGroupsView(c.groups, gs);
    ghost var mid := ViewGroups(gs);
    SortEachGroup(gs);
    assert GroupsArranged(old(ViewGroups(c.groups)), mid, ViewGroups(gs));
    r := c.(groups := gs);
  }

  lemma PermutedConstraints(cs: seq<StoredConstraint>, mid: seq<StoredConstraint>)
    requires multiset(mid) == multiset(cs)
    ensures |mid| == |cs| && ConstraintArrays(mid) == ConstraintArrays(cs)
    ensures ValidConstraints(cs) ==> ValidConstraints(mid)
    ensures SeparateConstraints(cs) ==> SeparateConstraints(mid)
  {
    SameMembers(cs, mid);
    assert forall i :: 0 <= i < |cs| ==> cs[i] in mid;
    if SeparateConstraints(cs) {
      PairwisePermutes(cs, mid,
        (c: StoredConstraint, d: StoredConstraint) => GroupArrays(c.groups) !! GroupArrays(d.groups));
    }
  }

  lemma PermutedConstraintsView(cs: seq<StoredConstraint>, mid: seq<StoredConstraint>)
    requires multiset(mid) == multiset(cs) && ValidConstraints(cs) && ValidConstraints(mid)
    ensures multiset(ViewConstraints(mid)) == multiset(ViewConstraints(cs))
  {
    SameMembers(cs, mid);
    var m := map c | c in cs :: ViewConstraint(c);
    MappedCounts(cs, mid, m);
    assert Mapped(cs, m) == ViewConstraints(cs);
    assert Mapped(mid, m) == ViewConstraints(mid);
  }

  lemma ConstraintsKeepArrays(cs: seq<StoredConstraint>, r: seq<StoredConstraint>)
    requires |r| == |cs| && SeparateConstraints(cs)
    requires forall j :: 0 <= j < |cs| ==> SeparateGroups(r[j].groups)
    requires forall j :: 0 <= j < |cs| ==> GroupArrays(r[j].groups) == GroupArrays(cs[j].groups)
    ensures SeparateConstraints(r) && ConstraintArrays(r) == ConstraintArrays(cs)
  {
    hide GroupArrays, SeparateGroups;
  }

  method SortConstraintAt(cs: seq<StoredConstraint>, i: nat) returns (r: seq<StoredConstraint>)
    requires ValidConstraints(cs) && SeparateConstraints(cs) && i < |cs|
    modifies ConstraintArrays(cs)
    ensures |r| == |cs| && ValidConstraints(r) && SeparateConstraints(r) && ConstraintArrays(r) == ConstraintArrays(cs)
    ensures forall j :: 0 <= j < |cs| && j != i ==> ViewConstraints(r)[j] == old(ViewConstraints(cs))[j]
    ensures ConstraintSorted(old(ViewConstraints(cs))[i], ViewConstraints(r)[i])
  {
    hide ConstraintSorted;
    ghost var before := ViewConstraints(cs);
    OthersSeparate(cs, i);
    var c := SortConstraint(cs[i]);
    assert forall j :: 0 <= j < |cs| && j != i ==> ViewConstraint(cs[j]) == before[j];
    r := cs[i := c];
    ConstraintsKeepArrays(cs, r);
  }

  method SortEachConstraint(cs: seq<StoredConstraint>) returns (r: seq<StoredConstraint>)
    requires ValidConstraints(cs) && SeparateConstraints(cs)
    modifies ConstraintArrays(cs)
    ensures |r| == |cs| && ValidConstraints(r) && SeparateConstraints(r)
    ensures ConstraintArrays(r) == ConstraintArrays(cs)
    ensures forall i :: 0 <= i < |cs| ==> ConstraintSorted(old(ViewConstraints(cs))[i], ViewConstraints(r)[i])
  {
    hide ConstraintSorted, ValidConstraints, SeparateConstraints, ConstraintArrays, ViewConstraint;
    ghost var before := ViewConstraints(cs);
    r := cs;
    for i := 0 to |cs|
      invariant |r| == |cs| && ValidConstraints(r) && SeparateConstraints(r)
      invariant ConstraintArrays(r) == ConstraintArrays(cs)
      invariant forall j :: i <= j < |cs| ==> ViewConstraints(r)[j] == before[j]
      invariant forall j :: 0 <= j < i ==> ConstraintSorted(before[j], ViewConstraints(r)[j])
    {
      r := SortConstraintAt(r, i);
    }
  }

  /** Sort of a ReportForTemplate. */
  method SortTemplate(t: StoredTemplate) returns (r: StoredTemplate)
    requires ValidConstraints(t.constraints) && SeparateConstraints(t.constraints)
    modifies ConstraintArrays(t.constraints)
    ensures ValidConstraints(r.constraints) && SeparateConstraints(r.constraints)
    ensures ConstraintArrays(r.constraints) == ConstraintArrays(t.constraints)
    ensures TemplateSorted(old(ViewTemplate(t)), ViewTemplate(r))
  {
    hide TotalPreorder, ConstraintSorted;
    OrdersArePreorders();
    var cs := SortFunc(t.constraints, (c: StoredConstraint) => c.name, Compare);
    PermutedConstraints(t.constraints, cs);
    PermutedConstraintsView(t.constraints, cs);
    ghost var mid := ViewConstraints(cs);
    cs := SortEachConstraint(cs);
    assert ConstraintsArranged(old(ViewConstraints(t.constraints)), mid, ViewConstraints(cs));
    r := t.(constraints := cs);
  }

  lemma PermutedTemplates(ts: seq<StoredTemplate>, mid: seq<StoredTemplate>)
    requires multiset(mid) == multiset(ts)
    ensures |mid| == |ts| && TemplateArrays(mid) == TemplateArrays(ts)
    ensures ValidTemplates(ts) ==> ValidTemplates(mid)
    ensures SeparateTemplates(ts) ==> SeparateTemplates(mid)
  {
    SameMembers(ts, mid);
    assert forall i :: 0 <= i < |ts| ==> ts[i] in mid;
    if SeparateTemplates(ts) {
      PairwisePermutes(ts, mid,
        (t: StoredTemplate, u: StoredTemplate) => ConstraintArrays(t.constraints) !! ConstraintArrays(u.constraints));
    }
  }

  lemma PermutedTemplatesView(ts: seq<StoredTemplate>, mid: seq<StoredTemplate>)
    requires multiset(mid) == multiset(ts) && ValidTemplates(ts) && ValidTemplates(mid)
    ensures multiset(ViewTemplates(mid)) == multiset(ViewTemplates(ts))
  {
    SameMembers(ts, mid);
    var m := map t | t in ts :: ViewTemplate(t);
    MappedCounts(ts, mid, m);
    assert Mapped(ts, m) == ViewTemplates(ts);
    assert Mapped(mid, m) == ViewTemplates(mid);
  }

  lemma TemplatesKeepArrays(ts: seq<StoredTemplate>, r: seq<StoredTemplate>)
    requires |r| == |ts| && SeparateTemplates(ts)
    requires forall j :: 0 <= j < |ts| ==> SeparateConstraints(r[j].constraints)
    requires forall j :: 0 <= j < |ts| ==> ConstraintArrays(r[j].constraints) == ConstraintArrays(ts[j].constraints)
    ensures SeparateTemplates(r) && TemplateArrays(r) == TemplateArrays(ts)
  {
    hide ConstraintArrays, SeparateConstraints;
  }

  method SortTemplateAt(ts: seq<StoredTemplate>, i: nat) returns (r: seq<StoredTemplate>)
    requires ValidTemplates(ts) && SeparateTemplates(ts) && i < |ts|
    modifies TemplateArrays(ts)
    ensures |r| == |ts| && ValidTemplates(r) && SeparateTemplates(r) && TemplateArrays(r) == TemplateArrays(ts)
    ensures forall j :: 0 <= j < |ts| && j != i ==> ViewTemplates(r)[j] == old(ViewTemplates(ts))[j]
    ensures TemplateSorted(old(ViewTemplates(ts))[i], ViewTemplates(r)[i])
  {
    hide TemplateSorted;
    ghost var before := ViewTemplates(ts);
    OtherTemplatesSeparate(ts, i);
    var t := SortTemplate(ts[i]);
    assert forall j :: 0 <= j < |ts| && j != i ==> ViewTemplate(ts[j]) == before[j];
    r := ts[i := t];
    TemplatesKeepArrays(ts, r);
  }

  method SortEachTemplate(ts: seq<StoredTemplate>) returns (r: seq<StoredTemplate>)
    requires ValidTemplates(ts) && SeparateTemplates(ts)
    modifies TemplateArrays(ts)
    ensures |r| == |ts| && ValidTemplates(r) && SeparateTemplates(r)
    ensures TemplateArrays(r) == TemplateArrays(ts)
    ensures forall i :: 0 <= i < |ts| ==> TemplateSorted(old(ViewTemplates(ts))[i], ViewTemplates(r)[i])
  {
    hide TemplateSorted, ValidTemplates, SeparateTemplates, TemplateArrays, ViewTemplate;
    ghost var before := ViewTemplates(ts);
    r := ts;
    for i := 0 to |ts|
      invariant |r| == |ts| && ValidTemplates(r) && SeparateTemplates(r)
      invariant TemplateArrays(r) == TemplateArrays(ts)
      invariant forall j :: i <= j < |ts| ==> ViewTemplates(r)[j] == before[j]
      invariant forall j :: 0 <= j < i ==> TemplateSorted(before[j], ViewTemplates(r)[j])
    {
      r := SortTemplateAt(r, i);
    }
  }

  /** Sort of an AggregatedReport. */
  method SortReport(r: AggregatedReport)
    requires r.Valid()
    modifies r`templates, r.Arrays()
    ensures r.Valid() && r.Arrays() == old(r.Arrays())
    ensures TreeSortedInto(old(r.View()), r.View())
  {
    hide TotalPreorder, TemplateSorted;
    OrdersArePreorders();
    var ts := SortFunc(r.templates, (t: StoredTemplate) => t.kind, Compare);
    PermutedTemplates(r.templates, ts);
    PermutedTemplatesView(r.templates, ts);
    ghost var mid := ViewTemplates(ts);
    ts := SortEachTemplate(ts);
    assert TemplatesArranged(old(r.View()), mid, ViewTemplates(ts));
    r.templates := ts;
  }
}
