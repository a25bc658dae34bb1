/** Merging cluster reports (AggregateReports and its visitors), on reports in memory.
    Every visitor is proved equal to putting the filtered, flattened groups of its
    argument into the value of its target. */
module Aggregate {
  import opened Doop
  import opened Regroup
  import opened Contents
  import opened Filters
  import opened Slices
  import opened Clusters

  method FindViolationGroup(gs: seq<StoredGroup>, pattern: Violation) returns (idx: nat)
    requires ValidGroups(gs)
    ensures idx == FindGroup(ViewGroups(gs), pattern)
  {
    ghost var view := ViewGroups(gs);
    for i := 0 to |gs|
      invariant forall j :: 0 <= j < i ==> view[j].pattern != pattern
    {
      if gs[i].pattern.IsEqualTo(pattern) {
        GroupFoundAt(view, pattern, i);
        return i;
      }
    }
    return |gs|;
  }

  /** The branch that merges into the existing group at idx. */
  method MergeGroup(gs: seq<StoredGroup>, idx: nat, vg: StoredGroup) returns (r: seq<StoredGroup>)
    requires ValidGroups(gs) && SeparateGroups(gs) && idx < |gs|
    requires vg.instances.Valid() && vg.instances.arr !in GroupArrays(gs)
    modifies GroupArrays(gs)
    ensures ValidGroups(r) && SeparateGroups(r) && fresh(GroupArrays(r) - GroupArrays(gs))
    ensures
      var before := old(ViewGroups(gs));
      ViewGroups(r) == before[idx := ViolationGroup(before[idx].pattern, before[idx].instances + old(vg.instances.Elems()))]
  {
    var instances := Append(gs[idx].instances, vg.instances);
    r := gs[idx := ViolationGroup(gs[idx].pattern, instances)];
  }

  /** The branch that starts a new group. */
  method StartGroup(gs: seq<StoredGroup>, vg: StoredGroup) returns (r: seq<StoredGroup>)
    requires ValidGroups(gs) && SeparateGroups(gs) && vg.instances.Valid()
    ensures ValidGroups(r) && SeparateGroups(r) && fresh(GroupArrays(r) - GroupArrays(gs))
    ensures ViewGroups(r) == ViewGroups(gs) + [ViolationGroup(vg.pattern, old(vg.instances.Elems()))]
  {
    var instances := Clone(vg.instances);
    r := gs + [ViolationGroup(vg.pattern, instances)];
  }

  method VisitViolationGroup(target: StoredConstraint, vg: StoredGroup, f: FilterSet, ghost p: Placed)
    returns (r: StoredConstraint)
    requires ValidGroups(target.groups) && SeparateGroups(target.groups)
    requires vg.instances.Valid() && vg.instances.arr !in GroupArrays(target.groups)
    requires p.at.pattern == vg.pattern && p.instances == vg.instances.Elems()
    modifies GroupArrays(target.groups)
    ensures r == target.(groups := r.groups)
    ensures ValidGroups(r.groups) && SeparateGroups(r.groups)
    ensures fresh(GroupArrays(r.groups) - GroupArrays(target.groups))
    ensures ViewGroups(r.groups) ==
      if f.MatchObjectIdentity(vg.pattern.objectIdentity) then PutGroup(old(ViewGroups(target.groups)), p)
      else old(ViewGroups(target.groups))
  {
    hide SeparateGroups;
    if !f.MatchObjectIdentity(vg.pattern.objectIdentity) {
      return target;
    }
    var idx := FindViolationGroup(target.groups, vg.pattern);
    var gs;
    if idx < |target.groups| {
      gs := MergeGroup(target.groups, idx, vg);
    } else {
      gs := StartGroup(target.groups, vg);
    }
    return target.(groups := gs);
  }

  /** The loop over a constraint's groups, common to both branches of visitConstraintReport. */
  method VisitGroups(target: StoredConstraint, vgs: seq<StoredGroup>, f: FilterSet,
      ghost kind: string, ghost metadata: Metadata)
    returns (r: StoredConstraint)
    requires ValidGroups(target.groups) && SeparateGroups(target.groups)
    requires ValidGroups(vgs) && GroupArrays(vgs) !! GroupArrays(target.groups)
    requires f.MatchTemplateKind(kind) && f.MatchConstraintName(target.name) && f.MatchSeverity(metadata.severity)
    modifies GroupArrays(target.groups)
    ensures r == target.(groups := r.groups)
    ensures ValidGroups(r.groups) && SeparateGroups(r.groups)
    ensures fresh(GroupArrays(r.groups) - GroupArrays(target.groups))
    ensures ViewGroups(r.groups) == PutAllGroups(old(ViewGroups(target.groups)),
      FilterPlaced(FlatGroups(kind, target.name, metadata, old(ViewGroups(vgs))), f.Keeps))
  {
    r := target;
    ghost var start := ViewGroups(target.groups);
    ghost var flat := FlatGroups(kind, target.name, metadata, ViewGroups(vgs));
    for i := 0 to |vgs|
      invariant r == target.(groups := r.groups)
      invariant ValidGroups(r.groups) && SeparateGroups(r.groups)
      invariant fresh(GroupArrays(r.groups) - GroupArrays(target.groups))
      invariant ViewGroups(vgs) == old(ViewGroups(vgs))
      invariant ViewGroups(r.groups) == PutAllGroups(start, FilterPlaced(flat[..i], f.Keeps))
    {
      assert vgs[i].instances.arr in GroupArrays(vgs);
      assert ViewGroup(vgs[i]) == ViewGroups(vgs)[i];
      r := VisitViolationGroup(r, vgs[i], f, flat[i]);
      PutNext(start, flat, i, f);
    }
    assert flat[..|vgs|] == flat;
  }

  lemma PutNext(start: seq<Group>, flat: seq<Placed>, i: nat, f: FilterSet)
    requires i < |flat|
    ensures PutAllGroups(start, FilterPlaced(flat[..i + 1], f.Keeps)) ==
      var soFar := PutAllGroups(start, FilterPlaced(flat[..i], f.Keeps));
      if f.Keeps(flat[i].at) then PutGroup(soFar, flat[i]) else soFar
  {
    assert flat[..i + 1] == flat[..i] + [flat[i]];
    FilterAppend(flat[..i], [flat[i]], f.Keeps);
    var last := FilterPlaced([flat[i]], f.Keeps);
    assert last == if f.Keeps(flat[i].at) then [flat[i]] else [];
    FoldAppend(PutGroup, start, FilterPlaced(flat[..i], f.Keeps), last);
    if f.Keeps(flat[i].at) {
      assert last[1..] == [];
    }
  }

  // ----- constraints -----

  lemma ReplacedSeparate(cs: seq<StoredConstraint>, idx: nat, c: StoredConstraint)
    requires idx < |cs| && SeparateConstraints(cs) && SeparateGroups(c.groups)
    requires forall a :: a in GroupArrays(c.groups) && a in ConstraintArrays(cs) ==> a in GroupArrays(cs[idx].groups)
    ensures SeparateConstraints(cs[idx := c])
    ensures ConstraintArrays(cs[idx := c]) <= ConstraintArrays(cs) + GroupArrays(c.groups)
  {
    forall j | 0 <= j < |cs| && j != idx
      ensures GroupArrays(cs[j].groups) !! GroupArrays(c.groups)
    {
      assert GroupArrays(cs[j].groups) <= ConstraintArrays(cs);
      assert GroupArrays(cs[j].groups) !! GroupArrays(cs[idx].groups);
    }
  }

  lemma AppendedSeparate(cs: seq<StoredConstraint>, c: StoredConstraint)
    requires SeparateConstraints(cs) && SeparateGroups(c.groups)
    requires GroupArrays(c.groups) !! ConstraintArrays(cs)
    ensures SeparateConstraints(cs + [c])
    ensures ConstraintArrays(cs + [c]) <= ConstraintArrays(cs) + GroupArrays(c.groups)
  {
    forall j | 0 <= j < |cs|
      ensures GroupArrays(cs[j].groups) !! GroupArrays(c.groups)
    {
      assert GroupArrays(cs[j].groups) <= ConstraintArrays(cs);
    }
  }

  lemma OthersSeparate(cs: seq<StoredConstraint>, idx: nat)
    requires idx < |cs| && SeparateConstraints(cs)
    ensures GroupArrays(cs[idx].groups) <= ConstraintArrays(cs)
    ensures forall j :: 0 <= j < |cs| && j != idx ==> GroupArrays(cs[j].groups) !! GroupArrays(cs[idx].groups)
  {
  }

  /** The branch that merges into the existing constraint at idx. */
  method MergeConstraint(cs: seq<StoredConstraint>, idx: nat, cr: StoredConstraint, f: FilterSet,
      ghost kind: string, ghost ps: seq<Placed>)
    returns (r: seq<StoredConstraint>)
    requires ValidConstraints(cs) && SeparateConstraints(cs) && idx < |cs|
    requires ValidGroups(cr.groups) && GroupArrays(cr.groups) !! ConstraintArrays(cs)
    requires f.MatchTemplateKind(kind) && f.MatchConstraintName(cr.name) && f.MatchSeverity(cr.metadata.severity)
    requires cs[idx].name == cr.name && ps == FilterPlaced(FlatConstraint(kind, ViewConstraint(cr)), f.Keeps)
    modifies ConstraintArrays(cs)
    ensures ValidConstraints(r) && SeparateConstraints(r)
    ensures fresh(ConstraintArrays(r) - ConstraintArrays(cs))
    ensures
      var before := old(ViewConstraints(cs));
      ViewConstraints(r) == before[idx := before[idx].(groups := PutAllGroups(before[idx].groups, ps))]
  {
    OthersSeparate(cs, idx);
    var c := VisitGroups(cs[idx], cr.groups, f, kind, cr.metadata);
    r := cs[idx := c];
    ReplacedSeparate(cs, idx, c);
    assert forall j :: 0 <= j < |cs| && j != idx ==> ViewConstraint(cs[j]) == old(ViewConstraint(cs[j]));
  }

  lemma ConstraintSkipped(kind: string, before: seq<Constraint>, c: Constraint, f: FilterSet)
    requires !f.MatchConstraintName(c.name) || !f.MatchSeverity(c.metadata.severity)
    ensures PutAllConstraints(before, FilterPlaced(FlatConstraint(kind, c), f.Keeps)) == before
  {
    FilterNone(FlatConstraint(kind, c), f.Keeps);
  }

  lemma ConstraintMerged(kind: string, before: seq<Constraint>, c: Constraint, f: FilterSet, ps: seq<Placed>, i: nat)
    requires ps == FilterPlaced(FlatConstraint(kind, c), f.Keeps)
    requires i == FindConstraint(before, c.name, c.metadata.Cleared()) && i < |before|
    ensures PutAllConstraints(before, ps) == before[i := before[i].(groups := PutAllGroups(before[i].groups, ps))]
  {
    FilteredMembers(FlatConstraint(kind, c), f.Keeps);
    PutWithinConstraint(before, ps, c.name, c.metadata.Cleared());
  }

  lemma ConstraintStarted(kind: string, before: seq<Constraint>, c: Constraint, f: FilterSet, ps: seq<Placed>)
    requires ps == FilterPlaced(FlatConstraint(kind, c), f.Keeps)
    requires FindConstraint(before, c.name, c.metadata.Cleared()) == |before|
    ensures
      var gs := PutAllGroups([], ps);
      PutAllConstraints(before, ps) ==
        if gs == [] then before else before + [ReportForConstraint(c.name, c.metadata.Cleared(), [], gs)]
  {
    FilteredMembers(FlatConstraint(kind, c), f.Keeps);
    PutWithinConstraint(before, ps, c.name, c.metadata.Cleared());
    PutAllGroupsNonempty([], ps);
  }

  method FindConstraintReport(cs: seq<StoredConstraint>, name: string, metadata: Metadata) returns (idx: nat)
    requires ValidConstraints(cs)
    ensures idx == FindConstraint(ViewConstraints(cs), name, metadata)
  {
    ghost var view := ViewConstraints(cs);
    for i := 0 to |cs|
      invariant forall j :: 0 <= j < i ==> !(view[j].name == name && view[j].metadata == metadata)
    {
      if cs[i].name == name && cs[i].metadata == metadata {
        ConstraintFoundAt(view, name, metadata, i);
        return i;
      }
    }
    return |cs|;
  }

  /** The branch that starts a new constraint, kept only if it receives a group. */
  method StartConstraint(cs: seq<StoredConstraint>, cr: StoredConstraint, f: FilterSet,
      ghost kind: string, ghost ps: seq<Placed>)
    returns (r: seq<StoredConstraint>)
    requires ValidConstraints(cs) && SeparateConstraints(cs) && ValidGroups(cr.groups)
    requires f.MatchTemplateKind(kind) && f.MatchConstraintName(cr.name) && f.MatchSeverity(cr.metadata.severity)
    requires ps == FilterPlaced(FlatConstraint(kind, ViewConstraint(cr)), f.Keeps)
    ensures ValidConstraints(r) && SeparateConstraints(r)
    ensures fresh(ConstraintArrays(r) - ConstraintArrays(cs))
    ensures
      var gs := PutAllGroups([], ps);
      ViewConstraints(r) ==
        if gs == [] then ViewConstraints(cs)
        else ViewConstraints(cs) + [ReportForConstraint(cr.name, cr.metadata.Cleared(), [], gs)]
  {
    var newReport := ReportForConstraint(cr.name, cr.metadata.(auditTimestamp := ""), [], []);
    assert GroupArrays(newReport.groups) == {};
    newReport := VisitGroups(newReport, cr.groups, f, kind, cr.metadata);
    r := cs;
    if |newReport.groups| > 0 {
      AppendedSeparate(cs, newReport);
      r := cs + [newReport];
    }
  }

  method MergeOrStartConstraint(cs: seq<StoredConstraint>, cr: StoredConstraint, f: FilterSet, ghost kind: string)
    returns (r: seq<StoredConstraint>)
    requires ValidConstraints(cs) && SeparateConstraints(cs)
    requires ValidGroups(cr.groups) && GroupArrays(cr.groups) !! ConstraintArrays(cs)
    requires f.MatchTemplateKind(kind) && f.MatchConstraintName(cr.name) && f.MatchSeverity(cr.metadata.severity)
    modifies ConstraintArrays(cs)
    ensures ValidConstraints(r) && SeparateConstraints(r)
    ensures fresh(ConstraintArrays(r) - ConstraintArrays(cs))
    ensures ViewConstraints(r)
      == PutAllConstraints(old(ViewConstraints(cs)), FilterPlaced(FlatConstraint(kind, old(ViewConstraint(cr))), f.Keeps))
  {
    hide FilterPlaced, FlatConstraint, PutAllConstraints, PutAllGroups, SeparateConstraints;
    ghost var before, c := ViewConstraints(cs), ViewConstraint(cr);
    ghost var ps := FilterPlaced(FlatConstraint(kind, c), f.Keeps);
    var metadata := cr.metadata.(auditTimestamp := "");
    var idx := FindConstraintReport(cs, cr.name, metadata);
    if idx < |cs| {
      ConstraintMerged(kind, before, c, f, ps, idx);
      r := MergeConstraint(cs, idx, cr, f, kind, ps);
    } else {
      ConstraintStarted(kind, before, c, f, ps);
      r := StartConstraint(cs, cr, f, kind, ps);
    }
  }

  method VisitConstraintReport(target: StoredTemplate, cr: StoredConstraint, f: FilterSet) returns (r: StoredTemplate)
    requires ValidConstraints(target.constraints) && SeparateConstraints(target.constraints)
    requires ValidGroups(cr.groups) && GroupArrays(cr.groups) !! ConstraintArrays(target.constraints)
    requires f.MatchTemplateKind(target.kind)
    modifies ConstraintArrays(target.constraints)
    ensures r == target.(constraints := r.constraints)
    ensures ValidConstraints(r.constraints) && SeparateConstraints(r.constraints)
    ensures fresh(ConstraintArrays(r.constraints) - ConstraintArrays(target.constraints))
    ensures ViewConstraints(r.constraints) == PutAllConstraints(old(ViewConstraints(target.constraints)),
      FilterPlaced(FlatConstraint(target.kind, old(ViewConstraint(cr))), f.Keeps))
  {
    hide FilterPlaced, FlatConstraint, PutAllConstraints, SeparateConstraints;
    if !f.MatchConstraintName(cr.name) || !f.MatchSeverity(cr.metadata.severity) {
      ConstraintSkipped(target.kind, ViewConstraints(target.constraints), ViewConstraint(cr), f);
      return target;
    }
    var cs := MergeOrStartConstraint(target.constraints, cr, f, target.kind);
    return target.(constraints := cs);
  }

  // ----- templates -----

  /** The loop over a template's constraints, common to both branches of visitTemplateReport. */
  method VisitConstraints(target: StoredTemplate, crs: seq<StoredConstraint>, f: FilterSet) returns (r: StoredTemplate)
    requires ValidConstraints(target.constraints) && SeparateConstraints(target.constraints)
    requires ValidConstraints(crs) && ConstraintArrays(crs) !! ConstraintArrays(target.constraints)
    requires f.MatchTemplateKind(target.kind)
    modifies ConstraintArrays(target.constraints)
    ensures r == target.(constraints := r.constraints)
    ensures ValidConstraints(r.constraints) && SeparateConstraints(r.constraints)
    ensures fresh(ConstraintArrays(r.constraints) - ConstraintArrays(target.constraints))
    ensures ViewConstraints(r.constraints) == PutAllConstraints(old(ViewConstraints(target.constraints)),
      FilterPlaced(FlatConstraints(target.kind, old(ViewConstraints(crs))), f.Keeps))
  {
    r := target;
    ghost var start := ViewConstraints(target.constraints);
    ghost var view := ViewConstraints(crs);
    for i := 0 to |crs|
      invariant r == target.(constraints := r.constraints)
      invariant ValidConstraints(r.constraints) && SeparateConstraints(r.constraints)
      invariant fresh(ConstraintArrays(r.constraints) - ConstraintArrays(target.constraints))
      invariant ViewConstraints(crs) == view
      invariant ViewConstraints(r.constraints)
        == PutAllConstraints(start, FilterPlaced(FlatConstraints(target.kind, view[..i]), f.Keeps))
    {
      assert GroupArrays(crs[i].groups) <= ConstraintArrays(crs);
      r := VisitConstraintReport(r, crs[i], f);
      PutNextConstraint(start, target.kind, view, i, f);
    }
    assert view[..|crs|] == view;
  }

  lemma PutNextConstraint(start: seq<Constraint>, kind: string, view: seq<Constraint>, i: nat, f: FilterSet)
    requires i < |view|
    ensures PutAllConstraints(start, FilterPlaced(FlatConstraints(kind, view[..i + 1]), f.Keeps))
      == PutAllConstraints(PutAllConstraints(start, FilterPlaced(FlatConstraints(kind, view[..i]), f.Keeps)),
        FilterPlaced(FlatConstraint(kind, view[i]), f.Keeps))
  {
    assert view[..i + 1] == view[..i] + [view[i]];
    FlatConstraintsAppend(kind, view[..i], [view[i]]);
    FlatConstraintsOne(kind, view[i]);
    FilterAppend(FlatConstraints(kind, view[..i]), FlatConstraint(kind, view[i]), f.Keeps);
    FoldAppend(PutConstraint, start, FilterPlaced(FlatConstraints(kind, view[..i]), f.Keeps),
      FilterPlaced(FlatConstraint(kind, view[i]), f.Keeps));
  }

  lemma TemplateReplacedSeparate(ts: seq<StoredTemplate>, idx: nat, t: StoredTemplate)
    requires idx < |ts| && SeparateTemplates(ts) && SeparateConstraints(t.constraints)
    requires forall a :: a in ConstraintArrays(t.constraints) && a in TemplateArrays(ts) ==>
      a in ConstraintArrays(ts[idx].constraints)
    ensures SeparateTemplates(ts[idx := t])
    ensures TemplateArrays(ts[idx := t]) <= TemplateArrays(ts) + ConstraintArrays(t.constraints)
  {
    forall j | 0 <= j < |ts| && j != idx
      ensures ConstraintArrays(ts[j].constraints) !! ConstraintArrays(t.constraints)
    {
      assert ConstraintArrays(ts[j].constraints) <= TemplateArrays(ts);
      assert ConstraintArrays(ts[j].constraints) !! ConstraintArrays(ts[idx].constraints);
    }
  }

  lemma TemplateAppendedSeparate(ts: seq<StoredTemplate>, t: StoredTemplate)
    requires SeparateTemplates(ts) && SeparateConstraints(t.constraints)
    requires ConstraintArrays(t.constraints) !! TemplateArrays(ts)
    ensures SeparateTemplates(ts + [t])
    ensures TemplateArrays(ts + [t]) <= TemplateArrays(ts) + ConstraintArrays(t.constraints)
  {
    forall j | 0 <= j < |ts|
      ensures ConstraintArrays(ts[j].constraints) !! ConstraintArrays(t.constraints)
    {
      assert ConstraintArrays(ts[j].constraints) <= TemplateArrays(ts);
    }
  }

  lemma OtherTemplatesSeparate(ts: seq<StoredTemplate>, idx: nat)
    requires idx < |ts| && SeparateTemplates(ts)
    ensures ConstraintArrays(ts[idx].constraints) <= TemplateArrays(ts)
    ensures forall j :: 0 <= j < |ts| && j != idx ==>
      ConstraintArrays(ts[j].constraints) !! ConstraintArrays(ts[idx].constraints)
  {
  }

  lemma TemplateSkipped(before: seq<Template>, t: Template, f: FilterSet)
    requires !f.MatchTemplateKind(t.kind)
    ensures PutAll(before, FilterPlaced(FlatTemplate(t), f.Keeps)) == before
  {
    FlatConstraintsCleared(t.kind, t.constraints);
    FilterNone(FlatTemplate(t), f.Keeps);
  }

  lemma TemplateMerged(before: seq<Template>, t: Template, f: FilterSet, ps: seq<Placed>, i: nat)
    requires ps == FilterPlaced(FlatTemplate(t), f.Keeps)
    requires i == FindTemplate(before, t.kind) && i < |before|
    ensures PutAll(before, ps) == before[i := before[i].(constraints := PutAllConstraints(before[i].constraints, ps))]
  {
    FlatConstraintsCleared(t.kind, t.constraints);
    FilteredMembers(FlatTemplate(t), f.Keeps);
    PutWithinTemplate(before, ps, t.kind);
  }

  lemma TemplateStarted(before: seq<Template>, t: Template, f: FilterSet, ps: seq<Placed>)
    requires ps == FilterPlaced(FlatTemplate(t), f.Keeps)
    requires FindTemplate(before, t.kind) == |before|
    ensures
      var cs := PutAllConstraints([], ps);
      PutAll(before, ps) == if cs == [] then before else before + [ReportForTemplate(t.kind, cs)]
  {
    FlatConstraintsCleared(t.kind, t.constraints);
    FilteredMembers(FlatTemplate(t), f.Keeps);
    PutWithinTemplate(before, ps, t.kind);
    PutAllConstraintsNonempty([], ps);
  }

  method FindTemplateReport(ts: seq<StoredTemplate>, kind: string) returns (idx: nat)
    requires ValidTemplates(ts)
    ensures idx == FindTemplate(ViewTemplates(ts), kind)
  {
    ghost var view := ViewTemplates(ts);
    for i := 0 to |ts|
      invariant forall j :: 0 <= j < i ==> view[j].kind != kind
    {
      if ts[i].kind == kind {
        TemplateFoundAt(view, kind, i);
        return i;
      }
    }
    return |ts|;
  }

  lemma ReplacedTemplateView(ts: seq<StoredTemplate>, idx: nat, t: StoredTemplate, before: seq<Template>)
    requires ValidTemplates(ts) && ValidConstraints(t.constraints) && |before| == |ts| && idx < |ts|
    requires forall j :: 0 <= j < |ts| && j != idx ==> ViewTemplate(ts[j]) == before[j]
    ensures ValidTemplates(ts[idx := t]) && ViewTemplates(ts[idx := t]) == before[idx := ViewTemplate(t)]
  {
    hide ViewTemplate;
  }

  /** The branch that merges into the existing template at idx. */
  method MergeTemplate(ts: seq<StoredTemplate>, idx: nat, tr: StoredTemplate, f: FilterSet, ghost ps: seq<Placed>)
    returns (r: seq<StoredTemplate>)
    requires ValidTemplates(ts) && SeparateTemplates(ts)
    requires idx < |ts| && ts[idx].kind == tr.kind && f.MatchTemplateKind(tr.kind)
    requires ValidConstraints(tr.constraints) && ConstraintArrays(tr.constraints) !! TemplateArrays(ts)
    requires ps == FilterPlaced(FlatTemplate(ViewTemplate(tr)), f.Keeps)
    modifies TemplateArrays(ts)
    ensures ValidTemplates(r) && SeparateTemplates(r)
    ensures fresh(TemplateArrays(r) - TemplateArrays(ts))
    ensures
      var before := old(ViewTemplates(ts));
      ViewTemplates(r) == before[idx := before[idx].(constraints := PutAllConstraints(before[idx].constraints, ps))]
  {
    assert SeparateConstraints(ts[idx].constraints);
    hide FilterPlaced, FlatTemplate, PutAllConstraints, SeparateTemplates, SeparateConstraints;
    ghost var before := ViewTemplates(ts);
    OtherTemplatesSeparate(ts, idx);
    var t := VisitConstraints(ts[idx], tr.constraints, f);
    r := ts[idx := t];
    TemplateReplacedSeparate(ts, idx, t);
    assert forall j :: 0 <= j < |ts| && j != idx ==> ViewTemplate(ts[j]) == before[j];
    ReplacedTemplateView(ts, idx, t, before);
  }

  /** The branch that starts a new template, kept only if it receives a constraint. */
  method StartTemplate(ts: seq<StoredTemplate>, tr: StoredTemplate, f: FilterSet, ghost ps: seq<Placed>)
    returns (r: seq<StoredTemplate>)
    requires ValidTemplates(ts) && SeparateTemplates(ts)
    requires f.MatchTemplateKind(tr.kind) && ValidConstraints(tr.constraints)
    requires ps == FilterPlaced(FlatTemplate(ViewTemplate(tr)), f.Keeps)
    ensures ValidTemplates(r) && SeparateTemplates(r)
    ensures fresh(TemplateArrays(r) - TemplateArrays(ts))
    ensures
      var cs := PutAllConstraints([], ps);
      ViewTemplates(r) == if cs == [] then ViewTemplates(ts) else ViewTemplates(ts) + [ReportForTemplate(tr.kind, cs)]
  {
    var newReport := ReportForTemplate(tr.kind, []);
    assert ConstraintArrays(newReport.constraints) == {};
    newReport := VisitConstraints(newReport, tr.constraints, f);
    r := ts;
    if |newReport.constraints| > 0 {
      TemplateAppendedSeparate(ts, newReport);
      r := ts + [newReport];
    }
  }

  method MergeOrStartTemplate(ts: seq<StoredTemplate>, tr: StoredTemplate, f: FilterSet) returns (r: seq<StoredTemplate>)
    requires ValidTemplates(ts) && SeparateTemplates(ts)
    requires ValidConstraints(tr.constraints) && ConstraintArrays(tr.constraints) !! TemplateArrays(ts)
    requires f.MatchTemplateKind(tr.kind)
    modifies TemplateArrays(ts)
    ensures ValidTemplates(r) && SeparateTemplates(r)
    ensures fresh(TemplateArrays(r) - TemplateArrays(ts))
    ensures ViewTemplates(r) == PutAll(old(ViewTemplates(ts)), FilterPlaced(FlatTemplate(old(ViewTemplate(tr))), f.Keeps))
  {
    hide FilterPlaced, FlatTemplate, PutAll, PutAllConstraints, SeparateTemplates, SeparateConstraints;
    ghost var before, t := ViewTemplates(ts), ViewTemplate(tr);
    ghost var ps := FilterPlaced(FlatTemplate(t), f.Keeps);
    var idx := FindTemplateReport(ts, tr.kind);
    if idx < |ts| {
      TemplateMerged(before, t, f, ps, idx);
      r := MergeTemplate(ts, idx, tr, f, ps);
    } else {
      TemplateStarted(before, t, f, ps);
      r := StartTemplate(ts, tr, f, ps);
    }
  }

  /** The result under construction; the visitors update its fields through a pointer. */
  class AggregatedReport {
    var clusterIdentities: map<string, Identity>
    var templates: seq<StoredTemplate>

    ghost predicate Valid()
      reads this
    {
      ValidTemplates(templates) && SeparateTemplates(templates)
    }

    ghost function Arrays(): set<array<Violation>>
      reads this
    {
      TemplateArrays(templates)
    }

    function View(): seq<Template>
      requires Valid()
      reads this, Arrays()
    {
      ViewTemplates(templates)
    }

    constructor ()
      ensures Valid() && clusterIdentities == map[]
      ensures View() == [] && Arrays() == {}
    {
      clusterIdentities := map[];
      templates := [];
    }

    method VisitTemplateReport(tr: StoredTemplate, f: FilterSet)
      requires Valid() && ValidConstraints(tr.constraints) && ConstraintArrays(tr.constraints) !! Arrays()
      modifies `templates, Arrays()
      ensures Valid() && fresh(Arrays() - old(Arrays()))
      ensures View() == PutAll(old(View()), FilterPlaced(FlatTemplate(old(ViewTemplate(tr))), f.Keeps))
    {
      hide FilterPlaced, FlatTemplate, PutAll, SeparateTemplates;
      if !f.MatchTemplateKind(tr.kind) {
        TemplateSkipped(View(), ViewTemplate(tr), f);
      } else {
        templates := MergeOrStartTemplate(templates, tr, f);
      }
    }

    method VisitTemplates(trs: seq<StoredTemplate>, f: FilterSet)
      requires Valid() && ValidTemplates(trs) && TemplateArrays(trs) !! Arrays()
      modifies `templates, Arrays()
      ensures Valid() && fresh(Arrays() - old(Arrays()))
      ensures View() == PutAll(old(View()), FilterPlaced(FlatTemplates(old(ViewTemplates(trs))), f.Keeps))
    {
      hide PutAll, FilterPlaced, SeparateTemplates;
      ghost var start := View();
      ghost var view := ViewTemplates(trs);
      NothingYet(start, f);
      for i := 0 to |trs|
        invariant Valid() && fresh(Arrays() - old(Arrays()))
        invariant ViewTemplates(trs) == view
        invariant View() == PutAll(start, FilterPlaced(FlatTemplates(view[..i]), f.Keeps))
      {
        assert ConstraintArrays(trs[i].constraints) <= TemplateArrays(trs);
        VisitTemplateReport(trs[i], f);
        PutNextTemplate(start, view, i, f);
      }
      assert view[..|trs|] == view;
    }

    method VisitClusterReport(report: StoredReport, clusterName: string, f: FilterSet)
      requires Valid() && ValidTemplates(report.templates) && TemplateArrays(report.templates) !! Arrays()
      modifies this, Arrays()
      ensures Valid() && fresh(Arrays() - old(Arrays()))
      ensures View() == PutAll(old(View()), FlatCluster(old(ViewReport(report)), f))
      ensures clusterIdentities ==
        if f.MatchClusterIdentity(report.clusterIdentity) then old(clusterIdentities)[clusterName := report.clusterIdentity]
        else old(clusterIdentities)
    {
      hide PutAll, FilterPlaced, FlatTemplates, SeparateTemplates;
      NothingYet(View(), f);
      if !f.MatchClusterIdentity(report.clusterIdentity) {
        return;
      }
      clusterIdentities := clusterIdentities[clusterName := report.clusterIdentity];
      VisitTemplates(report.templates, f);
    }
  }

  lemma NothingYet(ts: seq<Template>, f: FilterSet)
    ensures PutAll(ts, []) == ts
    ensures FilterPlaced(FlatTemplates([]), f.Keeps) == []
  {
  }

  lemma PutNextTemplate(start: seq<Template>, view: seq<Template>, i: nat, f: FilterSet)
    requires i < |view|
    ensures PutAll(start, FilterPlaced(FlatTemplates(view[..i + 1]), f.Keeps))
      == PutAll(PutAll(start, FilterPlaced(FlatTemplates(view[..i]), f.Keeps)), FilterPlaced(FlatTemplate(view[i]), f.Keeps))
  {
    assert view[..i + 1] == view[..i] + [view[i]];
    FlatTemplatesAppend(view[..i], [view[i]]);
    FlatTemplatesOne(view[i]);
    FilterAppend(FlatTemplates(view[..i]), FlatTemplate(view[i]), f.Keeps);
    FoldAppend(PutTemplate, start, FilterPlaced(FlatTemplates(view[..i]), f.Keeps),
      FilterPlaced(FlatTemplate(view[i]), f.Keeps));
  }

  // ----- clusters -----

  /** One iteration of the loop over the clusters. */
  method VisitNext(target: AggregatedReport, reports: StoredReports, clusterName: string, f: FilterSet)
    requires ValidReports(reports) && clusterName in reports
    requires target.Valid() && ReportArrays(reports) !! target.Arrays()
    modifies target, target.Arrays()
    ensures target.Valid() && fresh(target.Arrays() - old(target.Arrays()))
    ensures ReportArrays(reports) !! target.Arrays()
    ensures ViewReports(reports) == old(ViewReports(reports))
    ensures
      var view := ViewReports(reports)[clusterName];
      && target.View() == PutAll(old(target.View()), FlatCluster(view, f))
      && target.clusterIdentities ==
        if f.MatchClusterIdentity(view.clusterIdentity) then old(target.clusterIdentities)[clusterName := view.clusterIdentity]
        else old(target.clusterIdentities)
  {
    hide PutAll, FlatCluster;
    assert TemplateArrays(reports[clusterName].templates) <= ReportArrays(reports);
    target.VisitClusterReport(reports[clusterName], clusterName, f);
  }

  /** No modifies clause: no array of a report is ever written. The clusters are visited
      in any order; the ghost result names the order taken. */
  method AggregateReports(reports: StoredReports, f: FilterSet) returns (target: AggregatedReport, ghost order: seq<string>)
    requires ValidReports(reports)
    ensures fresh(target) && target.Valid() && fresh(target.Arrays())
    ensures IsOrdering(order, reports.Keys)
    ensures target.View() == Aggregated(ViewReports(reports), order, f)
    ensures target.clusterIdentities == MatchingIdentities(ViewReports(reports), f)
  {
    hide Aggregated, PutAll, FlatCluster, MatchingIdentities, IdentitiesOf, ViewReports, ReportArrays, ValidReports;
    hide AggregatedReport.Valid, AggregatedReport.Arrays, AggregatedReport.View;
    target := new AggregatedReport();
    order := [];
    ghost var view := ViewReports(reports);
    var todo := reports.Keys;
    NoCluster(view, f);
    assert reports.Keys - todo == {};
    while todo != {}
      invariant todo <= reports.Keys
      invariant target.Valid() && fresh(target) && fresh(target.Arrays())
      invariant ReportArrays(reports) !! target.Arrays()
      invariant ViewReports(reports) == view
      invariant IsOrdering(order, reports.Keys - todo)
      invariant target.View() == Aggregated(view, order, f)
      invariant target.clusterIdentities == IdentitiesOf(view, reports.Keys - todo, f)
      decreases |todo|
    {
      var clusterName :| clusterName in todo;
      NextCluster(view, order, clusterName, f);
      NextIdentity(view, reports.Keys - todo, clusterName, f);
      assert reports.Keys - (todo - {clusterName}) == reports.Keys - todo + {clusterName};
      ghost var before := target.Arrays();
      label L:
      VisitNext(target, reports, clusterName, f);
      forall a | a in target.Arrays()
        ensures fresh(a)
      {
        assert a in before || fresh@L(a);
      }
      todo := todo - {clusterName};
      order := order + [clusterName];
    }
    assert reports.Keys - todo == reports.Keys;
    AllIdentities(view, f);
  }

  ghost function IdentitiesOf(reports: ClusterReports, visited: set<string>, f: FilterSet): map<string, Identity> {
    map x | x in reports && x in visited && f.MatchClusterIdentity(reports[x].clusterIdentity) :: reports[x].clusterIdentity
  }

  lemma NextIdentity(reports: ClusterReports, visited: set<string>, x: string, f: FilterSet)
    requires x in reports
    ensures IdentitiesOf(reports, visited + {x}, f) ==
      if f.MatchClusterIdentity(reports[x].clusterIdentity)
      then IdentitiesOf(reports, visited, f)[x := reports[x].clusterIdentity]
      else IdentitiesOf(reports, visited, f)
  {
  }

  lemma NoCluster(reports: ClusterReports, f: FilterSet)
    ensures Aggregated(reports, [], f) == []
    ensures IdentitiesOf(reports, {}, f) == map[]
  {
  }

  lemma AllIdentities(reports: ClusterReports, f: FilterSet)
    ensures IdentitiesOf(reports, reports.Keys, f) == MatchingIdentities(reports, f)
  {
  }

  lemma NextCluster(reports: ClusterReports, order: seq<string>, x: string, f: FilterSet)
    requires x in reports && forall y :: y in order ==> y in reports
    ensures Aggregated(reports, order + [x], f) == PutAll(Aggregated(reports, order, f), FlatCluster(reports[x], f))
  {
    MoveToFront(reports, order, x, [], f);
    assert order + [x] + [] == order + [x];
    assert FlatClusters(reports, order + [x], f) == FlatClusters(reports, order, f) + FlatCluster(reports[x], f);
    FoldAppend(PutTemplate, [], FlatClusters(reports, order, f), FlatCluster(reports[x], f));
  }
}
