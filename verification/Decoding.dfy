/** Reports decoded into new memory. */
module Decoding {
  import opened Doop
  import opened Slices

  method DecodeInstances(vs: seq<Violation>) returns (s: Slice)
    ensures s.Valid() && fresh(s.arr) && s.Elems() == vs
  {
    var spare: nat :| true;
    var arr := new Violation[|vs| + spare];
    forall i | 0 <= i < |vs| {
      arr[i] := vs[i];
    }
    s := Slice(arr, |vs|);
  }

  lemma AppendGroup(gs: seq<StoredGroup>, g: StoredGroup)
    requires ValidGroups(gs) && g.instances.Valid()
    ensures ValidGroups(gs + [g]) && GroupArrays(gs + [g]) == GroupArrays(gs) + {g.instances.arr}
    ensures ViewGroups(gs + [g]) == ViewGroups(gs) + [ViewGroup(g)]
  {
    var r := gs + [g];
    assert r[|gs|] == g && forall i :: 0 <= i < |gs| ==> r[i] == gs[i];
    assert forall i :: 0 <= i < |gs| ==> r[i].instances.arr in GroupArrays(r);
    assert r[|gs|].instances.arr in GroupArrays(r);
  }

  method DecodeGroups(gs: seq<Group>) returns (r: seq<StoredGroup>)
    ensures ValidGroups(r) && fresh(GroupArrays(r)) && ViewGroups(r) == gs
  {
    hide GroupArrays, ValidGroups, ViewGroups;
    r := [];
    NoGroups();
    for i := 0 to |gs|
      invariant ValidGroups(r) && fresh(GroupArrays(r)) && ViewGroups(r) == gs[..i]
    {
      ghost var view := ViewGroups(r);
      var s := DecodeInstances(gs[i].instances);
      assert ViewGroups(r) == view;
      var g := ViolationGroup(gs[i].pattern, s);
      AppendGroup(r, g);
      r := r + [g];
    }
  }

  lemma NoGroups()
    ensures ValidGroups([]) && GroupArrays([]) == {} && ViewGroups([]) == []
  {
  }

  lemma AppendConstraint(cs: seq<StoredConstraint>, c: StoredConstraint)
    requires ValidConstraints(cs) && ValidGroups(c.groups)
    ensures ValidConstraints(cs + [c]) && ConstraintArrays(cs + [c]) == ConstraintArrays(cs) + GroupArrays(c.groups)
    ensures ViewConstraints(cs + [c]) == ViewConstraints(cs) + [ViewConstraint(c)]
  {
    hide GroupArrays, ValidGroups;
    var r := cs + [c];
    assert r[|cs|] == c && forall i :: 0 <= i < |cs| ==> r[i] == cs[i];
    forall a | a in ConstraintArrays(cs) + GroupArrays(c.groups)
      ensures a in ConstraintArrays(r)
    {
      if a in ConstraintArrays(cs) {
        var i :| 0 <= i < |cs| && a in GroupArrays(cs[i].groups);
        assert a in GroupArrays(r[i].groups);
      } else {
        assert a in GroupArrays(r[|cs|].groups);
      }
    }
  }

  method DecodeConstraints(cs: seq<Constraint>) returns (r: seq<StoredConstraint>)
    ensures ValidConstraints(r) && fresh(ConstraintArrays(r)) && ViewConstraints(r) == cs
  {
    hide ConstraintArrays, GroupArrays, ValidConstraints, ValidGroups, ViewConstraints;
    r := [];
    NoConstraints();
    for i := 0 to |cs|
      invariant ValidConstraints(r) && fresh(ConstraintArrays(r)) && ViewConstraints(r) == cs[..i]
    {
      ghost var view := ViewConstraints(r);
      ConstraintArraysAllocated(r);
      var gs := DecodeGroups(cs[i].groups);
      assert ViewConstraints(r) == view;
      var c := ReportForConstraint(cs[i].name, cs[i].metadata, cs[i].violations, gs);
      AppendConstraint(r, c);
      r := r + [c];
    }
  }

  lemma NoConstraints()
    ensures ValidConstraints([]) && ConstraintArrays([]) == {} && ViewConstraints([]) == []
  {
  }

  lemma AppendTemplate(ts: seq<StoredTemplate>, t: StoredTemplate)
    requires ValidTemplates(ts) && ValidConstraints(t.constraints)
    ensures ValidTemplates(ts + [t]) && TemplateArrays(ts + [t]) == TemplateArrays(ts) + ConstraintArrays(t.constraints)
    ensures ViewTemplates(ts + [t]) == ViewTemplates(ts) + [ViewTemplate(t)]
  {
    hide ConstraintArrays, ValidConstraints;
    var r := ts + [t];
    assert r[|ts|] == t && forall i :: 0 <= i < |ts| ==> r[i] == ts[i];
    forall a | a in TemplateArrays(ts) + ConstraintArrays(t.constraints)
      ensures a in TemplateArrays(r)
    {
      if a in TemplateArrays(ts) {
        var i :| 0 <= i < |ts| && a in ConstraintArrays(ts[i].constraints);
        assert a in ConstraintArrays(r[i].constraints);
      } else {
        assert a in ConstraintArrays(r[|ts|].constraints);
      }
    }
  }

  method DecodeTemplates(ts: seq<Template>) returns (r: seq<StoredTemplate>)
    ensures ValidTemplates(r) && fresh(TemplateArrays(r)) && ViewTemplates(r) == ts
  {
    hide TemplateArrays, ConstraintArrays, ValidTemplates, ValidConstraints, ViewTemplates;
    r := [];
    NoTemplates();
    for i := 0 to |ts|
      invariant ValidTemplates(r) && fresh(TemplateArrays(r)) && ViewTemplates(r) == ts[..i]
    {
      ghost var view := ViewTemplates(r);
      TemplateArraysAllocated(r);
      var cs := DecodeConstraints(ts[i].constraints);
      assert ViewTemplates(r) == view;
      var t := ReportForTemplate(ts[i].kind, cs);
      AppendTemplate(r, t);
      r := r + [t];
    }
  }

  lemma NoTemplates()
    ensures ValidTemplates([]) && TemplateArrays([]) == {} && ViewTemplates([]) == []
  {
  }

  method DecodeReport(report: ClusterReport) returns (r: StoredReport)
    ensures ValidTemplates(r.templates) && fresh(TemplateArrays(r.templates)) && ViewReport(r) == report
  {
    var ts := DecodeTemplates(report.templates);
    r := Report(report.clusterIdentity, ts);
  }
}
