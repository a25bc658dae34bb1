/** The specification of aggregation. A report is a flat list of placed groups: each
    violation group with the template kind, the constraint and the pattern it belongs
    to. Merging reports is putting placed groups into a tree one after another. */
module Regroup {
  import opened Doop

  datatype Address = Address(kind: string, name: string, metadata: Metadata, pattern: Violation)
  datatype Placed = Placed(at: Address, instances: seq<Violation>)
  datatype Entry = Entry(at: Address, instance: Violation)

  // ----- flattening -----

  function FlatGroups(kind: string, name: string, metadata: Metadata, gs: seq<Group>): (r: seq<Placed>)
    ensures |r| == |gs|
  {
    seq(|gs|, i requires 0 <= i < |gs| =>
      Placed(Address(kind, name, metadata.Cleared(), gs[i].pattern), gs[i].instances))
  }

  function FlatConstraint(kind: string, c: Constraint): seq<Placed> {
    FlatGroups(kind, c.name, c.metadata, c.groups)
  }

  function FlatConstraints(kind: string, cs: seq<Constraint>): seq<Placed> {
    if cs == [] then [] else FlatConstraint(kind, cs[0]) + FlatConstraints(kind, cs[1..])
  }

  function FlatTemplate(t: Template): seq<Placed> {
    FlatConstraints(t.kind, t.constraints)
  }

  function FlatTemplates(ts: seq<Template>): seq<Placed> {
    if ts == [] then [] else FlatTemplate(ts[0]) + FlatTemplates(ts[1..])
  }

  function InstanceCount(ps: seq<Placed>): nat {
    if ps == [] then 0 else |ps[0].instances| + InstanceCount(ps[1..])
  }

  lemma FlattenStep(x: seq<Placed>, y: seq<Placed>, z: seq<Placed>)
    ensures x + (y + z) == x + y + z
  {
  }

  lemma {:induction false} FlatConstraintsAppend(kind: string, a: seq<Constraint>, b: seq<Constraint>)
    ensures FlatConstraints(kind, a + b) == FlatConstraints(kind, a) + FlatConstraints(kind, b)
  {
    if a == [] {
      assert a + b == b;
    } else {
      FlatConstraintsAppend(kind, a[1..], b);
      assert (a + b)[0] == a[0] && (a + b)[1..] == a[1..] + b;
      FlattenStep(FlatConstraint(kind, a[0]), FlatConstraints(kind, a[1..]), FlatConstraints(kind, b));
    }
  }

  lemma {:induction false} FlatTemplatesAppend(a: seq<Template>, b: seq<Template>)
    ensures FlatTemplates(a + b) == FlatTemplates(a) + FlatTemplates(b)
  {
    if a == [] {
      assert a + b == b;
    } else {
      FlatTemplatesAppend(a[1..], b);
      assert (a + b)[0] == a[0] && (a + b)[1..] == a[1..] + b;
      FlattenStep(FlatTemplate(a[0]), FlatTemplates(a[1..]), FlatTemplates(b));
    }
  }

  // ----- putting -----

  function FindGroup(gs: seq<Group>, pattern: Violation): (i: nat)
    ensures i <= |gs|
    ensures forall j :: 0 <= j < i ==> gs[j].pattern != pattern
    ensures i < |gs| ==> gs[i].pattern == pattern
  {
    if gs == [] || gs[0].pattern == pattern then 0 else 1 + FindGroup(gs[1..], pattern)
  }

  function FindConstraint(cs: seq<Constraint>, name: string, metadata: Metadata): (i: nat)
    ensures i <= |cs|
    ensures forall j :: 0 <= j < i ==> !(cs[j].name == name && cs[j].metadata == metadata)
    ensures i < |cs| ==> cs[i].name == name && cs[i].metadata == metadata
  {
    if cs == [] || (cs[0].name == name && cs[0].metadata == metadata) then 0
    else 1 + FindConstraint(cs[1..], name, metadata)
  }

  function FindTemplate(ts: seq<Template>, kind: string): (i: nat)
    ensures i <= |ts|
    ensures forall j :: 0 <= j < i ==> ts[j].kind != kind
    ensures i < |ts| ==> ts[i].kind == kind
  {
    if ts == [] || ts[0].kind == kind then 0 else 1 + FindTemplate(ts[1..], kind)
  }

  function PutGroup(gs: seq<Group>, p: Placed): seq<Group> {
    var i := FindGroup(gs, p.at.pattern);
    if i < |gs| then gs[i := ViolationGroup(gs[i].pattern, gs[i].instances + p.instances)]
    else gs + [ViolationGroup(p.at.pattern, p.instances)]
  }

  function NewConstraint(p: Placed, gs: seq<Group>): Constraint {
    ReportForConstraint(p.at.name, p.at.metadata, [], gs)
  }

  function PutConstraint(cs: seq<Constraint>, p: Placed): seq<Constraint> {
    var i := FindConstraint(cs, p.at.name, p.at.metadata);
    if i < |cs| then cs[i := cs[i].(groups := PutGroup(cs[i].groups, p))]
    else cs + [NewConstraint(p, PutGroup([], p))]
  }

  function PutTemplate(ts: seq<Template>, p: Placed): seq<Template> {
    var i := FindTemplate(ts, p.at.kind);
    if i < |ts| then ts[i := ts[i].(constraints := PutConstraint(ts[i].constraints, p))]
    else ts + [ReportForTemplate(p.at.kind, PutConstraint([], p))]
  }

  function Fold<S>(put: (S, Placed) -> S, start: S, ps: seq<Placed>): S
    decreases |ps|
  {
    if ps == [] then start else Fold(put, put(start, ps[0]), ps[1..])
  }

  function PutAllGroups(gs: seq<Group>, ps: seq<Placed>): seq<Group> {
    Fold(PutGroup, gs, ps)
  }

  function PutAllConstraints(cs: seq<Constraint>, ps: seq<Placed>): seq<Constraint> {
    Fold(PutConstraint, cs, ps)
  }

  function PutAll(ts: seq<Template>, ps: seq<Placed>): seq<Template> {
    Fold(PutTemplate, ts, ps)
  }

  lemma {:induction false} FoldAppend<S>(put: (S, Placed) -> S, start: S, a: seq<Placed>, b: seq<Placed>)
    ensures Fold(put, start, a + b) == Fold(put, Fold(put, start, a), b)
    decreases |a|
  {
    if a == [] {
      assert a + b == b;
    } else {
      FoldAppend(put, put(start, a[0]), a[1..], b);
      assert (a + b)[0] == a[0] && (a + b)[1..] == a[1..] + b;
    }
  }

  lemma GroupFoundAt(gs: seq<Group>, pattern: Violation, i: nat)
    requires i < |gs| && gs[i].pattern == pattern
    requires forall j :: 0 <= j < i ==> gs[j].pattern != pattern
    ensures FindGroup(gs, pattern) == i
  {
    var k := FindGroup(gs, pattern);
    assert k <= i;
    assert !(k < i);
  }

  lemma ConstraintFoundAt(cs: seq<Constraint>, name: string, metadata: Metadata, i: nat)
    requires i < |cs| && cs[i].name == name && cs[i].metadata == metadata
    requires forall j :: 0 <= j < i ==> !(cs[j].name == name && cs[j].metadata == metadata)
    ensures FindConstraint(cs, name, metadata) == i
  {
    var k := FindConstraint(cs, name, metadata);
    assert k <= i;
    assert !(k < i);
  }

  lemma TemplateFoundAt(ts: seq<Template>, kind: string, i: nat)
    requires i < |ts| && ts[i].kind == kind
    requires forall j :: 0 <= j < i ==> ts[j].kind != kind
    ensures FindTemplate(ts, kind) == i
  {
    var k := FindTemplate(ts, kind);
    assert k <= i;
    assert !(k < i);
  }

  /** Groups of one and the same constraint only touch that constraint: it is updated in
      place if present, appended if absent, and not created when there is nothing to put. */
  lemma {:induction false} PutWithinConstraint(cs: seq<Constraint>, ps: seq<Placed>, name: string, metadata: Metadata)
    requires forall p :: p in ps ==> p.at.name == name && p.at.metadata == metadata
    ensures
      var i := FindConstraint(cs, name, metadata);
      PutAllConstraints(cs, ps) ==
        if i < |cs| then cs[i := cs[i].(groups := PutAllGroups(cs[i].groups, ps))]
        else if ps == [] then cs
        else cs + [ReportForConstraint(name, metadata, [], PutAllGroups([], ps))]
    decreases |ps|
  {
    hide PutGroup;
    var i := FindConstraint(cs, name, metadata);
    if ps == [] {
      if i < |cs| {
        assert cs[i := cs[i].(groups := PutAllGroups(cs[i].groups, ps))] == cs;
      }
    } else {
      assert ps[0] in ps && forall p :: p in ps[1..] ==> p in ps;
      var next := PutConstraint(cs, ps[0]);
      PutWithinConstraint(next, ps[1..], name, metadata);
      ConstraintFoundAt(next, name, metadata, i);
      assert PutAllGroups(next[i].groups, ps[1..]) == PutAllGroups(if i < |cs| then cs[i].groups else [], ps);
    }
  }

  lemma {:induction false} PutWithinTemplate(ts: seq<Template>, ps: seq<Placed>, kind: string)
    requires forall p :: p in ps ==> p.at.kind == kind
    ensures
      var i := FindTemplate(ts, kind);
      PutAll(ts, ps) ==
        if i < |ts| then ts[i := ts[i].(constraints := PutAllConstraints(ts[i].constraints, ps))]
        else if ps == [] then ts
        else ts + [ReportForTemplate(kind, PutAllConstraints([], ps))]
    decreases |ps|
  {
    hide PutConstraint;
    var i := FindTemplate(ts, kind);
    if ps == [] {
      if i < |ts| {
        assert ts[i := ts[i].(constraints := PutAllConstraints(ts[i].constraints, ps))] == ts;
      }
    } else {
      assert ps[0] in ps && forall p :: p in ps[1..] ==> p in ps;
      var next := PutTemplate(ts, ps[0]);
      PutWithinTemplate(next, ps[1..], kind);
      TemplateFoundAt(next, kind, i);
      assert PutAllConstraints(next[i].constraints, ps[1..])
          == PutAllConstraints(if i < |ts| then ts[i].constraints else [], ps);
    }
  }

  lemma {:induction false} PutAllGroupsNonempty(gs: seq<Group>, ps: seq<Placed>)
    ensures |PutAllGroups(gs, ps)| >= |gs|
    ensures gs == [] ==> (PutAllGroups(gs, ps) == [] <==> ps == [])
    decreases |ps|
  {
    if ps != [] {
      PutAllGroupsNonempty(PutGroup(gs, ps[0]), ps[1..]);
    }
  }

  lemma {:induction false} PutAllConstraintsNonempty(cs: seq<Constraint>, ps: seq<Placed>)
    ensures |PutAllConstraints(cs, ps)| >= |cs|
    ensures cs == [] ==> (PutAllConstraints(cs, ps) == [] <==> ps == [])
    decreases |ps|
  {
    if ps != [] {
      PutAllConstraintsNonempty(PutConstraint(cs, ps[0]), ps[1..]);
    }
  }
}
