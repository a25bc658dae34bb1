/** What a report says, regardless of how its lists are ordered: which groups exist and
    which instance is listed at which group. Putting placed groups into a tree adds
    exactly their contents and keeps the tree well formed. */
module Contents {
  import opened Doop
  import opened Regroup
  import opened Sorting

  datatype Content = Content(addresses: set<Address>, entries: multiset<Entry>) {
    function Plus(other: Content): Content {
      Content(addresses + other.addresses, entries + other.entries)
    }
  }

  function EntriesAt(at: Address, vs: seq<Violation>): multiset<Entry> {
    multiset(seq(|vs|, i requires 0 <= i < |vs| => Entry(at, vs[i])))
  }

  function ContentIn(p: Placed): Content {
    Content({p.at}, EntriesAt(p.at, p.instances))
  }

  function ContentOf(ps: seq<Placed>): Content {
    if ps == [] then Content({}, multiset{}) else ContentIn(ps[0]).Plus(ContentOf(ps[1..]))
  }

  function ContentOfTree(ts: seq<Template>): Content {
    ContentOf(FlatTemplates(ts))
  }

  lemma EntriesAtAppend(at: Address, a: seq<Violation>, b: seq<Violation>)
    ensures EntriesAt(at, a + b) == EntriesAt(at, a) + EntriesAt(at, b)
  {
    var f := (vs: seq<Violation>) => seq(|vs|, i requires 0 <= i < |vs| => Entry(at, vs[i]));
    assert f(a + b) == f(a) + f(b);
  }

  lemma PlusAssociates(x: Content, y: Content, z: Content)
    ensures x.Plus(y.Plus(z)) == x.Plus(y).Plus(z)
  {
  }

  lemma PlusInTheMiddle(a: Content, x: Content, b: Content, d: Content)
    ensures a.Plus(x.Plus(d)).Plus(b) == a.Plus(x).Plus(b).Plus(d)
  {
  }

  lemma {:induction false} ContentAppend(a: seq<Placed>, b: seq<Placed>)
    ensures ContentOf(a + b) == ContentOf(a).Plus(ContentOf(b))
  {
    if a == [] {
      assert a + b == b;
      NothingPlus(ContentOf(b));
    } else {
      calc {
        ContentOf(a + b);
        { assert (a + b)[0] == a[0] && (a + b)[1..] == a[1..] + b; }
        ContentIn(a[0]).Plus(ContentOf(a[1..] + b));
        { ContentAppend(a[1..], b); }
        ContentIn(a[0]).Plus(ContentOf(a[1..]).Plus(ContentOf(b)));
        { PlusAssociates(ContentIn(a[0]), ContentOf(a[1..]), ContentOf(b)); }
        ContentIn(a[0]).Plus(ContentOf(a[1..])).Plus(ContentOf(b));
      }
    }
  }

  lemma NothingPlus(x: Content)
    ensures Content({}, multiset{}).Plus(x) == x
  {
  }

  lemma PlusNothing(x: Content)
    ensures x.Plus(Content({}, multiset{})) == x
  {
  }

  lemma ContentOne(p: Placed)
    ensures ContentOf([p]) == ContentIn(p)
  {
    assert ContentOf([p][1..]) == Content({}, multiset{});
  }

  lemma ContentOfThree(a: seq<Placed>, x: seq<Placed>, b: seq<Placed>)
    ensures ContentOf(a + x + b) == ContentOf(a).Plus(ContentOf(x)).Plus(ContentOf(b))
  {
    ContentAppend(a + x, b);
    ContentAppend(a, x);
  }

  // ----- contents of a list, in any order -----

  function Sum(cs: seq<Content>): Content {
    if cs == [] then Content({}, multiset{}) else cs[0].Plus(Sum(cs[1..]))
  }

  lemma PlusCommutes(x: Content, y: Content, z: Content)
    ensures x.Plus(y.Plus(z)) == y.Plus(x.Plus(z))
  {
  }

  lemma {:induction false} SumWithout(cs: seq<Content>, j: nat)
    requires j < |cs|
    ensures Sum(cs) == cs[j].Plus(Sum(cs[..j] + cs[j + 1..]))
  {
    var rest := cs[..j] + cs[j + 1..];
    if j == 0 {
      assert rest == cs[1..];
    } else {
      SumWithout(cs[1..], j - 1);
      assert rest[0] == cs[0] && rest[1..] == cs[1..][..j - 1] + cs[1..][j..];
      PlusCommutes(cs[0], cs[j], Sum(rest[1..]));
    }
  }

  lemma {:induction false} SumPermutes(a: seq<Content>, b: seq<Content>)
    requires multiset(a) == multiset(b)
    ensures Sum(a) == Sum(b)
    decreases |a|
  {
    if a == [] {
      assert |multiset(b)| == 0;
    } else {
      assert a[0] in multiset(b);
      var j :| 0 <= j < |b| && b[j] == a[0];
      var rest := b[..j] + b[j + 1..];
      assert multiset(a[1..]) == multiset(rest) by {
        RemoveAt(b, j);
        assert a == [a[0]] + a[1..];
        CancelOne(multiset(a[1..]), multiset(rest), a[0]);
      }
      SumPermutes(a[1..], rest);
      SumWithout(b, j);
    }
  }

  // ----- one put adds one placed group -----

  lemma PutGroupContent(kind: string, name: string, metadata: Metadata, gs: seq<Group>, p: Placed)
    requires p.at == Address(kind, name, metadata.Cleared(), p.at.pattern)
    ensures ContentOf(FlatGroups(kind, name, metadata, PutGroup(gs, p)))
         == ContentOf(FlatGroups(kind, name, metadata, gs)).Plus(ContentIn(p))
  {
    var i := FindGroup(gs, p.at.pattern);
    var flat := FlatGroups(kind, name, metadata, gs);
    var put := FlatGroups(kind, name, metadata, PutGroup(gs, p));
    if i < |gs| {
      var q := Placed(p.at, gs[i].instances + p.instances);
      assert put == flat[i := q];
      EntriesAtAppend(p.at, gs[i].instances, p.instances);
      ReplacePlacedContent(flat, i, q, ContentIn(p));
    } else {
      assert put == flat + [p];
      ContentAppend(flat, [p]);
      ContentOne(p);
    }
  }

  lemma ReplacePlacedContent(flat: seq<Placed>, i: nat, q: Placed, d: Content)
    requires i < |flat| && ContentIn(q) == ContentIn(flat[i]).Plus(d)
    ensures ContentOf(flat[i := q]) == ContentOf(flat).Plus(d)
  {
    assert flat == flat[..i] + [flat[i]] + flat[i + 1..];
    assert flat[i := q] == flat[..i] + [q] + flat[i + 1..];
    ContentOfThree(flat[..i], [flat[i]], flat[i + 1..]);
    ContentOfThree(flat[..i], [q], flat[i + 1..]);
    ContentOne(q);
    ContentOne(flat[i]);
    PlusInTheMiddle(ContentOf(flat[..i]), ContentIn(flat[i]), ContentOf(flat[i + 1..]), d);
  }

  lemma FlatConstraintsSplit(kind: string, cs: seq<Constraint>, i: nat, c: Constraint)
    requires i < |cs|
    ensures FlatConstraints(kind, cs[i := c])
         == FlatConstraints(kind, cs[..i]) + FlatConstraint(kind, c) + FlatConstraints(kind, cs[i + 1..])
  {
    assert cs[i := c] == cs[..i] + ([c] + cs[i + 1..]);
    FlatConstraintsAppend(kind, cs[..i], [c] + cs[i + 1..]);
  }

  lemma FlatTemplatesSplit(ts: seq<Template>, i: nat, t: Template)
    requires i < |ts|
    ensures FlatTemplates(ts[i := t]) == FlatTemplates(ts[..i]) + FlatTemplate(t) + FlatTemplates(ts[i + 1..])
  {
    assert ts[i := t] == ts[..i] + ([t] + ts[i + 1..]);
    FlatTemplatesAppend(ts[..i], [t] + ts[i + 1..]);
  }

  lemma FlatConstraintsOne(kind: string, c: Constraint)
    ensures FlatConstraints(kind, [c]) == FlatConstraint(kind, c)
  {
    assert FlatConstraints(kind, [c][1..]) == [];
  }

  lemma FirstConstraintContent(kind: string, cs: seq<Constraint>)
    ensures ContentOf(FlatConstraints(kind, cs)) ==
      if cs == [] then Content({}, multiset{})
      else ContentOf(FlatConstraint(kind, cs[0])).Plus(ContentOf(FlatConstraints(kind, cs[1..])))
  {
    if cs != [] {
      ContentAppend(FlatConstraint(kind, cs[0]), FlatConstraints(kind, cs[1..]));
    }
  }

  lemma FirstTemplateContent(ts: seq<Template>)
    ensures ContentOfTree(ts) ==
      if ts == [] then Content({}, multiset{}) else ContentOf(FlatTemplate(ts[0])).Plus(ContentOfTree(ts[1..]))
  {
    if ts != [] {
      ContentAppend(FlatTemplate(ts[0]), FlatTemplates(ts[1..]));
    }
  }

  lemma FlatTemplatesOne(t: Template)
    ensures FlatTemplates([t]) == FlatTemplate(t)
  {
    assert FlatTemplates([t][1..]) == [];
  }

  /** Replacing one constraint by one with more content adds exactly that content. */
  lemma ReplaceConstraintContent(kind: string, cs: seq<Constraint>, i: nat, c: Constraint, d: Content)
    requires i < |cs|
    requires ContentOf(FlatConstraint(kind, c)) == ContentOf(FlatConstraint(kind, cs[i])).Plus(d)
    ensures ContentOf(FlatConstraints(kind, cs[i := c])) == ContentOf(FlatConstraints(kind, cs)).Plus(d)
  {
    var before, after := FlatConstraints(kind, cs[..i]), FlatConstraints(kind, cs[i + 1..]);
    assert cs[i := cs[i]] == cs;
    FlatConstraintsSplit(kind, cs, i, cs[i]);
    FlatConstraintsSplit(kind, cs, i, c);
    ContentOfThree(before, FlatConstraint(kind, cs[i]), after);
    ContentOfThree(before, FlatConstraint(kind, c), after);
    PlusInTheMiddle(ContentOf(before), ContentOf(FlatConstraint(kind, cs[i])), ContentOf(after), d);
  }

  lemma ReplaceTemplateContent(ts: seq<Template>, i: nat, t: Template, d: Content)
    requires i < |ts|
    requires ContentOf(FlatTemplate(t)) == ContentOf(FlatTemplate(ts[i])).Plus(d)
    ensures ContentOfTree(ts[i := t]) == ContentOfTree(ts).Plus(d)
  {
    var before, after := FlatTemplates(ts[..i]), FlatTemplates(ts[i + 1..]);
    assert ts[i := ts[i]] == ts;
    FlatTemplatesSplit(ts, i, ts[i]);
    FlatTemplatesSplit(ts, i, t);
    ContentOfThree(before, FlatTemplate(ts[i]), after);
    ContentOfThree(before, FlatTemplate(t), after);
    PlusInTheMiddle(ContentOf(before), ContentOf(FlatTemplate(ts[i])), ContentOf(after), d);
  }

  lemma AppendConstraintContent(kind: string, cs: seq<Constraint>, c: Constraint)
    ensures ContentOf(FlatConstraints(kind, cs + [c]))
         == ContentOf(FlatConstraints(kind, cs)).Plus(ContentOf(FlatConstraint(kind, c)))
  {
    FlatConstraintsAppend(kind, cs, [c]);
    FlatConstraintsOne(kind, c);
    ContentAppend(FlatConstraints(kind, cs), FlatConstraint(kind, c));
  }

  lemma AppendTemplateContent(ts: seq<Template>, t: Template)
    ensures ContentOfTree(ts + [t]) == ContentOfTree(ts).Plus(ContentOf(FlatTemplate(t)))
  {
    FlatTemplatesAppend(ts, [t]);
    FlatTemplatesOne(t);
    ContentAppend(FlatTemplates(ts), FlatTemplate(t));
  }

  lemma PutFirstGroup(p: Placed)
    requires p.at.metadata.Cleared() == p.at.metadata
    ensures ContentOf(FlatConstraint(p.at.kind, NewConstraint(p, PutGroup([], p)))) == ContentIn(p)
  {
    PutGroupContent(p.at.kind, p.at.name, p.at.metadata, [], p);
    assert FlatGroups(p.at.kind, p.at.name, p.at.metadata, []) == [];
    NothingPlus(ContentIn(p));
  }

  lemma PutFirstConstraint(p: Placed)
    requires p.at.metadata.Cleared() == p.at.metadata
    ensures ContentOf(FlatTemplate(ReportForTemplate(p.at.kind, PutConstraint([], p)))) == ContentIn(p)
  {
    PutConstraintContent(p.at.kind, [], p);
    NothingPlus(ContentIn(p));
  }

  lemma PutConstraintContent(kind: string, cs: seq<Constraint>, p: Placed)
    requires p.at.kind == kind && p.at.metadata.Cleared() == p.at.metadata
    ensures ContentOf(FlatConstraints(kind, PutConstraint(cs, p)))
         == ContentOf(FlatConstraints(kind, cs)).Plus(ContentIn(p))
  {
    var i := FindConstraint(cs, p.at.name, p.at.metadata);
    if i < |cs| {
      PutGroupContent(kind, cs[i].name, cs[i].metadata, cs[i].groups, p);
      ReplaceConstraintContent(kind, cs, i, cs[i].(groups := PutGroup(cs[i].groups, p)), ContentIn(p));
    } else {
      PutFirstGroup(p);
      AppendConstraintContent(kind, cs, NewConstraint(p, PutGroup([], p)));
    }
  }

  lemma PutTemplateContent(ts: seq<Template>, p: Placed)
    requires p.at.metadata.Cleared() == p.at.metadata
    ensures ContentOfTree(PutTemplate(ts, p)) == ContentOfTree(ts).Plus(ContentIn(p))
  {
    var i := FindTemplate(ts, p.at.kind);
    if i < |ts| {
      PutConstraintContent(ts[i].kind, ts[i].constraints, p);
      ReplaceTemplateContent(ts, i, ts[i].(constraints := PutConstraint(ts[i].constraints, p)), ContentIn(p));
    } else {
      PutFirstConstraint(p);
      AppendTemplateContent(ts, ReportForTemplate(p.at.kind, PutConstraint([], p)));
    }
  }

  ghost predicate AllCleared(ps: seq<Placed>) {
    forall i :: 0 <= i < |ps| ==> ps[i].at.metadata.Cleared() == ps[i].at.metadata
  }

  /** Putting neither loses, duplicates nor alters an instance, and creates no other groups. */
  lemma {:induction false} PutAllContent(ts: seq<Template>, ps: seq<Placed>)
    requires AllCleared(ps)
    ensures ContentOfTree(PutAll(ts, ps)) == ContentOfTree(ts).Plus(ContentOf(ps))
    decreases |ps|
  {
    hide PutTemplate, ContentOfTree, ContentIn;
    if ps == [] {
      PlusNothing(ContentOfTree(ts));
    } else {
      PutTemplateContent(ts, ps[0]);
      PlusAssociates(ContentOfTree(ts), ContentIn(ps[0]), ContentOf(ps[1..]));
      PutAllContent(PutTemplate(ts, ps[0]), ps[1..]);
    }
  }

  lemma {:induction false} FlatConstraintsCleared(kind: string, cs: seq<Constraint>)
    ensures AllCleared(FlatConstraints(kind, cs))
    ensures forall p :: p in FlatConstraints(kind, cs) ==> p.at.kind == kind
  {
    if cs != [] {
      FlatConstraintsCleared(kind, cs[1..]);
    }
  }

  lemma {:induction false} FlatTemplatesCleared(ts: seq<Template>)
    ensures AllCleared(FlatTemplates(ts))
  {
    if ts != [] {
      FlatConstraintsCleared(ts[0].kind, ts[0].constraints);
      FlatTemplatesCleared(ts[1..]);
    }
  }

  // ----- well-formed trees -----

  ghost predicate WellFormedGroups(gs: seq<Group>) {
    forall i, j :: 0 <= i < j < |gs| ==> gs[i].pattern != gs[j].pattern
  }

  ghost predicate WellFormedConstraint(c: Constraint) {
    && c.metadata.auditTimestamp == ""
    && c.violations == []
    && c.groups != []
    && WellFormedGroups(c.groups)
  }

  ghost predicate WellFormedConstraints(cs: seq<Constraint>) {
    && (forall i :: 0 <= i < |cs| ==> WellFormedConstraint(cs[i]))
    && (forall i, j :: 0 <= i < j < |cs| ==> !(cs[i].name == cs[j].name && cs[i].metadata == cs[j].metadata))
  }

  ghost predicate WellFormed(ts: seq<Template>) {
    && (forall i :: 0 <= i < |ts| ==> ts[i].constraints != [] && WellFormedConstraints(ts[i].constraints))
    && (forall i, j :: 0 <= i < j < |ts| ==> ts[i].kind != ts[j].kind)
  }

  lemma PutGroupWellFormed(gs: seq<Group>, p: Placed)
    requires WellFormedGroups(gs)
    ensures WellFormedGroups(PutGroup(gs, p)) && PutGroup(gs, p) != []
  {
  }

  lemma PutConstraintWellFormed(cs: seq<Constraint>, p: Placed)
    requires WellFormedConstraints(cs) && p.at.metadata.Cleared() == p.at.metadata
    ensures WellFormedConstraints(PutConstraint(cs, p)) && PutConstraint(cs, p) != []
  {
    var i := FindConstraint(cs, p.at.name, p.at.metadata);
    PutGroupWellFormed(if i < |cs| then cs[i].groups else [], p);
  }

  lemma PutTemplateWellFormed(ts: seq<Template>, p: Placed)
    requires WellFormed(ts) && p.at.metadata.Cleared() == p.at.metadata
    ensures WellFormed(PutTemplate(ts, p))
  {
    var i := FindTemplate(ts, p.at.kind);
    PutConstraintWellFormed(if i < |ts| then ts[i].constraints else [], p);
  }

  /** Unique kinds, unique (name, metadata), unique patterns, cleared timestamps and no
      empty parents, whatever the reports being merged look like. */
  lemma {:induction false} PutAllWellFormed(ts: seq<Template>, ps: seq<Placed>)
    requires WellFormed(ts) && AllCleared(ps)
    ensures WellFormed(PutAll(ts, ps))
    decreases |ps|
  {
    if ps != [] {
      PutTemplateWellFormed(ts, ps[0]);
      PutAllWellFormed(PutTemplate(ts, ps[0]), ps[1..]);
    }
  }

  // ----- rebuilding -----

  lemma {:induction false} RebuildGroups(kind: string, name: string, metadata: Metadata, done: seq<Group>, rest: seq<Group>)
    requires WellFormedGroups(done + rest)
    ensures PutAllGroups(done, FlatGroups(kind, name, metadata, rest)) == done + rest
    decreases |rest|
  {
    if rest == [] {
      assert done + rest == done;
    } else {
      var flat := FlatGroups(kind, name, metadata, rest);
      assert (done + rest)[|done|] == rest[0];
      assert forall i :: 0 <= i < |done| ==> done[i] == (done + rest)[i];
      assert PutGroup(done, flat[0]) == done + [rest[0]];
      assert done + [rest[0]] + rest[1..] == done + rest;
      assert flat[1..] == FlatGroups(kind, name, metadata, rest[1..]);
      RebuildGroups(kind, name, metadata, done + [rest[0]], rest[1..]);
    }
  }

  lemma RebuildConstraint(kind: string, done: seq<Constraint>, c: Constraint)
    requires WellFormedConstraint(c)
    requires forall i :: 0 <= i < |done| ==> !(done[i].name == c.name && done[i].metadata == c.metadata)
    ensures PutAllConstraints(done, FlatConstraint(kind, c)) == done + [c]
  {
    PutWithinConstraint(done, FlatConstraint(kind, c), c.name, c.metadata);
    RebuildGroups(kind, c.name, c.metadata, [], c.groups);
    assert FindConstraint(done, c.name, c.metadata) == |done|;
    assert [] + c.groups == c.groups;
  }

  lemma {:induction false} RebuildConstraints(kind: string, done: seq<Constraint>, rest: seq<Constraint>)
    requires WellFormedConstraints(done + rest)
    ensures PutAllConstraints(done, FlatConstraints(kind, rest)) == done + rest
    decreases |rest|
  {
    hide WellFormedConstraint, FlatConstraint;
    if rest == [] {
      assert done + rest == done;
    } else {
      assert (done + rest)[|done|] == rest[0];
      assert forall i :: 0 <= i < |done| ==> done[i] == (done + rest)[i];
      RebuildConstraint(kind, done, rest[0]);
      assert done + [rest[0]] + rest[1..] == done + rest;
      RebuildConstraints(kind, done + [rest[0]], rest[1..]);
      FoldAppend(PutConstraint, done, FlatConstraint(kind, rest[0]), FlatConstraints(kind, rest[1..]));
    }
  }

  lemma {:induction false} RebuildTemplates(done: seq<Template>, rest: seq<Template>)
    requires WellFormed(done + rest)
    ensures PutAll(done, FlatTemplates(rest)) == done + rest
    decreases |rest|
  {
    if rest == [] {
      assert done + rest == done;
    } else {
      var t := rest[0];
      var flat := FlatTemplate(t);
      assert (done + rest)[|done|] == t;
      assert forall i :: 0 <= i < |done| ==> done[i] == (done + rest)[i];
      FlatConstraintsCleared(t.kind, t.constraints);
      PutWithinTemplate(done, flat, t.kind);
      assert [] + t.constraints == t.constraints;
      assert WellFormedConstraint(t.constraints[0]) && flat != [];
      hide FlatTemplate, FlatConstraints, WellFormedConstraints;
      RebuildConstraints(t.kind, [], t.constraints);
      assert FindTemplate(done, t.kind) == |done|;
      assert PutAll(done, flat) == done + [t];
      assert done + [t] + rest[1..] == done + rest;
      RebuildTemplates(done + [t], rest[1..]);
      FoldAppend(PutTemplate, done, flat, FlatTemplates(rest[1..]));
    }
  }

  /** Aggregating an aggregate gives it back, element by element. */
  lemma AggregateIsAFixpoint(ts: seq<Template>)
    requires WellFormed(ts)
    ensures PutAll([], FlatTemplates(ts)) == ts
  {
    assert [] + ts == ts;
    RebuildTemplates([], ts);
  }

  // ----- one report by itself -----

  /** What aggregation drops from a constraint: the timestamp, and ungrouped violations. */
  function ClearedConstraint(c: Constraint): Constraint {
    c.(metadata := c.metadata.Cleared(), violations := [])
  }

  function ClearedConstraints(cs: seq<Constraint>): (r: seq<Constraint>)
    ensures |r| == |cs|
  {
    if cs == [] then [] else [ClearedConstraint(cs[0])] + ClearedConstraints(cs[1..])
  }

  function ClearedTemplates(ts: seq<Template>): (r: seq<Template>)
    ensures |r| == |ts|
  {
    if ts == [] then []
    else [ReportForTemplate(ts[0].kind, ClearedConstraints(ts[0].constraints))] + ClearedTemplates(ts[1..])
  }

  lemma {:induction false} FlatIgnoresCleared(kind: string, cs: seq<Constraint>)
    ensures FlatConstraints(kind, ClearedConstraints(cs)) == FlatConstraints(kind, cs)
  {
    if cs != [] {
      FlatIgnoresCleared(kind, cs[1..]);
      assert ClearedConstraints(cs)[1..] == ClearedConstraints(cs[1..]);
      assert FlatConstraint(kind, ClearedConstraint(cs[0])) == FlatConstraint(kind, cs[0]);
    }
  }

  lemma {:induction false} FlatTemplatesIgnoresCleared(ts: seq<Template>)
    ensures FlatTemplates(ClearedTemplates(ts)) == FlatTemplates(ts)
  {
    if ts != [] {
      FlatTemplatesIgnoresCleared(ts[1..]);
      FlatIgnoresCleared(ts[0].kind, ts[0].constraints);
      assert ClearedTemplates(ts)[1..] == ClearedTemplates(ts[1..]);
    }
  }

  /** Aggregating a single report gives it back in order, without its timestamps, exactly
      when no two of its parts have to be merged and none is empty. */
  lemma SingleReportIsKept(ts: seq<Template>)
    ensures PutAll([], FlatTemplates(ts)) == ClearedTemplates(ts) <==> WellFormed(ClearedTemplates(ts))
  {
    FlatTemplatesIgnoresCleared(ts);
    if WellFormed(ClearedTemplates(ts)) {
      AggregateIsAFixpoint(ClearedTemplates(ts));
    }
    FlatTemplatesCleared(ts);
    PutAllWellFormed([], FlatTemplates(ts));
  }
}
