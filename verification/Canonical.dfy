/** The canonical order of an aggregate (the Sort methods of the report types), and when
    sorting hides the order in which clusters were visited. */
module Canonical {
  import opened Text
  import opened Doop
  import opened Regroup
  import opened Contents
  import opened Sorting

  function ByViolation(v: Violation, w: Violation): int {
    v.CompareTo(w)
  }

  lemma OrdersArePreorders()
    ensures TotalPreorder(Compare)
    ensures TotalPreorder(ByViolation)
  {
    forall x, y ensures Compare(x, y) <= 0 || Compare(y, x) <= 0 { CompareFlips(x, y); }
    forall x, y, z | Compare(x, y) <= 0 && Compare(y, z) <= 0 ensures Compare(x, z) <= 0 { CompareIsTransitive(x, y, z); }
    forall x, y ensures ByViolation(x, y) <= 0 || ByViolation(y, x) <= 0 { CompareToFlips(x, y); }
    forall x, y, z | ByViolation(x, y) <= 0 && ByViolation(y, z) <= 0
      ensures ByViolation(x, z) <= 0
    {
      CompareToIsTransitive(x, y, z);
    }
  }

  // ----- what the Sort methods promise: each list rearranged, its elements sorted within -----

  ghost predicate GroupSorted(g: Group, g': Group) {
    && g'.pattern == g.pattern
    && multiset(g'.instances) == multiset(g.instances)
    && Sorted(g'.instances, ByViolation)
  }

  ghost predicate GroupsArranged(gs: seq<Group>, mid: seq<Group>, gs': seq<Group>) {
    && multiset(mid) == multiset(gs)
    && (forall i, j :: 0 <= i < j < |mid| ==> ByViolation(mid[i].pattern, mid[j].pattern) <= 0)
    && |gs'| == |mid|
    && (forall i :: 0 <= i < |mid| ==> GroupSorted(mid[i], gs'[i]))
  }

  ghost predicate ConstraintSorted(c: Constraint, c': Constraint) {
    && c' == c.(groups := c'.groups)
    && exists mid :: GroupsArranged(c.groups, mid, c'.groups)
  }

  ghost predicate ConstraintsArranged(cs: seq<Constraint>, mid: seq<Constraint>, cs': seq<Constraint>) {
    && multiset(mid) == multiset(cs)
    && (forall i, j :: 0 <= i < j < |mid| ==> Compare(mid[i].name, mid[j].name) <= 0)
    && |cs'| == |mid|
    && (forall i :: 0 <= i < |mid| ==> ConstraintSorted(mid[i], cs'[i]))
  }

  ghost predicate TemplateSorted(t: Template, t': Template) {
    && t'.kind == t.kind
    && exists mid :: ConstraintsArranged(t.constraints, mid, t'.constraints)
  }

  ghost predicate TemplatesArranged(ts: seq<Template>, mid: seq<Template>, ts': seq<Template>) {
    && multiset(mid) == multiset(ts)
    && (forall i, j :: 0 <= i < j < |mid| ==> Compare(mid[i].kind, mid[j].kind) <= 0)
    && |ts'| == |mid|
    && (forall i :: 0 <= i < |mid| ==> TemplateSorted(mid[i], ts'[i]))
  }

  ghost predicate TreeSortedInto(ts: seq<Template>, ts': seq<Template>) {
    exists mid :: TemplatesArranged(ts, mid, ts')
  }

  // ----- the canonical order itself -----

  ghost predicate GroupsInOrder(gs: seq<Group>) {
    && (forall i, j :: 0 <= i < j < |gs| ==> ByViolation(gs[i].pattern, gs[j].pattern) <= 0)
    && (forall i :: 0 <= i < |gs| ==> Sorted(gs[i].instances, ByViolation))
  }

  ghost predicate ConstraintsInOrder(cs: seq<Constraint>) {
    && (forall i, j :: 0 <= i < j < |cs| ==> Compare(cs[i].name, cs[j].name) <= 0)
    && (forall i :: 0 <= i < |cs| ==> GroupsInOrder(cs[i].groups))
  }

  ghost predicate InOrder(ts: seq<Template>) {
    && (forall i, j :: 0 <= i < j < |ts| ==> Compare(ts[i].kind, ts[j].kind) <= 0)
    && (forall i :: 0 <= i < |ts| ==> ConstraintsInOrder(ts[i].constraints))
  }

  // ----- sorting keeps contents, well-formedness, and establishes the order -----

  lemma {:induction false} GroupsAddUp(kind: string, name: string, metadata: Metadata, gs: seq<Group>, m: map<Group, Content>)
    requires forall i :: 0 <= i < |gs| ==>
      gs[i] in m && m[gs[i]] == ContentIn(Placed(Address(kind, name, metadata.Cleared(), gs[i].pattern), gs[i].instances))
    ensures ContentOf(FlatGroups(kind, name, metadata, gs)) == Sum(Mapped(gs, m))
  {
    hide ContentIn;
    if gs != [] {
      GroupsAddUp(kind, name, metadata, gs[1..], m);
      assert FlatGroups(kind, name, metadata, gs)[1..] == FlatGroups(kind, name, metadata, gs[1..]);
      assert Mapped(gs, m)[1..] == Mapped(gs[1..], m);
    }
  }

  lemma {:induction false} ConstraintsAddUp(kind: string, cs: seq<Constraint>, m: map<Constraint, Content>)
    requires forall i :: 0 <= i < |cs| ==> cs[i] in m && m[cs[i]] == ContentOf(FlatConstraint(kind, cs[i]))
    ensures ContentOf(FlatConstraints(kind, cs)) == Sum(Mapped(cs, m))
  {
    hide FlatConstraint;
    if cs != [] {
      ConstraintsAddUp(kind, cs[1..], m);
      ContentAppend(FlatConstraint(kind, cs[0]), FlatConstraints(kind, cs[1..]));
      assert Mapped(cs, m)[1..] == Mapped(cs[1..], m);
    }
  }

  lemma {:induction false} TemplatesAddUp(ts: seq<Template>, m: map<Template, Content>)
    requires forall i :: 0 <= i < |ts| ==> ts[i] in m && m[ts[i]] == ContentOf(FlatTemplate(ts[i]))
    ensures ContentOfTree(ts) == Sum(Mapped(ts, m))
  {
    if ts != [] {
      TemplatesAddUp(ts[1..], m);
      ContentAppend(FlatTemplate(ts[0]), FlatTemplates(ts[1..]));
      assert Mapped(ts, m)[1..] == Mapped(ts[1..], m);
    }
  }

  lemma SameMembers<T>(s: seq<T>, r: seq<T>)
    requires multiset(s) == multiset(r)
    ensures |s| == |r|
    ensures forall i :: 0 <= i < |r| ==> r[i] in s
    ensures forall i :: 0 <= i < |s| ==> s[i] in r
  {
    assert |multiset(s)| == |multiset(r)|;
    forall i | 0 <= i < |r| ensures r[i] in s { assert r[i] in multiset(s); }
    forall i | 0 <= i < |s| ensures s[i] in r { assert s[i] in multiset(r); }
  }

  lemma GroupsPermuteContent(kind: string, name: string, metadata: Metadata, gs: seq<Group>, mid: seq<Group>)
    requires multiset(mid) == multiset(gs)
    ensures ContentOf(FlatGroups(kind, name, metadata, mid)) == ContentOf(FlatGroups(kind, name, metadata, gs))
  {
    var m := map g | g in gs :: ContentIn(Placed(Address(kind, name, metadata.Cleared(), g.pattern), g.instances));
    SameMembers(gs, mid);
    GroupsAddUp(kind, name, metadata, gs, m);
    GroupsAddUp(kind, name, metadata, mid, m);
    MappedCounts(gs, mid, m);
    SumPermutes(Mapped(gs, m), Mapped(mid, m));
  }

  lemma ConstraintsPermuteContent(kind: string, cs: seq<Constraint>, mid: seq<Constraint>)
    requires multiset(mid) == multiset(cs)
    ensures ContentOf(FlatConstraints(kind, mid)) == ContentOf(FlatConstraints(kind, cs))
  {
    var m := map c | c in cs :: ContentOf(FlatConstraint(kind, c));
    SameMembers(cs, mid);
    ConstraintsAddUp(kind, cs, m);
    ConstraintsAddUp(kind, mid, m);
    MappedCounts(cs, mid, m);
    SumPermutes(Mapped(cs, m), Mapped(mid, m));
  }

  lemma TemplatesPermuteContent(ts: seq<Template>, mid: seq<Template>)
    requires multiset(mid) == multiset(ts)
    ensures ContentOfTree(mid) == ContentOfTree(ts)
  {
    var m := map t | t in ts :: ContentOf(FlatTemplate(t));
    SameMembers(ts, mid);
    TemplatesAddUp(ts, m);
    TemplatesAddUp(mid, m);
    MappedCounts(ts, mid, m);
    SumPermutes(Mapped(ts, m), Mapped(mid, m));
  }

  lemma EntriesAtCount(at: Address, vs: seq<Violation>, e: Entry)
    ensures EntriesAt(at, vs)[e] == if e.at == at then multiset(vs)[e.instance] else 0
    decreases |vs|
  {
    if vs == [] {
    } else {
      var rest := vs[1..];
      EntriesAtCount(at, rest, e);
      EntriesAtAppend(at, [vs[0]], rest);
      assert vs == [vs[0]] + rest;
      assert EntriesAt(at, [vs[0]]) == multiset{Entry(at, vs[0])} by {
        assert seq(1, i requires 0 <= i < 1 => Entry(at, [vs[0]][i])) == [Entry(at, vs[0])];
      }
    }
  }

  lemma EntriesAtPermute(at: Address, vs: seq<Violation>, ws: seq<Violation>)
    requires multiset(vs) == multiset(ws)
    ensures EntriesAt(at, vs) == EntriesAt(at, ws)
  {
    forall e ensures EntriesAt(at, vs)[e] == EntriesAt(at, ws)[e] {
      EntriesAtCount(at, vs, e);
      EntriesAtCount(at, ws, e);
    }
  }

  lemma {:induction false} GroupsSortedContent(kind: string, name: string, metadata: Metadata, mid: seq<Group>, gs': seq<Group>)
    requires |gs'| == |mid| && forall i :: 0 <= i < |mid| ==> GroupSorted(mid[i], gs'[i])
    ensures ContentOf(FlatGroups(kind, name, metadata, gs')) == ContentOf(FlatGroups(kind, name, metadata, mid))
  {
    if mid != [] {
      assert GroupSorted(mid[0], gs'[0]);
      EntriesAtPermute(Address(kind, name, metadata.Cleared(), mid[0].pattern), mid[0].instances, gs'[0].instances);
      GroupsSortedContent(kind, name, metadata, mid[1..], gs'[1..]);
      assert FlatGroups(kind, name, metadata, gs')[1..] == FlatGroups(kind, name, metadata, gs'[1..]);
      assert FlatGroups(kind, name, metadata, mid)[1..] == FlatGroups(kind, name, metadata, mid[1..]);
    }
  }

  lemma ConstraintSortedContent(kind: string, c: Constraint, c': Constraint)
    requires ConstraintSorted(c, c')
    ensures ContentOf(FlatConstraint(kind, c')) == ContentOf(FlatConstraint(kind, c))
  {
    var mid: seq<Group> :| GroupsArranged(c.groups, mid, c'.groups);
    GroupsPermuteContent(kind, c.name, c.metadata, c.groups, mid);
    GroupsSortedContent(kind, c.name, c.metadata, mid, c'.groups);
  }

  lemma {:induction false} ConstraintsSortedContent(kind: string, mid: seq<Constraint>, cs': seq<Constraint>)
    requires |cs'| == |mid| && forall i :: 0 <= i < |mid| ==> ConstraintSorted(mid[i], cs'[i])
    ensures ContentOf(FlatConstraints(kind, cs')) == ContentOf(FlatConstraints(kind, mid))
  {
    if mid != [] {
      ConstraintSortedContent(kind, mid[0], cs'[0]);
      ConstraintsSortedContent(kind, mid[1..], cs'[1..]);
      ContentAppend(FlatConstraint(kind, mid[0]), FlatConstraints(kind, mid[1..]));
      ContentAppend(FlatConstraint(kind, cs'[0]), FlatConstraints(kind, cs'[1..]));
    }
  }

  lemma TemplateSortedContent(t: Template, t': Template)
    requires TemplateSorted(t, t')
    ensures ContentOf(FlatTemplate(t')) == ContentOf(FlatTemplate(t))
  {
    var mid: seq<Constraint> :| ConstraintsArranged(t.constraints, mid, t'.constraints);
    ConstraintsPermuteContent(t.kind, t.constraints, mid);
    ConstraintsSortedContent(t.kind, mid, t'.constraints);
  }

  lemma {:induction false} TemplatesSortedContent(mid: seq<Template>, ts': seq<Template>)
    requires |ts'| == |mid| && forall i :: 0 <= i < |mid| ==> TemplateSorted(mid[i], ts'[i])
    ensures ContentOfTree(ts') == ContentOfTree(mid)
  {
    if mid != [] {
      TemplateSortedContent(mid[0], ts'[0]);
      TemplatesSortedContent(mid[1..], ts'[1..]);
      ContentAppend(FlatTemplate(mid[0]), FlatTemplates(mid[1..]));
      ContentAppend(FlatTemplate(ts'[0]), FlatTemplates(ts'[1..]));
    }
  }

  lemma ConstraintSortedShape(c: Constraint, c': Constraint)
    requires ConstraintSorted(c, c')
    ensures GroupsInOrder(c'.groups) && c'.name == c.name && c'.metadata == c.metadata
    ensures WellFormedConstraint(c) ==> WellFormedConstraint(c')
  {
    var mid: seq<Group> :| GroupsArranged(c.groups, mid, c'.groups);
    assert forall i :: 0 <= i < |mid| ==> GroupSorted(mid[i], c'.groups[i]);
    if WellFormedConstraint(c) {
      SameMembers(c.groups, mid);
      PairwisePermutes(c.groups, mid, (g: Group, h: Group) => g.pattern != h.pattern);
    }
  }

  lemma ArrangedShape(cs: seq<Constraint>, mid: seq<Constraint>, cs': seq<Constraint>)
    requires ConstraintsArranged(cs, mid, cs')
    ensures forall i :: 0 <= i < |mid| ==>
      GroupsInOrder(cs'[i].groups) && cs'[i].name == mid[i].name && cs'[i].metadata == mid[i].metadata
    ensures forall i :: 0 <= i < |mid| && WellFormedConstraint(mid[i]) ==> WellFormedConstraint(cs'[i])
  {
    hide WellFormedConstraint, GroupsInOrder, ConstraintSorted, Compare;
    forall i | 0 <= i < |mid|
      ensures GroupsInOrder(cs'[i].groups) && cs'[i].name == mid[i].name && cs'[i].metadata == mid[i].metadata
      ensures WellFormedConstraint(mid[i]) ==> WellFormedConstraint(cs'[i])
    {
      assert ConstraintSorted(mid[i], cs'[i]);
      ConstraintSortedShape(mid[i], cs'[i]);
    }
  }

  lemma ArrangedInOrder(cs: seq<Constraint>, mid: seq<Constraint>, cs': seq<Constraint>)
    requires ConstraintsArranged(cs, mid, cs')
    ensures ConstraintsInOrder(cs')
  {
    ArrangedShape(cs, mid, cs');
    hide GroupsInOrder, ConstraintSorted, Compare;
  }

  lemma ArrangedWellFormed(cs: seq<Constraint>, mid: seq<Constraint>, cs': seq<Constraint>)
    requires ConstraintsArranged(cs, mid, cs') && WellFormedConstraints(cs)
    ensures WellFormedConstraints(cs')
  {
    ArrangedShape(cs, mid, cs');
    hide WellFormedConstraint, GroupsInOrder, ConstraintSorted, Compare;
    SameMembers(cs, mid);
    PairwisePermutes(cs, mid, (c: Constraint, d: Constraint) => !(c.name == d.name && c.metadata == d.metadata));
  }

  lemma TemplateSortedShape(t: Template, t': Template)
    requires TemplateSorted(t, t')
    ensures ConstraintsInOrder(t'.constraints)
    ensures WellFormedConstraints(t.constraints) ==> WellFormedConstraints(t'.constraints)
    ensures t.constraints != [] ==> t'.constraints != []
  {
    hide WellFormedConstraints, ConstraintsInOrder;
    var mid: seq<Constraint> :| ConstraintsArranged(t.constraints, mid, t'.constraints);
    SameMembers(t.constraints, mid);
    ArrangedInOrder(t.constraints, mid, t'.constraints);
    if WellFormedConstraints(t.constraints) {
      ArrangedWellFormed(t.constraints, mid, t'.constraints);
    }
  }

  /** Sorting rearranges and nothing else, and the result is in canonical order. */
  lemma SortingRearranges(ts: seq<Template>, ts': seq<Template>)
    requires TreeSortedInto(ts, ts')
    ensures ContentOfTree(ts') == ContentOfTree(ts)
    ensures InOrder(ts')
    ensures WellFormed(ts) ==> WellFormed(ts')
  {
    hide ContentOfTree, ConstraintsInOrder, WellFormedConstraints, InOrder, WellFormed;
    var mid: seq<Template> :| TemplatesArranged(ts, mid, ts');
    TemplatesPermuteContent(ts, mid);
    TemplatesSortedContent(mid, ts');
    TemplatesArrangedShape(ts, mid, ts');
  }

  lemma TemplatesArrangedShape(ts: seq<Template>, mid: seq<Template>, ts': seq<Template>)
    requires TemplatesArranged(ts, mid, ts')
    ensures InOrder(ts')
    ensures WellFormed(ts) ==> WellFormed(ts')
  {
    hide ConstraintsInOrder, WellFormedConstraints, ConstraintsArranged, Compare;
    SameMembers(ts, mid);
    forall i | 0 <= i < |mid|
      ensures ConstraintsInOrder(ts'[i].constraints) && ts'[i].kind == mid[i].kind
      ensures mid[i].constraints != [] && WellFormedConstraints(mid[i].constraints) ==>
        ts'[i].constraints != [] && WellFormedConstraints(ts'[i].constraints)
    {
      assert TemplateSorted(mid[i], ts'[i]);
      TemplateSortedShape(mid[i], ts'[i]);
    }
    if WellFormed(ts) {
      PairwisePermutes(ts, mid, (t: Template, u: Template) => t.kind != u.kind);
    }
  }

  // ----- the canonical order, without the comparison functions -----

  /** Nothing comes before anything listed earlier: templates by kind, constraints by name,
      groups by pattern, and the instances of each group. */
  ghost predicate Ascending(ts: seq<Template>) {
    && (forall i, j :: 0 <= i < j < |ts| ==> !Precedes(ts[j].kind, ts[i].kind))
    && (forall i :: 0 <= i < |ts| ==> AscendingConstraints(ts[i].constraints))
  }

  ghost predicate AscendingConstraints(cs: seq<Constraint>) {
    && (forall i, j :: 0 <= i < j < |cs| ==> !Precedes(cs[j].name, cs[i].name))
    && (forall i :: 0 <= i < |cs| ==> AscendingGroups(cs[i].groups))
  }

  ghost predicate AscendingGroups(gs: seq<Group>) {
    && (forall i, j :: 0 <= i < j < |gs| ==> !ViolationPrecedes(gs[j].pattern, gs[i].pattern))
    && (forall i :: 0 <= i < |gs| ==> AscendingViolations(gs[i].instances))
  }

  ghost predicate AscendingViolations(vs: seq<Violation>) {
    forall i, j :: 0 <= i < j < |vs| ==> !ViolationPrecedes(vs[j], vs[i])
  }

  lemma ViolationsAscend(vs: seq<Violation>)
    ensures Sorted(vs, ByViolation) <==> AscendingViolations(vs)
  {
    hide ViolationPrecedes;
    forall i, j | 0 <= i < j < |vs|
      ensures ByViolation(vs[i], vs[j]) <= 0 <==> !ViolationPrecedes(vs[j], vs[i])
    {
      CompareToDecides(vs[i], vs[j]);
    }
  }

  lemma GroupsAscend(gs: seq<Group>)
    ensures GroupsInOrder(gs) <==> AscendingGroups(gs)
  {
    hide ViolationPrecedes, Sorted, AscendingViolations;
    forall i, j | 0 <= i < j < |gs|
      ensures ByViolation(gs[i].pattern, gs[j].pattern) <= 0 <==> !ViolationPrecedes(gs[j].pattern, gs[i].pattern)
    {
      CompareToDecides(gs[i].pattern, gs[j].pattern);
    }
    forall i | 0 <= i < |gs|
      ensures Sorted(gs[i].instances, ByViolation) <==> AscendingViolations(gs[i].instances)
    {
      ViolationsAscend(gs[i].instances);
    }
  }

  lemma ConstraintsAscend(cs: seq<Constraint>)
    ensures ConstraintsInOrder(cs) <==> AscendingConstraints(cs)
  {
    hide Compare, Precedes, GroupsInOrder, AscendingGroups;
    forall i, j | 0 <= i < j < |cs|
      ensures Compare(cs[i].name, cs[j].name) <= 0 <==> !Precedes(cs[j].name, cs[i].name)
    {
      CompareIsDictionaryOrder(cs[i].name, cs[j].name);
    }
    forall i | 0 <= i < |cs|
      ensures GroupsInOrder(cs[i].groups) <==> AscendingGroups(cs[i].groups)
    {
      GroupsAscend(cs[i].groups);
    }
  }

  /** The canonical order is ascending order at all four levels. */
  lemma InOrderIsAscending(ts: seq<Template>)
    ensures InOrder(ts) <==> Ascending(ts)
  {
    hide Compare, Precedes, ConstraintsInOrder, AscendingConstraints;
    forall i, j | 0 <= i < j < |ts|
      ensures Compare(ts[i].kind, ts[j].kind) <= 0 <==> !Precedes(ts[j].kind, ts[i].kind)
    {
      CompareIsDictionaryOrder(ts[i].kind, ts[j].kind);
    }
    forall i | 0 <= i < |ts|
      ensures ConstraintsInOrder(ts[i].constraints) <==> AscendingConstraints(ts[i].constraints)
    {
      ConstraintsAscend(ts[i].constraints);
    }
  }
}
