/** Two sorted aggregates with the same contents are equal, provided nothing ties. */
module Canonicity {
  import opened Text
  import opened Doop
  import opened Regroup
  import opened Contents
  import opened Filters
  import opened Sorting
  import opened Clusters
  import opened Canonical

  /** No two constraints of a template differ only in metadata, no two patterns of a
      constraint and no two instances of a group compare as equal without being equal.
      This is a property of the reports that go in. */
  ghost predicate TieFree(c: Content) {
    && (forall a, b | a in c.addresses && b in c.addresses && a.kind == b.kind && a.name == b.name ::
      a.metadata == b.metadata)
    && (forall a, b | a in c.addresses && b in c.addresses && b == a.(pattern := b.pattern) ::
      ByViolation(a.pattern, b.pattern) == 0 ==> a.pattern == b.pattern)
    && (forall x, y | x in c.entries && y in c.entries && x.at == y.at ::
      ByViolation(x.instance, y.instance) == 0 ==> x.instance == y.instance)
  }

  lemma TieFreePart(c: Content, keep: Address -> bool, part: Content)
    requires TieFree(c) && Restricts(c, keep, part)
    ensures TieFree(part)
  {
    assert forall e :: e in part.entries ==> e in c.entries;
  }

  // ----- picking one element of a list out of its contents -----

  function WithKind(kind: string): Address -> bool { (a: Address) => a.kind == kind }
  function WithConstraint(c: Constraint): Address -> bool {
    (a: Address) => a.name == c.name && a.metadata == c.metadata.Cleared()
  }
  function WithPattern(pattern: Violation): Address -> bool { (a: Address) => a.pattern == pattern }

  lemma {:induction false} PickTemplate(ts: seq<Template>, i: nat)
    requires i < |ts| && forall j, k :: 0 <= j < k < |ts| ==> ts[j].kind != ts[k].kind
    ensures FilterPlaced(FlatTemplates(ts), WithKind(ts[i].kind)) == FlatTemplate(ts[i])
  {
    var keep := WithKind(ts[i].kind);
    FlatConstraintsCleared(ts[0].kind, ts[0].constraints);
    FilterAppend(FlatTemplate(ts[0]), FlatTemplates(ts[1..]), keep);
    if i == 0 {
      FilterEvery(FlatTemplate(ts[0]), keep);
      NoTemplate(ts[1..], ts[0].kind);
    } else {
      FilterNone(FlatTemplate(ts[0]), keep);
      PickTemplate(ts[1..], i - 1);
    }
  }

  lemma {:induction false} NoTemplate(ts: seq<Template>, kind: string)
    requires forall j :: 0 <= j < |ts| ==> ts[j].kind != kind
    ensures FilterPlaced(FlatTemplates(ts), WithKind(kind)) == []
  {
    if ts != [] {
      FlatConstraintsCleared(ts[0].kind, ts[0].constraints);
      FilterNone(FlatTemplate(ts[0]), WithKind(kind));
      FilterAppend(FlatTemplate(ts[0]), FlatTemplates(ts[1..]), WithKind(kind));
      NoTemplate(ts[1..], kind);
    }
  }

  ghost predicate DistinctConstraints(cs: seq<Constraint>) {
    forall j, k :: 0 <= j < k < |cs| ==> !(cs[j].name == cs[k].name && cs[j].metadata.Cleared() == cs[k].metadata.Cleared())
  }

  lemma {:induction false} PickConstraint(kind: string, cs: seq<Constraint>, i: nat)
    requires i < |cs| && DistinctConstraints(cs)
    ensures FilterPlaced(FlatConstraints(kind, cs), WithConstraint(cs[i])) == FlatConstraint(kind, cs[i])
  {
    var keep := WithConstraint(cs[i]);
    FilterAppend(FlatConstraint(kind, cs[0]), FlatConstraints(kind, cs[1..]), keep);
    if i == 0 {
      FilterEvery(FlatConstraint(kind, cs[0]), keep);
      NoConstraint(kind, cs[1..], cs[0]);
    } else {
      FilterNone(FlatConstraint(kind, cs[0]), keep);
      PickConstraint(kind, cs[1..], i - 1);
    }
  }

  lemma {:induction false} NoConstraint(kind: string, cs: seq<Constraint>, c: Constraint)
    requires forall j :: 0 <= j < |cs| ==> !(cs[j].name == c.name && cs[j].metadata.Cleared() == c.metadata.Cleared())
    ensures FilterPlaced(FlatConstraints(kind, cs), WithConstraint(c)) == []
  {
    if cs != [] {
      FilterNone(FlatConstraint(kind, cs[0]), WithConstraint(c));
      FilterAppend(FlatConstraint(kind, cs[0]), FlatConstraints(kind, cs[1..]), WithConstraint(c));
      NoConstraint(kind, cs[1..], c);
    }
  }

  lemma {:induction false} PickGroup(ps: seq<Placed>, i: nat)
    requires i < |ps| && forall j, k :: 0 <= j < k < |ps| ==> ps[j].at.pattern != ps[k].at.pattern
    ensures FilterPlaced(ps, WithPattern(ps[i].at.pattern)) == [ps[i]]
  {
    if i == 0 {
      FilterNone(ps[1..], WithPattern(ps[0].at.pattern));
    } else {
      PickGroup(ps[1..], i - 1);
    }
  }

  lemma {:induction false} AddressesAreThose(ps: seq<Placed>)
    ensures forall a :: a in ContentOf(ps).addresses <==> exists i :: 0 <= i < |ps| && ps[i].at == a
  {
    if ps != [] {
      AddressesAreThose(ps[1..]);
      forall a
        ensures a in ContentOf(ps).addresses <==> exists i :: 0 <= i < |ps| && ps[i].at == a
      {
        if i :| 0 <= i < |ps| && ps[i].at == a {
          if i > 0 {
            assert ps[1..][i - 1].at == a;
          }
        }
        if i :| 0 <= i < |ps[1..]| && ps[1..][i].at == a {
          assert ps[i + 1].at == a;
        }
      }
    }
  }

  function Patterns(gs: seq<Group>): (r: seq<Violation>)
    ensures |r| == |gs|
  {
    seq(|gs|, i requires 0 <= i < |gs| => gs[i].pattern)
  }

  lemma GroupAddress(kind: string, name: string, metadata: Metadata, gs: seq<Group>, i: nat)
    requires i < |gs|
    ensures Address(kind, name, metadata.Cleared(), gs[i].pattern)
      in ContentOf(FlatGroups(kind, name, metadata, gs)).addresses
  {
    AddressesAreThose(FlatGroups(kind, name, metadata, gs));
    assert FlatGroups(kind, name, metadata, gs)[i].at.pattern == gs[i].pattern;
  }

  lemma AddressGroup(kind: string, name: string, metadata: Metadata, gs: seq<Group>, a: Address)
    requires a in ContentOf(FlatGroups(kind, name, metadata, gs)).addresses
    ensures a.pattern in Patterns(gs) && a == Address(kind, name, metadata.Cleared(), a.pattern)
  {
    AddressesAreThose(FlatGroups(kind, name, metadata, gs));
    var i :| 0 <= i < |gs| && FlatGroups(kind, name, metadata, gs)[i].at == a;
    assert Patterns(gs)[i] == a.pattern;
  }

  lemma PatternsReappear(kind: string, name: string, metadata: Metadata, gs: seq<Group>, hs: seq<Group>)
    requires ContentOf(FlatGroups(kind, name, metadata, gs)) == ContentOf(FlatGroups(kind, name, metadata, hs))
    ensures forall x :: x in Patterns(gs) ==> x in Patterns(hs)
  {
    hide ContentOf, FlatGroups;
    forall x | x in Patterns(gs)
      ensures x in Patterns(hs)
    {
      var i :| 0 <= i < |gs| && Patterns(gs)[i] == x;
      GroupAddress(kind, name, metadata, gs, i);
      AddressGroup(kind, name, metadata, hs, Address(kind, name, metadata.Cleared(), x));
    }
  }

  lemma PatternsDoNotTie(kind: string, name: string, metadata: Metadata, gs: seq<Group>)
    requires TieFree(ContentOf(FlatGroups(kind, name, metadata, gs)))
    ensures NoTies(Patterns(gs), ByViolation)
  {
    hide ContentOf, FlatGroups;
    var s := Patterns(gs);
    forall i, j | 0 <= i < |s| && 0 <= j < |s| && ByViolation(s[i], s[j]) <= 0 && ByViolation(s[j], s[i]) <= 0
      ensures s[i] == s[j]
    {
      CompareToFlips(s[i], s[j]);
      GroupAddress(kind, name, metadata, gs, i);
      GroupAddress(kind, name, metadata, gs, j);
    }
  }

  lemma PatternsAgree(kind: string, name: string, metadata: Metadata, gs: seq<Group>, hs: seq<Group>)
    requires WellFormedGroups(gs) && WellFormedGroups(hs) && GroupsInOrder(gs) && GroupsInOrder(hs)
    requires ContentOf(FlatGroups(kind, name, metadata, gs)) == ContentOf(FlatGroups(kind, name, metadata, hs))
    requires TieFree(ContentOf(FlatGroups(kind, name, metadata, gs)))
    ensures Patterns(gs) == Patterns(hs)
  {
    hide TotalPreorder, TieFree, ByViolation, ContentOf, FlatGroups;
    PatternsReappear(kind, name, metadata, gs, hs);
    PatternsReappear(kind, name, metadata, hs, gs);
    PatternsDoNotTie(kind, name, metadata, gs);
    OrdersArePreorders();
    SortedKeysAreUnique(Patterns(gs), Patterns(hs), ByViolation);
  }

  /** A group's contents are determined by those of its constraint. */
  lemma SameGroupContent(ps: seq<Placed>, qs: seq<Placed>, i: nat, j: nat)
    requires i < |ps| && j < |qs| && ps[i].at == qs[j].at
    requires forall k, l :: 0 <= k < l < |ps| ==> ps[k].at.pattern != ps[l].at.pattern
    requires forall k, l :: 0 <= k < l < |qs| ==> qs[k].at.pattern != qs[l].at.pattern
    requires ContentOf(ps) == ContentOf(qs)
    ensures ContentIn(ps[i]) == ContentIn(qs[j])
    ensures Restricts(ContentOf(ps), WithPattern(ps[i].at.pattern), ContentIn(ps[i]))
  {
    hide ContentOf, ContentIn, FilterPlaced;
    var keep := WithPattern(ps[i].at.pattern);
    PickGroup(ps, i);
    PickGroup(qs, j);
    FilterRestricts(ps, keep);
    FilterRestricts(qs, keep);
    RestrictsIsUnique(ContentOf(ps), keep, ContentOf([ps[i]]), ContentOf([qs[j]]));
    ContentOne(ps[i]);
    ContentOne(qs[j]);
  }

  lemma GroupIsUnique(ps: seq<Placed>, qs: seq<Placed>, i: nat)
    requires i < |ps| && i < |qs| && ps[i].at == qs[i].at
    requires forall j, k :: 0 <= j < k < |ps| ==> ps[j].at.pattern != ps[k].at.pattern
    requires forall j, k :: 0 <= j < k < |qs| ==> qs[j].at.pattern != qs[k].at.pattern
    requires ContentOf(ps) == ContentOf(qs) && TieFree(ContentOf(ps))
    requires Sorted(ps[i].instances, ByViolation) && Sorted(qs[i].instances, ByViolation)
    ensures ps[i] == qs[i]
  {
    SameGroupContent(ps, qs, i, i);
    hide ContentOf, TieFree;
    TieFreePart(ContentOf(ps), WithPattern(ps[i].at.pattern), ContentIn(ps[i]));
    InstancesAreUnique(ps[i].at, ps[i].instances, qs[i].instances);
  }

  /** The groups of one constraint are determined by its contents. */
  lemma GroupsAreUnique(kind: string, name: string, metadata: Metadata, gs: seq<Group>, hs: seq<Group>)
    requires WellFormedGroups(gs) && WellFormedGroups(hs) && GroupsInOrder(gs) && GroupsInOrder(hs)
    requires ContentOf(FlatGroups(kind, name, metadata, gs)) == ContentOf(FlatGroups(kind, name, metadata, hs))
    requires TieFree(ContentOf(FlatGroups(kind, name, metadata, gs)))
    ensures gs == hs
  {
    hide ContentOf, TieFree;
    var ps, qs := FlatGroups(kind, name, metadata, gs), FlatGroups(kind, name, metadata, hs);
    PatternsAgree(kind, name, metadata, gs, hs);
    assert |gs| == |Patterns(gs)| == |hs|;
    forall i | 0 <= i < |gs|
      ensures gs[i] == hs[i]
    {
      assert Patterns(gs)[i] == Patterns(hs)[i];
      GroupIsUnique(ps, qs, i);
    }
  }

  lemma SameInstances(at: Address, vs: seq<Violation>, ws: seq<Violation>)
    requires EntriesAt(at, vs) == EntriesAt(at, ws)
    ensures multiset(vs) == multiset(ws)
  {
    forall v
      ensures multiset(vs)[v] == multiset(ws)[v]
    {
      EntriesAtCount(at, vs, Entry(at, v));
      EntriesAtCount(at, ws, Entry(at, v));
    }
  }

  lemma InstancesAreUnique(at: Address, vs: seq<Violation>, ws: seq<Violation>)
    requires EntriesAt(at, vs) == EntriesAt(at, ws)
    requires TieFree(Content({at}, EntriesAt(at, vs)))
    requires Sorted(vs, ByViolation) && Sorted(ws, ByViolation)
    ensures vs == ws
  {
    hide TotalPreorder, TieFree, ByViolation;
    SameInstances(at, vs, ws);
    InstancesDoNotTie(at, vs);
    OrdersArePreorders();
    SortedIsUnique(vs, ws, ByViolation);
  }

  lemma InstancesDoNotTie(at: Address, vs: seq<Violation>)
    requires TieFree(Content({at}, EntriesAt(at, vs)))
    ensures NoTies(vs, ByViolation)
  {
    hide EntriesAt;
    forall i, j | 0 <= i < |vs| && 0 <= j < |vs| && ByViolation(vs[i], vs[j]) <= 0 && ByViolation(vs[j], vs[i]) <= 0
      ensures vs[i] == vs[j]
    {
      CompareToFlips(vs[i], vs[j]);
      EntriesAtCount(at, vs, Entry(at, vs[i]));
      EntriesAtCount(at, vs, Entry(at, vs[j]));
    }
  }

  function Names(cs: seq<Constraint>): (r: seq<string>)
    ensures |r| == |cs|
  {
    seq(|cs|, i requires 0 <= i < |cs| => cs[i].name)
  }

  lemma NamesReappear(kind: string, cs: seq<Constraint>, ds: seq<Constraint>)
    requires WellFormedConstraints(cs)
    requires ContentOf(FlatConstraints(kind, cs)) == ContentOf(FlatConstraints(kind, ds))
    ensures forall x :: x in Names(cs) ==> x in Names(ds)
  {
    hide ContentOf, FlatConstraints;
    forall x | x in Names(cs)
      ensures x in Names(ds)
    {
      var i :| 0 <= i < |cs| && Names(cs)[i] == x;
      ConstraintReappears(kind, cs, ds, i);
      var k :| 0 <= k < |ds| && ds[k].name == cs[i].name;
      assert Names(ds)[k] == x;
    }
  }

  /** The constraints of one template are determined by its contents. */
  lemma ConstraintsAreUnique(kind: string, cs: seq<Constraint>, ds: seq<Constraint>)
    requires WellFormedConstraints(cs) && WellFormedConstraints(ds) && ConstraintsInOrder(cs) && ConstraintsInOrder(ds)
    requires ContentOf(FlatConstraints(kind, cs)) == ContentOf(FlatConstraints(kind, ds))
    requires TieFree(ContentOf(FlatConstraints(kind, cs)))
    ensures cs == ds
  {
    hide ContentOf, FlatConstraints, TieFree, WellFormedConstraint, GroupsInOrder;
    NamesAreDistinct(kind, cs);
    NamesAreDistinct(kind, ds);
    NamesReappear(kind, cs, ds);
    NamesReappear(kind, ds, cs);
    KeysAgree(Names(cs), Names(ds));
    assert |cs| == |Names(cs)| == |ds|;
    forall i | 0 <= i < |cs|
      ensures cs[i] == ds[i]
    {
      assert Names(cs)[i] == Names(ds)[i];
      ConstraintIsUnique(kind, cs, ds, i);
    }
  }

  lemma KeysAgree(s: seq<string>, t: seq<string>)
    requires Sorted(s, Compare) && Sorted(t, Compare) && Distinct(s) && Distinct(t)
    requires forall x :: x in s <==> x in t
    ensures s == t
  {
    hide TotalPreorder;
    forall i, j | 0 <= i < |s| && 0 <= j < |s| && Compare(s[i], s[j]) <= 0 && Compare(s[j], s[i]) <= 0
      ensures s[i] == s[j]
    {
      CompareFlips(s[i], s[j]);
      CompareIsEquality(s[i], s[j]);
    }
    OrdersArePreorders();
    SortedKeysAreUnique(s, t, Compare);
  }

  lemma {:induction false} ConstraintAddress(kind: string, cs: seq<Constraint>, i: nat, j: nat)
    requires i < |cs| && j < |cs[i].groups|
    ensures Address(kind, cs[i].name, cs[i].metadata.Cleared(), cs[i].groups[j].pattern)
      in ContentOf(FlatConstraints(kind, cs)).addresses
  {
    hide ContentOf, FlatConstraints;
    FirstConstraintContent(kind, cs);
    if i == 0 {
      AddressesAreThose(FlatConstraint(kind, cs[0]));
      assert FlatConstraint(kind, cs[0])[j].at.pattern == cs[i].groups[j].pattern;
    } else {
      ConstraintAddress(kind, cs[1..], i - 1, j);
    }
  }

  lemma {:induction false} AddressConstraint(kind: string, cs: seq<Constraint>, a: Address) returns (i: nat)
    requires a in ContentOf(FlatConstraints(kind, cs)).addresses
    ensures i < |cs| && cs[i].name == a.name && cs[i].metadata.Cleared() == a.metadata && kind == a.kind
    ensures a.pattern in Patterns(cs[i].groups)
  {
    hide ContentOf, FlatConstraints;
    FirstConstraintContent(kind, cs);
    if a in ContentOf(FlatConstraint(kind, cs[0])).addresses {
      AddressesAreThose(FlatConstraint(kind, cs[0]));
      i := 0;
      var j :| 0 <= j < |cs[0].groups| && FlatConstraint(kind, cs[0])[j].at == a;
      assert Patterns(cs[0].groups)[j] == a.pattern;
    } else {
      i := AddressConstraint(kind, cs[1..], a);
      i := i + 1;
    }
  }

  lemma NamesAreDistinct(kind: string, cs: seq<Constraint>)
    requires WellFormedConstraints(cs) && TieFree(ContentOf(FlatConstraints(kind, cs)))
    ensures forall i, j :: 0 <= i < j < |cs| ==> cs[i].name != cs[j].name
  {
    hide ContentOf, FlatConstraints;
    forall i, j | 0 <= i < j < |cs|
      ensures cs[i].name != cs[j].name
    {
      assert WellFormedConstraint(cs[i]) && WellFormedConstraint(cs[j]);
      ConstraintAddress(kind, cs, i, 0);
      ConstraintAddress(kind, cs, j, 0);
    }
  }

  lemma ConstraintReappears(kind: string, cs: seq<Constraint>, ds: seq<Constraint>, i: nat)
    requires WellFormedConstraints(cs) && i < |cs|
    requires ContentOf(FlatConstraints(kind, cs)) == ContentOf(FlatConstraints(kind, ds))
    ensures exists k :: 0 <= k < |ds| && ds[k].name == cs[i].name && ds[k].metadata.Cleared() == cs[i].metadata.Cleared()
  {
    hide ContentOf, FlatConstraints;
    assert WellFormedConstraint(cs[i]);
    ConstraintAddress(kind, cs, i, 0);
    var k := AddressConstraint(kind, ds,
      Address(kind, cs[i].name, cs[i].metadata.Cleared(), cs[i].groups[0].pattern));
  }

  lemma WellFormedAreDistinct(cs: seq<Constraint>)
    requires WellFormedConstraints(cs)
    ensures DistinctConstraints(cs)
  {
    assert forall i :: 0 <= i < |cs| ==> WellFormedConstraint(cs[i]) && cs[i].metadata.Cleared() == cs[i].metadata;
  }

  /** A constraint's contents are determined by those of its template. */
  lemma SameConstraintContent(kind: string, cs: seq<Constraint>, ds: seq<Constraint>, i: nat, j: nat)
    requires WellFormedConstraints(cs) && WellFormedConstraints(ds)
    requires ContentOf(FlatConstraints(kind, cs)) == ContentOf(FlatConstraints(kind, ds))
    requires i < |cs| && j < |ds| && cs[i].name == ds[j].name && cs[i].metadata == ds[j].metadata
    ensures ContentOf(FlatConstraint(kind, cs[i])) == ContentOf(FlatConstraint(kind, ds[j]))
    ensures Restricts(ContentOf(FlatConstraints(kind, cs)), WithConstraint(cs[i]), ContentOf(FlatConstraint(kind, cs[i])))
  {
    hide ContentOf, FlatConstraint, FlatConstraints, FilterPlaced, WellFormedConstraints, DistinctConstraints;
    var keep := WithConstraint(cs[i]);
    assert WithConstraint(ds[j]) == keep;
    WellFormedAreDistinct(cs);
    WellFormedAreDistinct(ds);
    PickConstraint(kind, cs, i);
    PickConstraint(kind, ds, j);
    FilterRestricts(FlatConstraints(kind, cs), keep);
    FilterRestricts(FlatConstraints(kind, ds), keep);
    RestrictsIsUnique(ContentOf(FlatConstraints(kind, cs)), keep,
      ContentOf(FlatConstraint(kind, cs[i])), ContentOf(FlatConstraint(kind, ds[j])));
  }

  lemma ConstraintIsUnique(kind: string, cs: seq<Constraint>, ds: seq<Constraint>, i: nat)
    requires WellFormedConstraints(cs) && WellFormedConstraints(ds) && ConstraintsInOrder(cs) && ConstraintsInOrder(ds)
    requires forall j, k :: 0 <= j < k < |ds| ==> ds[j].name != ds[k].name
    requires ContentOf(FlatConstraints(kind, cs)) == ContentOf(FlatConstraints(kind, ds))
    requires TieFree(ContentOf(FlatConstraints(kind, cs)))
    requires i < |cs| && i < |ds| && cs[i].name == ds[i].name
    ensures cs[i] == ds[i]
  {
    hide ContentOf, FlatConstraints, TieFree;
    var c, d := cs[i], ds[i];
    assert WellFormedConstraint(c) && WellFormedConstraint(d);
    ConstraintReappears(kind, cs, ds, i);
    assert d.metadata == c.metadata;
    SameConstraintContent(kind, cs, ds, i, i);
    TieFreePart(ContentOf(FlatConstraints(kind, cs)), WithConstraint(c), ContentOf(FlatConstraint(kind, c)));
    GroupsAreUnique(kind, c.name, c.metadata, c.groups, d.groups);
  }

  // ----- templates -----

  lemma {:induction false} TemplateAddress(ts: seq<Template>, i: nat, a: Address)
    requires i < |ts| && a in ContentOf(FlatTemplate(ts[i])).addresses
    ensures a in ContentOfTree(ts).addresses
  {
    ContentAppend(FlatTemplate(ts[0]), FlatTemplates(ts[1..]));
    if i > 0 {
      TemplateAddress(ts[1..], i - 1, a);
    }
  }

  lemma {:induction false} AddressTemplate(ts: seq<Template>, a: Address) returns (i: nat)
    requires a in ContentOfTree(ts).addresses
    ensures i < |ts| && ts[i].kind == a.kind && a in ContentOf(FlatTemplate(ts[i])).addresses
  {
    ContentAppend(FlatTemplate(ts[0]), FlatTemplates(ts[1..]));
    if a in ContentOf(FlatTemplate(ts[0])).addresses {
      i := 0;
      var j := AddressConstraint(ts[0].kind, ts[0].constraints, a);
    } else {
      i := AddressTemplate(ts[1..], a);
      i := i + 1;
    }
  }

  lemma TemplateReappears(ts: seq<Template>, us: seq<Template>, i: nat)
    requires WellFormed(ts) && i < |ts| && ContentOfTree(ts) == ContentOfTree(us)
    ensures exists k :: 0 <= k < |us| && us[k].kind == ts[i].kind
  {
    hide ContentOf, FlatConstraints;
    var c := ts[i].constraints[0];
    assert WellFormedConstraint(c);
    ConstraintAddress(ts[i].kind, ts[i].constraints, 0, 0);
    var a := Address(ts[i].kind, c.name, c.metadata.Cleared(), c.groups[0].pattern);
    TemplateAddress(ts, i, a);
    var k := AddressTemplate(us, a);
  }

  /** A template's contents are determined by those of its report. */
  lemma SameTemplateContent(ts: seq<Template>, us: seq<Template>, i: nat, j: nat)
    requires WellFormed(ts) && WellFormed(us) && ContentOfTree(ts) == ContentOfTree(us)
    requires i < |ts| && j < |us| && ts[i].kind == us[j].kind
    ensures ContentOf(FlatTemplate(ts[i])) == ContentOf(FlatTemplate(us[j]))
    ensures Restricts(ContentOfTree(ts), WithKind(ts[i].kind), ContentOf(FlatTemplate(ts[i])))
  {
    hide ContentOf, FlatTemplates, FilterPlaced, WellFormedConstraints;
    var keep := WithKind(ts[i].kind);
    PickTemplate(ts, i);
    PickTemplate(us, j);
    FilterRestricts(FlatTemplates(ts), keep);
    FilterRestricts(FlatTemplates(us), keep);
    RestrictsIsUnique(ContentOfTree(ts), keep, ContentOf(FlatTemplate(ts[i])), ContentOf(FlatTemplate(us[j])));
  }

  lemma TemplateIsUnique(ts: seq<Template>, us: seq<Template>, i: nat)
    requires WellFormed(ts) && WellFormed(us) && InOrder(ts) && InOrder(us)
    requires ContentOfTree(ts) == ContentOfTree(us) && TieFree(ContentOfTree(ts))
    requires i < |ts| && i < |us| && ts[i].kind == us[i].kind
    ensures ts[i] == us[i]
  {
    hide ContentOf, ContentOfTree, TieFree;
    SameTemplateContent(ts, us, i, i);
    TieFreePart(ContentOfTree(ts), WithKind(ts[i].kind), ContentOf(FlatTemplate(ts[i])));
    ConstraintsAreUnique(ts[i].kind, ts[i].constraints, us[i].constraints);
  }

  function Kinds(ts: seq<Template>): (r: seq<string>)
    ensures |r| == |ts|
  {
    seq(|ts|, i requires 0 <= i < |ts| => ts[i].kind)
  }

  lemma KindsReappear(ts: seq<Template>, us: seq<Template>)
    requires WellFormed(ts) && ContentOfTree(ts) == ContentOfTree(us)
    ensures forall x :: x in Kinds(ts) ==> x in Kinds(us)
  {
    hide ContentOfTree, WellFormedConstraints;
    forall x | x in Kinds(ts)
      ensures x in Kinds(us)
    {
      var i :| 0 <= i < |ts| && Kinds(ts)[i] == x;
      TemplateReappears(ts, us, i);
      var k :| 0 <= k < |us| && us[k].kind == ts[i].kind;
      assert Kinds(us)[k] == x;
    }
  }

  /** In canonical order, the contents determine the tree. */
  lemma InOrderIsUnique(ts: seq<Template>, us: seq<Template>)
    requires WellFormed(ts) && WellFormed(us) && InOrder(ts) && InOrder(us)
    requires ContentOfTree(ts) == ContentOfTree(us) && TieFree(ContentOfTree(ts))
    ensures ts == us
  {
    hide ContentOfTree, TieFree, WellFormedConstraints, ConstraintsInOrder;
    KindsReappear(ts, us);
    KindsReappear(us, ts);
    KeysAgree(Kinds(ts), Kinds(us));
    assert |ts| == |Kinds(ts)| == |us|;
    forall i | 0 <= i < |ts|
      ensures ts[i] == us[i]
    {
      assert Kinds(ts)[i] == Kinds(us)[i];
      TemplateIsUnique(ts, us, i);
    }
  }

  /** Any two runs over the same reports and filter, visiting the clusters in any two orders
      and sorting with any treatment of ties, give the same aggregate when nothing ties. */
  lemma AggregationIsCanonical(reports: ClusterReports, f: FilterSet, order: seq<string>, order': seq<string>,
      sorted: seq<Template>, sorted': seq<Template>)
    requires IsOrdering(order, reports.Keys) && IsOrdering(order', reports.Keys)
    requires TieFree(ContentOf(FlatClusters(reports, order, f)))
    requires TreeSortedInto(Aggregated(reports, order, f), sorted)
    requires TreeSortedInto(Aggregated(reports, order', f), sorted')
    ensures sorted == sorted'
  {
    hide TieFree, TreeSortedInto, Aggregated, ContentOf, WellFormed, InOrder, ContentOfTree;
    AggregatedContent(reports, order, f);
    AggregatedContent(reports, order', f);
    OrderDoesNotMatter(reports, order, order', f);
    SortingRearranges(Aggregated(reports, order, f), sorted);
    SortingRearranges(Aggregated(reports, order', f), sorted');
    InOrderIsUnique(sorted, sorted');
  }
}
