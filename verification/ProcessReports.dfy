/** ProcessReport: all constraints of a report are processed where they are in memory. */
module ProcessReports {
  import opened Doop
  import opened Regroup
  import opened Rules
  import opened Process
  import opened GroupBy
  import opened Pipeline

  ghost function Held(c: ConstraintInProcess): set<StringMap?>
    reads c
  {
    Maps(c.violations) + GroupMaps(c.groups)
  }

  ghost function Objects(cs: seq<ConstraintInProcess>): set<ConstraintInProcess> {
    set i | 0 <= i < |cs| :: cs[i]
  }

  ghost function HeldByAll(cs: seq<ConstraintInProcess>): set<StringMap?>
    reads Objects(cs)
  {
    set i, o | 0 <= i < |cs| && o in Held(cs[i]) :: o
  }

  ghost predicate Apart(a: set<StringMap?>, b: set<StringMap?>) {
    forall o :: o in a && o in b ==> o == null
  }

  /** No identity map is shared: every violation and every constraint has its own. */
  ghost predicate AllApart(cs: seq<ConstraintInProcess>)
    reads Objects(cs)
  {
    && (forall i, j :: 0 <= i < j < |cs| ==> cs[i] != cs[j] && Apart(Held(cs[i]), Held(cs[j])))
    && (forall i :: 0 <= i < |cs| ==> SeparateMaps(cs[i].violations))
  }

  ghost function LoadedConstraint(c: ConstraintInProcess): Constraint
    reads c, Held(c)
  {
    ReportForConstraint(c.name, c.metadata, LoadedAll(c.violations), LoadedGroups(c.groups))
  }

  ghost function LoadedEach(cs: seq<ConstraintInProcess>): (r: seq<Constraint>)
    reads Objects(cs), HeldByAll(cs)
    ensures |r| == |cs|
    ensures forall i :: 0 <= i < |cs| ==> r[i] == LoadedConstraint(cs[i])
  {
    seq(|cs|, i requires 0 <= i < |cs| reads Objects(cs), HeldByAll(cs) => LoadedConstraint(cs[i]))
  }

  ghost function HeldEach(cs: seq<ConstraintInProcess>): (r: seq<set<StringMap?>>)
    reads Objects(cs)
    ensures |r| == |cs| && forall i :: 0 <= i < |cs| ==> r[i] == Held(cs[i])
  {
    seq(|cs|, i requires 0 <= i < |cs| reads Objects(cs) => Held(cs[i]))
  }

  lemma HeldIsKnown(cs: seq<ConstraintInProcess>)
    ensures forall j :: 0 <= j < |cs| ==> Held(cs[j]) <= HeldByAll(cs)
  {
  }

  lemma HeldIsAllocated(c: ConstraintInProcess)
    ensures forall o :: o in Held(c) ==> allocated(o)
  {
  }

  method ProcessConstraint(c: ConstraintInProcess, cfg: Configuration) returns (panicked: bool)
    requires SeparateMaps(c.violations)
    modifies c, Held(c)
    ensures panicked <==> old(c.groups) != []
    ensures panicked ==> unchanged(c)
    ensures !panicked ==> c.violations == []
    ensures !panicked ==> LoadedConstraint(c) == ProcessedConstraint(cfg, old(LoadedConstraint(c)))
    ensures forall o :: o in Held(c) && o != null ==> o in old(Held(c)) || fresh(o)
  {
    hide PutAllGroups, Singles;
    panicked := ProcessReportForConstraint(c, cfg, "");
  }

  /** The constraints are those of all templates, in order. It stops at the first constraint
      that was processed before. */
  method ProcessReport(cs: seq<ConstraintInProcess>, cfg: Configuration) returns (panicked: bool)
    requires AllApart(cs)
    modifies Objects(cs), HeldByAll(cs)
    ensures panicked <==> exists i :: 0 <= i < |cs| && old(cs[i].groups) != []
    ensures !panicked ==> forall i :: 0 <= i < |cs| ==>
      LoadedConstraint(cs[i]) == ProcessedConstraint(cfg, old(LoadedConstraint(cs[i])))
    ensures !panicked ==> forall i, g :: 0 <= i < |cs| && 0 <= g < |LoadedConstraint(cs[i]).groups| ==>
      Compresses(LoadedConstraint(cs[i]).groups[g])
  {
    hide ProcessedConstraint, LoadedConstraint, LoadedEach, Held, SeparateMaps, Compresses;
    ghost var before, all := LoadedEach(cs), HeldByAll(cs);
    HeldIsKnown(cs);
    hide HeldByAll;
    for i := 0 to |cs|
      invariant forall j, k :: 0 <= j < |cs| && 0 <= k < |cs| && j != k ==> Apart(Held(cs[j]), Held(cs[k]))
      invariant forall j :: i <= j < |cs| ==> unchanged(cs[j])
      invariant forall j :: i <= j < |cs| ==> LoadedConstraint(cs[j]) == before[j]
      invariant forall j :: 0 <= j < i ==> LoadedConstraint(cs[j]) == ProcessedConstraint(cfg, before[j])
      invariant forall j :: 0 <= j < i ==> old(cs[j].groups) == []
    {
      assert Held(cs[i]) == old(Held(cs[i]));
      ghost var held, loaded := HeldEach(cs), LoadedEach(cs);
      forall j | 0 <= j < |cs|
        ensures forall o :: o in held[j] ==> allocated(o)
      {
        HeldIsAllocated(cs[j]);
      }
      label L:
      panicked := ProcessConstraint(cs[i], cfg);
      if panicked {
        return;
      }
      forall j | 0 <= j < |cs| && j != i
        ensures Held(cs[j]) == held[j] && LoadedConstraint(cs[j]) == loaded[j]
      {
        assert cs[j] != cs[i] && Apart(held[i], held[j]);
      }
      forall j | 0 <= j < |cs| && j != i
        ensures Apart(Held(cs[j]), Held(cs[i]))
      {
        forall o | o in Held(cs[i]) && o != null
          ensures o !in held[j]
        {
          assert o in held[i] || fresh@L(o);
        }
      }
    }
    panicked := false;
    forall i | 0 <= i < |cs|
      ensures forall g :: 0 <= g < |LoadedConstraint(cs[i]).groups| ==> Compresses(LoadedConstraint(cs[i]).groups[g])
    {
      InstancesAreCompressed(cfg, before[i]);
    }
  }

  lemma {:induction false} SinglesCount(cfg: Configuration, kind: string, name: string, metadata: Metadata, vs: seq<Violation>)
    ensures InstanceCount(Singles(cfg, kind, name, metadata, vs)) == |vs|
  {
    hide Single;
    if vs != [] {
      SinglesCount(cfg, kind, name, metadata, vs[1..]);
      assert Singles(cfg, kind, name, metadata, vs)[1..] == Singles(cfg, kind, name, metadata, vs[1..]);
      OneInstance(cfg, kind, name, metadata, vs[0]);
    }
  }

  lemma OneInstance(cfg: Configuration, kind: string, name: string, metadata: Metadata, v: Violation)
    ensures |Single(cfg, kind, name, metadata, v).instances| == 1
  {
  }

  /** A processed constraint has as many instances as there were violations. */
  lemma EveryViolationIsAnInstance(cfg: Configuration, c: Constraint)
    ensures GroupedCount(ProcessedConstraint(cfg, c).groups) == |c.violations|
  {
    hide Singles, PutAllGroups;
    MergingKeepsTheCount([], Singles(cfg, "", c.name, c.metadata, c.violations));
    SinglesCount(cfg, "", c.name, c.metadata, c.violations);
  }

  // ----- from gathering to processing -----

  /** A gathered violation gets an identity map of its own, or none. */
  method StoreViolation(v: Violation) returns (r: StoredViolation)
    ensures Loaded(r) == v
    ensures r.objectIdentity != null ==> fresh(r.objectIdentity)
  {
    var identity: StringMap? := null;
    if v.objectIdentity != map[] {
      identity := new StringMap(v.objectIdentity);
    }
    r := StoredViolation(v.kind, v.name, v.namespace, v.message, identity, v.clusterName);
  }

  lemma AppendViolation(vs: seq<StoredViolation>, v: StoredViolation)
    ensures Maps(vs + [v]) == Maps(vs) + {v.objectIdentity}
    ensures LoadedAll(vs + [v]) == LoadedAll(vs) + [Loaded(v)]
    ensures SeparateMaps(vs) && (v.objectIdentity != null ==> v.objectIdentity !in Maps(vs)) ==> SeparateMaps(vs + [v])
  {
    var r := vs + [v];
    assert r[|vs|] == v && forall i :: 0 <= i < |vs| ==> r[i] == vs[i];
    assert forall i :: 0 <= i < |vs| ==> r[i].objectIdentity in Maps(r);
    assert r[|vs|].objectIdentity in Maps(r);
  }

  method StoreViolations(vs: seq<Violation>) returns (r: seq<StoredViolation>)
    ensures LoadedAll(r) == vs && SeparateMaps(r)
    ensures forall o :: o in Maps(r) && o != null ==> fresh(o)
  {
    hide Maps, Loaded, SeparateMaps;
    r := [];
    NoViolations();
    for i := 0 to |vs|
      invariant LoadedAll(r) == vs[..i] && SeparateMaps(r)
      invariant forall o :: o in Maps(r) && o != null ==> fresh(o)
    {
      ghost var view := LoadedAll(r);
      MapsOfAllocated(r);
      var v := StoreViolation(vs[i]);
      assert LoadedAll(r) == view;
      AppendViolation(r, v);
      r := r + [v];
    }
  }

  lemma NoViolations()
    ensures LoadedAll([]) == [] && Maps([]) == {} && SeparateMaps([])
  {
  }

  lemma MapsOfAllocated(vs: seq<StoredViolation>)
    ensures forall o :: o in Maps(vs) ==> allocated(o)
  {
  }

  method StoreConstraint(c: Constraint) returns (r: ConstraintInProcess)
    requires c.groups == []
    ensures fresh(r) && LoadedConstraint(r) == c && r.groups == []
    ensures SeparateMaps(r.violations) && forall o :: o in Held(r) && o != null ==> fresh(o)
  {
    hide Maps;
    var vs := StoreViolations(c.violations);
    ghost var maps := Maps(vs);
    MapsOfAllocated(vs);
    r := new ConstraintInProcess(c.name, c.metadata, vs);
    assert LoadedAll(r.violations) == c.violations;
    assert LoadedGroups(r.groups) == [] && GroupMaps(r.groups) == {};
  }

  /** A gathered report in memory: nothing is shared, as ProcessReport demands. */
  method StoreConstraints(cs: seq<Constraint>) returns (r: seq<ConstraintInProcess>)
    requires forall c :: c in cs ==> c.groups == []
    ensures AllApart(r) && |r| == |cs|
    ensures forall i :: 0 <= i < |cs| ==> LoadedConstraint(r[i]) == cs[i] && r[i].groups == []
    ensures forall i :: 0 <= i < |cs| ==> fresh(r[i])
    ensures forall i, o :: 0 <= i < |cs| && o in Held(r[i]) && o != null ==> fresh(o)
  {
    hide LoadedConstraint, Held, SeparateMaps;
    r := [];
    for i := 0 to |cs|
      invariant |r| == i && AllApart(r)
      invariant forall j :: 0 <= j < i ==> LoadedConstraint(r[j]) == cs[j] && r[j].groups == []
      invariant forall j :: 0 <= j < i ==> fresh(r[j])
      invariant forall j, o :: 0 <= j < i && o in Held(r[j]) && o != null ==> fresh(o)
    {
      ghost var held := HeldEach(r);
      forall j | 0 <= j < i
        ensures forall o :: o in held[j] ==> allocated(o)
      {
        HeldIsAllocated(r[j]);
      }
      label L:
      var c := StoreConstraint(cs[i]);
      assert forall j :: 0 <= j < i ==> Held(r[j]) == held[j];
      assert forall o :: o in Held(c) && o != null ==> fresh@L(o);
      r := r + [c];
    }
  }

  /** From a gathered report to a processed one: processing does not panic. */
  method ProcessGathered(cs: seq<Constraint>, cfg: Configuration) returns (r: seq<ConstraintInProcess>, panicked: bool)
    requires forall c :: c in cs ==> c.groups == []
    ensures !panicked && |r| == |cs|
    ensures forall i :: 0 <= i < |cs| ==> LoadedConstraint(r[i]) == ProcessedConstraint(cfg, cs[i])
  {
    hide LoadedConstraint, ProcessedConstraint;
    r := StoreConstraints(cs);
    panicked := ProcessReport(r, cfg);
  }

  // ----- compression, in the groups that come out -----

  ghost predicate Compresses(g: Group) {
    forall k :: 0 <= k < |g.instances| ==> Minimal(g.instances[k], g.pattern)
  }

  lemma PutKeepsCompressed(gs: seq<Group>, p: Placed)
    requires forall i :: 0 <= i < |gs| ==> Compresses(gs[i])
    requires Compresses(ViolationGroup(p.at.pattern, p.instances))
    ensures forall i :: 0 <= i < |PutGroup(gs, p)| ==> Compresses(PutGroup(gs, p)[i])
  {
    hide Minimal;
    var i := FindGroup(gs, p.at.pattern);
    if i < |gs| {
      var g := ViolationGroup(gs[i].pattern, gs[i].instances + p.instances);
      forall k | 0 <= k < |g.instances|
        ensures Minimal(g.instances[k], g.pattern)
      {
        if k >= |gs[i].instances| {
          assert Minimal(p.instances[k - |gs[i].instances|], p.at.pattern);
        } else {
          assert Minimal(gs[i].instances[k], gs[i].pattern);
        }
      }
    }
  }

  lemma {:induction false} MergingKeepsCompressed(gs: seq<Group>, ps: seq<Placed>)
    requires forall i :: 0 <= i < |gs| ==> Compresses(gs[i])
    requires forall k :: 0 <= k < |ps| ==> Compresses(ViolationGroup(ps[k].at.pattern, ps[k].instances))
    ensures forall i :: 0 <= i < |PutAllGroups(gs, ps)| ==> Compresses(PutAllGroups(gs, ps)[i])
    decreases |ps|
  {
    hide Compresses, PutGroup;
    if ps == [] {
      assert PutAllGroups(gs, ps) == gs;
    } else {
      PutKeepsCompressed(gs, ps[0]);
      MergingKeepsCompressed(PutGroup(gs, ps[0]), ps[1..]);
      assert PutAllGroups(gs, ps) == PutAllGroups(PutGroup(gs, ps[0]), ps[1..]);
    }
  }

  /** Every instance of a processed constraint has the fewest fields that a representation
      against its group's pattern can have. */
  lemma InstancesAreCompressed(cfg: Configuration, c: Constraint)
    ensures forall i :: 0 <= i < |ProcessedConstraint(cfg, c).groups| ==> Compresses(ProcessedConstraint(cfg, c).groups[i])
  {
    hide PutAllGroups, Minimal;
    var ps := Singles(cfg, "", c.name, c.metadata, c.violations);
    forall k | 0 <= k < |ps|
      ensures Compresses(ViolationGroup(ps[k].at.pattern, ps[k].instances))
    {
      SingleIsCompressed(cfg, c, c.violations[k]);
    }
    MergingKeepsCompressed([], ps);
  }

  lemma SingleIsCompressed(cfg: Configuration, c: Constraint, v: Violation)
    ensures
      var p := Single(cfg, "", c.name, c.metadata, v);
      Compresses(ViolationGroup(p.at.pattern, p.instances))
  {
    hide Minimal, PatternFor, Processed, Violation.DifferenceTo;
    CompressedIsMinimal(Processed(cfg, v), PatternFor(cfg, v));
  }
}
