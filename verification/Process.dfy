/** doop-analyzer's processing of one constraint: rewriting the violations by rules and
    compressing them into groups of instances with a common pattern. */
module Process {
  import opened Doop
  import opened Regroup
  import opened Rules

  datatype Configuration = Configuration(processingRules: seq<Rule>, mergingRules: seq<Rule>)

  // ----- on values -----

  function Processed(cfg: Configuration, v: Violation): Violation {
    ExecuteRules(cfg.processingRules, v)
  }

  function PatternFor(cfg: Configuration, v: Violation): Violation {
    ExecuteRules(cfg.mergingRules, Processed(cfg, v))
  }

  function Compressed(cfg: Configuration, v: Violation): Violation {
    Processed(cfg, v).DifferenceTo(PatternFor(cfg, v))
  }

  /** The group that a violation by itself would form within a constraint. */
  function Single(cfg: Configuration, kind: string, name: string, metadata: Metadata, v: Violation): Placed {
    Placed(Address(kind, name, metadata.Cleared(), PatternFor(cfg, v)), [Compressed(cfg, v)])
  }

  function Singles(cfg: Configuration, kind: string, name: string, metadata: Metadata, vs: seq<Violation>): (r: seq<Placed>)
    ensures |r| == |vs|
  {
    seq(|vs|, i requires 0 <= i < |vs| => Single(cfg, kind, name, metadata, vs[i]))
  }

  /** The identity part of compression is always invertible, because merging rules keep the keys. */
  lemma IdentityIsNeverFilled(cfg: Configuration, v: Violation)
    ensures Processed(cfg, v).objectIdentity == map[] <==> PatternFor(cfg, v).objectIdentity == map[]
  {
    RulesKeepShape(cfg.mergingRules, Processed(cfg, v));
    var a, b := Processed(cfg, v).objectIdentity, PatternFor(cfg, v).objectIdentity;
    assert a == map[] <==> a.Keys == {};
    assert b == map[] <==> b.Keys == {};
  }

  // ----- in memory -----

  datatype ProcessedGroup = ProcessedGroup(pattern: StoredViolation, instances: seq<StoredViolation>)

  class ConstraintInProcess {
    const name: string
    const metadata: Metadata
    var violations: seq<StoredViolation>
    var groups: seq<ProcessedGroup>

    constructor (name: string, metadata: Metadata, violations: seq<StoredViolation>)
      ensures this.name == name && this.metadata == metadata
      ensures this.violations == violations && groups == []
    {
      this.name, this.metadata, this.violations := name, metadata, violations;
      groups := [];
    }
  }

  ghost function Maps(vs: seq<StoredViolation>): set<StringMap?> {
    set i | 0 <= i < |vs| :: vs[i].objectIdentity
  }

  ghost function OwnMaps(g: ProcessedGroup): set<StringMap?> {
    {g.pattern.objectIdentity} + Maps(g.instances)
  }

  ghost function GroupMaps(gs: seq<ProcessedGroup>): set<StringMap?> {
    set i, o | 0 <= i < |gs| && o in OwnMaps(gs[i]) :: o
  }

  ghost function LoadedAll(vs: seq<StoredViolation>): (r: seq<Violation>)
    reads Maps(vs)
    ensures |r| == |vs|
    ensures forall i :: 0 <= i < |vs| ==> r[i] == Loaded(vs[i])
  {
    seq(|vs|, i requires 0 <= i < |vs| reads Maps(vs) => Loaded(vs[i]))
  }

  ghost function LoadedGroup(g: ProcessedGroup): Group
    reads OwnMaps(g)
  {
    ViolationGroup(Loaded(g.pattern), LoadedAll(g.instances))
  }

  ghost function LoadedGroups(gs: seq<ProcessedGroup>): (r: seq<Group>)
    reads GroupMaps(gs)
    ensures |r| == |gs|
    ensures forall i :: 0 <= i < |gs| ==> r[i] == LoadedGroup(gs[i])
  {
    seq(|gs|, i requires 0 <= i < |gs| reads GroupMaps(gs) => LoadedGroup(gs[i]))
  }

  function StoredDifference(v: StoredViolation, pattern: StoredViolation): (r: StoredViolation)
    reads v.objectIdentity, pattern.objectIdentity
    ensures Loaded(r) == Loaded(v).DifferenceTo(Loaded(pattern))
    ensures r.objectIdentity == null || r.objectIdentity == v.objectIdentity
  {
    StoredViolation(
      if v.kind == pattern.kind then "" else v.kind,
      if v.name == pattern.name then "" else v.name,
      if v.namespace == pattern.namespace then "" else v.namespace,
      if v.message == pattern.message then "" else v.message,
      if IdentityOf(v.objectIdentity) == IdentityOf(pattern.objectIdentity) then null else v.objectIdentity,
      if v.clusterName == pattern.clusterName then "" else v.clusterName)
  }

  /** Processing rules run first, merging rules on what they leave, and the instance is the
      difference between the two results. */
  ghost predicate IsRewritten(cfg: Configuration, v: Violation, pattern: Violation, instance: Violation) {
    var processed := ExecuteRules(cfg.processingRules, v);
    pattern == ExecuteRules(cfg.mergingRules, processed) && instance == processed.DifferenceTo(pattern)
  }

  /** Rewrites one violation where it is and derives its pattern on a clone. */
  method ProcessViolation(v: StoredViolation, cfg: Configuration) returns (pattern: StoredViolation, instance: StoredViolation)
    modifies v.objectIdentity
    ensures pattern.objectIdentity == null || fresh(pattern.objectIdentity)
    ensures instance.objectIdentity == null || instance.objectIdentity == v.objectIdentity
    ensures Loaded(pattern) == PatternFor(cfg, old(Loaded(v)))
    ensures Loaded(instance) == Compressed(cfg, old(Loaded(v)))
    ensures IsRewritten(cfg, old(Loaded(v)), Loaded(pattern), Loaded(instance))
  {
    hide ExecuteRules, Violation.DifferenceTo;
    var processed := ExecuteRulesOnViolation(cfg.processingRules, v);
    pattern := Cloned(processed);
    pattern := ExecuteRulesOnViolation(cfg.mergingRules, pattern);
    instance := StoredDifference(processed, pattern);
  }

  method FindPattern(gs: seq<ProcessedGroup>, pattern: StoredViolation) returns (idx: nat)
    ensures idx == FindGroup(LoadedGroups(gs), Loaded(pattern))
  {
    ghost var view := LoadedGroups(gs);
    for i := 0 to |gs|
      invariant forall j :: 0 <= j < i ==> view[j].pattern != Loaded(pattern)
    {
      if Loaded(pattern).IsEqualTo(Loaded(gs[i].pattern)) {
        GroupFoundAt(view, Loaded(pattern), i);
        return i;
      }
    }
    return |gs|;
  }

  method AddInstance(gs: seq<ProcessedGroup>, idx: nat, instance: StoredViolation) returns (r: seq<ProcessedGroup>)
    requires idx < |gs|
    ensures GroupMaps(r) <= GroupMaps(gs) + {instance.objectIdentity}
    ensures
      var view := LoadedGroups(gs);
      LoadedGroups(r) == view[idx := ViolationGroup(view[idx].pattern, view[idx].instances + [Loaded(instance)])]
  {
    var other := gs[idx];
    var g := ProcessedGroup(other.pattern, other.instances + [instance]);
    assert OwnMaps(g) <= OwnMaps(other) + {instance.objectIdentity};
    assert OwnMaps(other) <= GroupMaps(gs);
    assert LoadedAll(g.instances) == LoadedAll(other.instances) + [Loaded(instance)];
    r := gs[idx := g];
  }

  method AddGroup(gs: seq<ProcessedGroup>, pattern: StoredViolation, instance: StoredViolation) returns (r: seq<ProcessedGroup>)
    ensures GroupMaps(r) <= GroupMaps(gs) + {pattern.objectIdentity, instance.objectIdentity}
    ensures LoadedGroups(r) == LoadedGroups(gs) + [ViolationGroup(Loaded(pattern), [Loaded(instance)])]
  {
    var g := ProcessedGroup(pattern, [instance]);
    assert LoadedAll(g.instances) == [Loaded(instance)];
    assert OwnMaps(g) <= {pattern.objectIdentity, instance.objectIdentity};
    r := gs + [g];
  }

  lemma MapsAllocated(gs: seq<ProcessedGroup>)
    ensures forall o :: o in GroupMaps(gs) ==> allocated(o)
  {
  }

  method AddToGroups(gs: seq<ProcessedGroup>, pattern: StoredViolation, instance: StoredViolation, ghost p: Placed)
    returns (r: seq<ProcessedGroup>)
    requires p.at.pattern == Loaded(pattern) && p.instances == [Loaded(instance)]
    ensures GroupMaps(r) <= GroupMaps(gs) + {pattern.objectIdentity, instance.objectIdentity}
    ensures LoadedGroups(r) == PutGroup(LoadedGroups(gs), p)
  {
    hide LoadedGroup, LoadedGroups, GroupMaps;
    ghost var view := LoadedGroups(gs);
    MapsAllocated(gs);
    var idx := FindPattern(gs, pattern);
    assert LoadedGroups(gs) == view;
    MapsAllocated(gs);
    if idx < |gs| {
      r := AddInstance(gs, idx, instance);
    } else {
      r := AddGroup(gs, pattern, instance);
    }
  }

  ghost predicate SeparateMaps(vs: seq<StoredViolation>) {
    forall i, j :: 0 <= i < j < |vs| && vs[i].objectIdentity != null ==> vs[i].objectIdentity != vs[j].objectIdentity
  }

  /** Gathered violations have identity maps of their own. The template kind only names
      the place of the groups. */
  method ProcessReportForConstraint(rc: ConstraintInProcess, cfg: Configuration, ghost kind: string)
    returns (panicked: bool)
    requires SeparateMaps(rc.violations)
    modifies rc, Maps(rc.violations)
    ensures panicked <==> old(rc.groups) != []
    ensures panicked ==> unchanged(rc) && forall o :: o in old(Maps(rc.violations)) && o != null ==> unchanged(o)
    ensures !panicked ==> rc.violations == []
    ensures !panicked ==>
      LoadedGroups(rc.groups) == PutAllGroups([], Singles(cfg, kind, rc.name, rc.metadata, old(LoadedAll(rc.violations))))
    ensures forall o :: o in GroupMaps(rc.groups) && o != null ==> o in old(Maps(rc.violations) + GroupMaps(rc.groups)) || fresh(o)
  {
    hide PutAllGroups, PatternFor, Compressed;
    if |rc.groups| != 0 {
      return true;
    }
    panicked := false;
    var gs := ProcessViolations(rc.violations, cfg, Singles(cfg, kind, rc.name, rc.metadata, LoadedAll(rc.violations)));
    assert forall o :: o in GroupMaps(gs) ==> (o as object?) != rc;
    rc.groups := gs;
    rc.violations := [];
  }

  method ProcessViolations(vs: seq<StoredViolation>, cfg: Configuration, ghost singles: seq<Placed>)
    returns (gs: seq<ProcessedGroup>)
    requires SeparateMaps(vs) && |singles| == |vs|
    requires forall i :: 0 <= i < |vs| ==> SingleOf(cfg, Loaded(vs[i]), singles[i])
    modifies Maps(vs)
    ensures LoadedGroups(gs) == PutAllGroups([], singles)
    ensures forall o :: o in GroupMaps(gs) && o != null ==> o in Maps(vs) || fresh(o)
  {
    hide PutAllGroups, PutGroup, PatternFor, Compressed, Loaded, LoadedGroup, IsRewritten;
    ghost var before := LoadedAll(vs);
    gs := [];
    assert PutAllGroups([], singles[..0]) == [] by { NothingPut(); }
    for i := 0 to |vs|
      invariant forall j :: i <= j < |vs| ==> Loaded(vs[j]) == before[j]
      invariant forall j :: i <= j < |vs| && vs[j].objectIdentity != null ==> vs[j].objectIdentity !in GroupMaps(gs)
      invariant forall o :: o in GroupMaps(gs) && o != null ==> o in Maps(vs) || fresh(o)
      invariant LoadedGroups(gs) == PutAllGroups([], singles[..i])
    {
      ghost var soFar, owned := LoadedGroups(gs), GroupMaps(gs);
      var pattern, instance := ProcessViolation(vs[i], cfg);
      assert LoadedGroups(gs) == soFar;
      gs := AddToGroups(gs, pattern, instance, singles[i]);
      PutOneMore(singles, i);
    }
    assert singles[..|vs|] == singles;
  }

  ghost predicate SingleOf(cfg: Configuration, v: Violation, p: Placed) {
    p.at.pattern == PatternFor(cfg, v) && p.instances == [Compressed(cfg, v)]
  }

  lemma NothingPut()
    ensures PutAllGroups([], []) == []
  {
  }

  lemma PutOneMore(ps: seq<Placed>, i: nat)
    requires i < |ps|
    ensures PutAllGroups([], ps[..i + 1]) == PutGroup(PutAllGroups([], ps[..i]), ps[i])
  {
    assert ps[..i + 1] == ps[..i] + [ps[i]] && [ps[i]][1..] == [];
    FoldAppend(PutGroup, [], ps[..i], [ps[i]]);
  }

  /** Merging rules see the processed violation: the pattern is the one that they alone give
      to the violation as processing leaves it. */
  lemma MergingFollowsProcessing(cfg: Configuration, v: Violation)
    ensures PatternFor(cfg, v) == PatternFor(Configuration([], cfg.mergingRules), Processed(cfg, v))
    ensures PatternFor(Configuration(cfg.processingRules, []), v) == Processed(cfg, v)
  {
    NoRules(Processed(cfg, v));
    NoRules(ExecuteRules(cfg.mergingRules, Processed(cfg, v)));
  }

  lemma NoRules(v: Violation)
    ensures ExecuteRules([], v) == v
  {
    hide Encode, Decode;
    DecodeEncode(v);
    assert ApplyAll([], Encode(v)) == Encode(v);
  }
}
