/** The counting half of countViolationsForConstraint: nested maps, incremented in loops
    over groups and instances. */
module Tallies {
  import opened Text
  import opened Doop
  import opened Regroup
  import opened Metrics

  type Tally2 = map<string, map<string, nat>>
  type Tally3 = map<string, map<string, map<string, nat>>>

  function Get2(m: Tally2, s: string, o: string): nat {
    if s in m && o in m[s] then m[s][o] else 0
  }

  function Get3(m: Tally3, s: string, o: string, c: string): nat {
    if s in m && o in m[s] && c in m[s][o] then m[s][o][c] else 0
  }

  ghost predicate Tallies2(m: Tally2, kind: string, name: string, totals: multiset<GroupKey>) {
    && (forall s, o :: Get2(m, s, o) == totals[GroupKey(kind, name, s, o)])
    && (forall s, o :: s in m && o in m[s] ==> m[s][o] > 0)
  }

  ghost predicate Tallies3(m: Tally3, kind: string, name: string, totals: multiset<InstanceKey>) {
    && (forall s, o, c :: Get3(m, s, o, c) == totals[InstanceKey(c, GroupKey(kind, name, s, o))])
    && (forall s, o, c :: s in m && o in m[s] && c in m[s][o] ==> m[s][o][c] > 0)
  }

  function Increment2(m: Tally2, s: string, o: string): Tally2 {
    var inner := if s in m then m[s] else map[];
    m[s := inner[o := (if o in inner then inner[o] else 0) + 1]]
  }

  /** The innermost map exists from now on, even if nothing is counted in it. */
  function Touch3(m: Tally3, s: string, o: string): Tally3 {
    var inner := if s in m then m[s] else map[];
    m[s := inner[o := if o in inner then inner[o] else map[]]]
  }

  function Increment3(m: Tally3, s: string, o: string, c: string): Tally3
    requires s in m && o in m[s]
  {
    var counts := m[s][o];
    m[s := m[s][o := counts[c := (if c in counts then counts[c] else 0) + 1]]]
  }

  lemma Incremented2(m: Tally2, kind: string, name: string, totals: multiset<GroupKey>, s: string, o: string)
    requires Tallies2(m, kind, name, totals)
    ensures Tallies2(Increment2(m, s, o), kind, name, totals + multiset{GroupKey(kind, name, s, o)})
  {
    var after := Increment2(m, s, o);
    forall s', o'
      ensures Get2(after, s', o') == Get2(m, s', o') + if s' == s && o' == o then 1 else 0
    {
    }
  }

  lemma Touched3(m: Tally3, kind: string, name: string, totals: multiset<InstanceKey>, s: string, o: string)
    requires Tallies3(m, kind, name, totals)
    ensures Tallies3(Touch3(m, s, o), kind, name, totals)
  {
    var after := Touch3(m, s, o);
    forall s', o', c
      ensures Get3(after, s', o', c) == Get3(m, s', o', c)
    {
    }
  }

  lemma Incremented3(m: Tally3, kind: string, name: string, totals: multiset<InstanceKey>, s: string, o: string, c: string)
    requires Tallies3(m, kind, name, totals) && s in m && o in m[s]
    ensures Tallies3(Increment3(m, s, o, c), kind, name, totals + multiset{InstanceKey(c, GroupKey(kind, name, s, o))})
  {
    var after := Increment3(m, s, o, c);
    forall s', o', c'
      ensures Get3(after, s', o', c') == Get3(m, s', o', c') + if s' == s && o' == o && c' == c then 1 else 0
    {
    }
  }

  lemma OneMoreGroup(oidKeys: seq<string>, ps: seq<Placed>, i: nat)
    requires i < |ps|
    ensures GroupTotals(oidKeys, ps[..i + 1]) == GroupTotals(oidKeys, ps[..i]) + multiset{KeyOf(oidKeys, ps[i].at)}
    ensures InstanceTotals(oidKeys, ps[..i + 1])
      == InstanceTotals(oidKeys, ps[..i]) + InstancesUnder(KeyOf(oidKeys, ps[i].at), ps[i].instances)
  {
    hide KeyOf, InstancesUnder;
    assert ps[..i + 1] == ps[..i] + [ps[i]] && [ps[i]][1..] == [];
    TotalsAppend(oidKeys, ps[..i], [ps[i]]);
  }

  lemma OneMoreInstance(k: GroupKey, vs: seq<Violation>, i: nat)
    requires i < |vs|
    ensures InstancesUnder(k, vs[..i + 1]) == InstancesUnder(k, vs[..i]) + multiset{InstanceKey(vs[i].clusterName, k)}
  {
    assert vs[..i + 1] == vs[..i] + [vs[i]] && [vs[i]][1..] == [];
    InstancesUnderAppend(k, vs[..i], [vs[i]]);
  }

  /** The loop over the instances of one group. */
  method TallyInstances(m: Tally3, vs: seq<Violation>, k: GroupKey, ghost totals: multiset<InstanceKey>) returns (r: Tally3)
    requires Tallies3(m, k.kind, k.name, totals)
    ensures Tallies3(r, k.kind, k.name, totals + InstancesUnder(k, vs))
  {
    assert totals + InstancesUnder(k, vs[..0]) == totals;
    hide Tallies3, Touch3, Increment3, InstancesUnder;
    Touched3(m, k.kind, k.name, totals, k.severity, k.oid);
    r := Touch3(m, k.severity, k.oid);
    for i := 0 to |vs|
      invariant k.severity in r && k.oid in r[k.severity]
      invariant Tallies3(r, k.kind, k.name, totals + InstancesUnder(k, vs[..i]))
    {
      var c := vs[i].clusterName;
      Incremented3(r, k.kind, k.name, totals + InstancesUnder(k, vs[..i]), k.severity, k.oid, c);
      r := Increment3(r, k.severity, k.oid, c);
      OneMoreInstance(k, vs, i);
      assert totals + InstancesUnder(k, vs[..i]) + multiset{InstanceKey(c, k)} == totals + InstancesUnder(k, vs[..i + 1]);
    }
    assert vs[..|vs|] == vs;
  }

  method CollectOidValues(oidKeys: seq<string>, pattern: Violation) returns (r: seq<string>)
    ensures r == OidValues(oidKeys, pattern)
  {
    r := [];
    for idx := 0 to |oidKeys|
      invariant |r| == idx && forall i :: 0 <= i < idx ==> r[i] == At(pattern.objectIdentity, oidKeys[i])
    {
      r := r + [At(pattern.objectIdentity, oidKeys[idx])];
    }
  }

  lemma KeyAt(oidKeys: seq<string>, kind: string, rc: Constraint, i: nat)
    requires i < |rc.groups|
    ensures
      var ps := FlatConstraint(kind, rc);
      && |ps| == |rc.groups| && ps[i].instances == rc.groups[i].instances
      && KeyOf(oidKeys, ps[i].at)
        == GroupKey(kind, rc.name, rc.metadata.severity, Join(OidValues(oidKeys, rc.groups[i].pattern), NUL))
  {
  }

  lemma OneMoreOnTop(oidKeys: seq<string>, ps: seq<Placed>, i: nat, groups: multiset<GroupKey>, instances: multiset<InstanceKey>)
    requires i < |ps|
    ensures groups + GroupTotals(oidKeys, ps[..i + 1])
      == groups + GroupTotals(oidKeys, ps[..i]) + multiset{KeyOf(oidKeys, ps[i].at)}
    ensures instances + InstanceTotals(oidKeys, ps[..i + 1])
      == instances + InstanceTotals(oidKeys, ps[..i]) + InstancesUnder(KeyOf(oidKeys, ps[i].at), ps[i].instances)
  {
    hide GroupTotals, InstanceTotals, KeyOf, InstancesUnder;
    OneMoreGroup(oidKeys, ps, i);
  }

  /** One iteration of the loop over the groups of a constraint. */
  method TallyGroup(oidKeys: seq<string>, kind: string, name: string, severity: string, vg: Group,
      grouped0: Tally2, raw0: Tally3, ghost groups: multiset<GroupKey>, ghost instances: multiset<InstanceKey>)
    returns (grouped: Tally2, raw: Tally3, ghost k: GroupKey)
    requires Tallies2(grouped0, kind, name, groups) && Tallies3(raw0, kind, name, instances)
    ensures k == GroupKey(kind, name, severity, Join(OidValues(oidKeys, vg.pattern), NUL))
    ensures Tallies2(grouped, kind, name, groups + multiset{k})
    ensures Tallies3(raw, kind, name, instances + InstancesUnder(k, vg.instances))
  {
    hide Tallies2, Tallies3, Increment2, InstancesUnder, Join;
    var oidValues := CollectOidValues(oidKeys, vg.pattern);
    var oidValuesStr := Join(oidValues, NUL);
    k := GroupKey(kind, name, severity, oidValuesStr);
    Incremented2(grouped0, kind, name, groups, severity, oidValuesStr);
    grouped := Increment2(grouped0, severity, oidValuesStr);
    raw := TallyInstances(raw0, vg.instances, GroupKey(kind, name, severity, oidValuesStr), instances);
  }

  /** The loop over the groups of one constraint. */
  method TallyConstraint(oidKeys: seq<string>, kind: string, rc: Constraint, grouped0: Tally2, raw0: Tally3,
      ghost groups: multiset<GroupKey>, ghost instances: multiset<InstanceKey>)
    returns (grouped: Tally2, raw: Tally3)
    requires Tallies2(grouped0, kind, rc.name, groups) && Tallies3(raw0, kind, rc.name, instances)
    ensures Tallies2(grouped, kind, rc.name, groups + GroupTotals(oidKeys, FlatConstraint(kind, rc)))
    ensures Tallies3(raw, kind, rc.name, instances + InstanceTotals(oidKeys, FlatConstraint(kind, rc)))
  {
    ghost var ps := FlatConstraint(kind, rc);
    assert |ps| == |rc.groups|;
    grouped, raw := grouped0, raw0;
    assert groups + GroupTotals(oidKeys, ps[..0]) == groups;
    assert instances + InstanceTotals(oidKeys, ps[..0]) == instances;
    hide Tallies2, Tallies3, InstancesUnder, GroupTotals, InstanceTotals, KeyOf, Join, FlatConstraint;
    for i := 0 to |rc.groups|
      invariant Tallies2(grouped, kind, rc.name, groups + GroupTotals(oidKeys, ps[..i]))
      invariant Tallies3(raw, kind, rc.name, instances + InstanceTotals(oidKeys, ps[..i]))
    {
      ghost var k;
      grouped, raw, k := TallyGroup(oidKeys, kind, rc.name, rc.metadata.severity, rc.groups[i], grouped, raw,
        groups + GroupTotals(oidKeys, ps[..i]), instances + InstanceTotals(oidKeys, ps[..i]));
      KeyAt(oidKeys, kind, rc, i);
      OneMoreOnTop(oidKeys, ps, i, groups, instances);
    }
    assert ps[..|rc.groups|] == ps;
  }

  lemma OneMoreConstraint(oidKeys: seq<string>, kind: string, cs: seq<Constraint>, i: nat)
    requires i < |cs|
    ensures GroupTotals(oidKeys, FlatConstraints(kind, cs[..i + 1]))
      == GroupTotals(oidKeys, FlatConstraints(kind, cs[..i])) + GroupTotals(oidKeys, FlatConstraint(kind, cs[i]))
    ensures InstanceTotals(oidKeys, FlatConstraints(kind, cs[..i + 1]))
      == InstanceTotals(oidKeys, FlatConstraints(kind, cs[..i])) + InstanceTotals(oidKeys, FlatConstraint(kind, cs[i]))
  {
    hide GroupTotals, InstanceTotals;
    assert cs[..i + 1] == cs[..i] + [cs[i]];
    FlatConstraintsAppend(kind, cs[..i], [cs[i]]);
    assert FlatConstraints(kind, [cs[i]]) == FlatConstraint(kind, cs[i]) by {
      assert [cs[i]][1..] == [];
    }
    TotalsAppend(oidKeys, FlatConstraints(kind, cs[..i]), FlatConstraint(kind, cs[i]));
  }

  /** Counts all groups and instances of the constraints that share one name. */
  method TallyConstraints(oidKeys: seq<string>, kind: string, name: string, rcs: seq<Constraint>)
    returns (grouped: Tally2, raw: Tally3)
    requires forall i :: 0 <= i < |rcs| ==> rcs[i].name == name
    ensures Tallies2(grouped, kind, name, GroupTotals(oidKeys, FlatConstraints(kind, rcs)))
    ensures Tallies3(raw, kind, name, InstanceTotals(oidKeys, FlatConstraints(kind, rcs)))
  {
    grouped, raw := map[], map[];
    assert Tallies2(grouped, kind, name, GroupTotals(oidKeys, FlatConstraints(kind, rcs[..0])));
    assert Tallies3(raw, kind, name, InstanceTotals(oidKeys, FlatConstraints(kind, rcs[..0])));
    hide Tallies2, Tallies3, GroupTotals, InstanceTotals, FlatConstraint, FlatConstraints;
    for i := 0 to |rcs|
      invariant Tallies2(grouped, kind, name, GroupTotals(oidKeys, FlatConstraints(kind, rcs[..i])))
      invariant Tallies3(raw, kind, name, InstanceTotals(oidKeys, FlatConstraints(kind, rcs[..i])))
    {
      OneMoreConstraint(oidKeys, kind, rcs, i);
      grouped, raw := TallyConstraint(oidKeys, kind, rcs[i], grouped, raw,
        GroupTotals(oidKeys, FlatConstraints(kind, rcs[..i])), InstanceTotals(oidKeys, FlatConstraints(kind, rcs[..i])));
    }
    assert rcs[..|rcs|] == rcs;
  }
}
