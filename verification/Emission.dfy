/** The emitting half of countViolationsForConstraint: one metric per counter. Map
    iteration is an arbitrary pick from the remaining keys. */
module Emission {
  import opened Text
  import opened Doop
  import opened Regroup
  import opened Metrics
  import opened Tallies

  /** Every counter selected by `now` has been emitted and no other was added. */
  ghost predicate Advanced<K(!new)>(before: multiset<K>, after: multiset<K>, totals: multiset<K>, now: K -> bool) {
    forall k :: after[k] == if now(k) then totals[k] else before[k]
  }

  ghost predicate NoneEmitted<K(!new)>(done: multiset<K>, now: K -> bool) {
    forall k :: k in done ==> !now(k)
  }

  /** Two advances in a row, seen as one. */
  lemma AdvanceFurther<K(!new)>(start: multiset<K>, before: multiset<K>, after: multiset<K>, totals: multiset<K>,
      was: K -> bool, now: K -> bool, next: K -> bool)
    requires Advanced(start, before, totals, was) && Advanced(before, after, totals, now)
    requires NoneEmitted(start, next)
    requires forall k :: was(k) || now(k) ==> next(k)
    requires forall k :: k in totals && next(k) ==> was(k) || now(k)
    ensures Advanced(start, after, totals, next)
  {
  }

  function Counted(counts: map<string, nat>, x: string): nat {
    if x in counts then counts[x] else 0
  }

  // ----- grouped metrics -----

  ghost function SeverityAmong(severities: set<string>): GroupKey -> bool {
    (k: GroupKey) => k.severity in severities
  }

  ghost function OidAmong(severity: string, oids: set<string>): GroupKey -> bool {
    (k: GroupKey) => k.severity == severity && k.oid in oids
  }

  ghost predicate OnlyOf(kind: string, name: string, totals: multiset<GroupKey>) {
    forall k :: k in totals ==> k.kind == kind && k.name == name
  }

  ghost predicate GroupedFit(oidKeys: seq<string>, totals: multiset<GroupKey>, now: GroupKey -> bool) {
    forall k :: k in totals && now(k) ==> Fits(oidKeys, k)
  }

  /** Progress within one severity: exactly the metrics of the identity values seen have been added. */
  ghost predicate OidProgress(ms: seq<Metric>, keys: seq<GroupKey>, done: multiset<GroupKey>,
      start: multiset<GroupKey>, totals: multiset<GroupKey>, severity: string, seen: set<string>)
  {
    && Emits(ms, keys, GroupedLabels, done)
    && NoneEmitted(start, SeverityAmong({severity}))
    && Advanced(start, done, totals, OidAmong(severity, seen))
  }

  lemma NextGroupedOid(ms: seq<Metric>, keys: seq<GroupKey>, done: multiset<GroupKey>, start: multiset<GroupKey>,
      totals: multiset<GroupKey>, k: GroupKey, seen: set<string>)
    requires OidProgress(ms, keys, done, start, totals, k.severity, seen) && OnlyOf(k.kind, k.name, totals)
    requires k.oid !in seen && k in totals
    ensures OidProgress(ms + [Metric(GroupedLabels(k), totals[k])], keys + [k], done[k := totals[k]], start, totals, k.severity, seen + {k.oid})
  {
    hide Emits, GroupedLabels;
    assert SeverityAmong({k.severity})(k) && done[k] == start[k];
    EmitsOneMore(ms, keys, done, GroupedLabels, k, totals[k]);
    forall x: GroupKey | x.severity == k.severity && x.oid == k.oid && x != k
      ensures totals[x] == 0 && start[x] == 0
    {
      assert SeverityAmong({k.severity})(x);
    }
  }

  /** Nothing is counted under an identity value without a counter. */
  lemma AllGroupedOids(oidKeys: seq<string>, kind: string, name: string, severity: string, subcounts: map<string, nat>,
      totals: multiset<GroupKey>, start: multiset<GroupKey>, after: multiset<GroupKey>)
    requires OnlyOf(kind, name, totals) && NoneEmitted(start, SeverityAmong({severity}))
    requires forall o :: Counted(subcounts, o) == totals[GroupKey(kind, name, severity, o)]
    requires Advanced(start, after, totals, OidAmong(severity, subcounts.Keys))
    requires forall o :: o in subcounts ==> Fits(oidKeys, GroupKey(kind, name, severity, o))
    ensures Advanced(start, after, totals, SeverityAmong({severity})) && GroupedFit(oidKeys, totals, SeverityAmong({severity}))
  {
    hide Fits;
    forall x: GroupKey | x.severity == severity
      ensures start[x] == 0 && (x in totals ==> x.oid in subcounts && x == GroupKey(kind, name, severity, x.oid))
    {
      assert SeverityAmong({severity})(x);
      if x in totals {
        assert Counted(subcounts, x.oid) == totals[GroupKey(kind, name, severity, x.oid)];
      }
    }
  }

  lemma GroupedLabelCount(oidKeys: seq<string>, k: GroupKey, labels: seq<string>)
    requires labels == [k.kind, k.name, k.severity] + Split(k.oid, NUL)
    ensures labels == GroupedLabels(k) && (|labels| == 3 + |oidKeys| <==> Fits(oidKeys, k))
  {
  }

  lemma OidProgressStart(ms: seq<Metric>, keys: seq<GroupKey>, done: multiset<GroupKey>, totals: multiset<GroupKey>, severity: string)
    requires Emits(ms, keys, GroupedLabels, done) && NoneEmitted(done, SeverityAmong({severity}))
    ensures OidProgress(ms, keys, done, done, totals, severity, {})
  {
  }

  lemma OidProgressDone(ms: seq<Metric>, keys: seq<GroupKey>, done: multiset<GroupKey>, start: multiset<GroupKey>,
      totals: multiset<GroupKey>, severity: string, seen: set<string>)
    requires OidProgress(ms, keys, done, start, totals, severity, seen)
    ensures Emits(ms, keys, GroupedLabels, done) && Advanced(start, done, totals, OidAmong(severity, seen))
  {
  }

  lemma CountedGroup(subcounts: map<string, nat>, kind: string, name: string, severity: string, totals: multiset<GroupKey>, o: string)
    requires forall o :: Counted(subcounts, o) == totals[GroupKey(kind, name, severity, o)]
    requires o in subcounts && subcounts[o] > 0
    ensures GroupKey(kind, name, severity, o) in totals && totals[GroupKey(kind, name, severity, o)] == subcounts[o]
  {
    assert Counted(subcounts, o) == subcounts[o];
  }

  lemma UnfitGroupedOid(oidKeys: seq<string>, totals: multiset<GroupKey>, k: GroupKey)
    requires k in totals && !Fits(oidKeys, k)
    ensures !GroupedFit(oidKeys, totals, SeverityAmong({k.severity}))
  {
    assert SeverityAmong({k.severity})(k);
  }

  /** The inner loop for one severity. */
  method EmitOids(oidKeys: seq<string>, kind: string, name: string, severity: string, subcounts: map<string, nat>,
      ms0: seq<Metric>, ghost keys0: seq<GroupKey>, ghost done0: multiset<GroupKey>, ghost totals: multiset<GroupKey>)
    returns (ms: seq<Metric>, ghost keys: seq<GroupKey>, ghost done: multiset<GroupKey>, panicked: bool)
    requires OnlyOf(kind, name, totals)
    requires Emits(ms0, keys0, GroupedLabels, done0) && NoneEmitted(done0, SeverityAmong({severity}))
    requires forall o :: Counted(subcounts, o) == totals[GroupKey(kind, name, severity, o)]
    requires forall o :: o in subcounts ==> subcounts[o] > 0
    ensures panicked <==> !GroupedFit(oidKeys, totals, SeverityAmong({severity}))
    ensures !panicked ==> Emits(ms, keys, GroupedLabels, done)
    ensures !panicked ==> Advanced(done0, done, totals, SeverityAmong({severity}))
  {
    hide OidProgress, Counted, OnlyOf, Emits, GroupedLabels, Fits, GroupedFit, Advanced, NoneEmitted, Split;
    ms, keys, done := ms0, keys0, done0;
    var todo := subcounts.Keys;
    ghost var seen: set<string> := {};
    OidProgressStart(ms, keys, done, totals, severity);
    while todo != {}
      invariant todo <= subcounts.Keys && forall x :: x in seen <==> x in subcounts && x !in todo
      invariant forall o :: o in seen ==> Fits(oidKeys, GroupKey(kind, name, severity, o))
      invariant OidProgress(ms, keys, done, done0, totals, severity, seen)
      decreases |todo|
    {
      var oid :| oid in todo;
      var labels := [kind, name, severity];
      labels := labels + Split(oid, NUL);
      ghost var k := GroupKey(kind, name, severity, oid);
      GroupedLabelCount(oidKeys, k, labels);
      CountedGroup(subcounts, kind, name, severity, totals, oid);
      if |labels| != 3 + |oidKeys| {
        UnfitGroupedOid(oidKeys, totals, k);
        panicked := true;
        return;
      }
      NextGroupedOid(ms, keys, done, done0, totals, k, seen);
      ms, keys, done := ms + [Metric(labels, subcounts[oid])], keys + [k], done[k := totals[k]];
      todo, seen := todo - {oid}, seen + {oid};
    }
    panicked := false;
    assert seen == subcounts.Keys;
    OidProgressDone(ms, keys, done, done0, totals, severity, seen);
    AllGroupedOids(oidKeys, kind, name, severity, subcounts, totals, done0, done);
  }

  lemma NextGroupedSeverity(oidKeys: seq<string>, totals: multiset<GroupKey>,
      before: multiset<GroupKey>, after: multiset<GroupKey>, severities: set<string>, severity: string)
    requires Advanced(multiset{}, before, totals, SeverityAmong(severities))
    requires Advanced(before, after, totals, SeverityAmong({severity}))
    requires GroupedFit(oidKeys, totals, SeverityAmong(severities))
    requires GroupedFit(oidKeys, totals, SeverityAmong({severity}))
    ensures Advanced(multiset{}, after, totals, SeverityAmong(severities + {severity}))
    ensures GroupedFit(oidKeys, totals, SeverityAmong(severities + {severity}))
  {
    hide Advanced, Fits;
    var was, now, next := SeverityAmong(severities), SeverityAmong({severity}), SeverityAmong(severities + {severity});
    AdvanceFurther(multiset{}, before, after, totals, was, now, next);
    forall k | k in totals && next(k)
      ensures Fits(oidKeys, k)
    {
      assert was(k) || now(k);
    }
  }

  lemma AllGroupedSeverities(oidKeys: seq<string>, kind: string, name: string, counts: Tally2,
      totals: multiset<GroupKey>, after: multiset<GroupKey>)
    requires OnlyOf(kind, name, totals) && Tallies2(counts, kind, name, totals)
    requires Advanced(multiset{}, after, totals, SeverityAmong(counts.Keys))
    requires GroupedFit(oidKeys, totals, SeverityAmong(counts.Keys))
    ensures after == totals && AllFit(oidKeys, totals)
  {
    hide Fits;
    forall k | k in totals
      ensures k.severity in counts
    {
      assert Get2(counts, k.severity, k.oid) == totals[GroupKey(kind, name, k.severity, k.oid)];
    }
    forall k
      ensures after[k] == totals[k]
    {
      assert SeverityAmong(counts.Keys)(k) || k !in totals;
    }
  }

  lemma TalliedGroups(m: Tally2, kind: string, name: string, totals: multiset<GroupKey>, s: string)
    requires Tallies2(m, kind, name, totals) && s in m
    ensures forall o :: Counted(m[s], o) == totals[GroupKey(kind, name, s, o)]
    ensures forall o :: o in m[s] ==> m[s][o] > 0
  {
    forall o
      ensures Counted(m[s], o) == totals[GroupKey(kind, name, s, o)]
    {
      assert Get2(m, s, o) == totals[GroupKey(kind, name, s, o)];
    }
  }

  lemma SeverityNotYet(totals: multiset<GroupKey>, done: multiset<GroupKey>, severities: set<string>, severity: string)
    requires Advanced(multiset{}, done, totals, SeverityAmong(severities)) && severity !in severities
    ensures NoneEmitted(done, SeverityAmong({severity}))
  {
  }

  lemma NothingGrouped(oidKeys: seq<string>, totals: multiset<GroupKey>)
    ensures Advanced(multiset{}, multiset{}, totals, SeverityAmong({})) && GroupedFit(oidKeys, totals, SeverityAmong({}))
  {
  }

  method EmitGrouped(oidKeys: seq<string>, kind: string, name: string, counts: Tally2, ghost totals: multiset<GroupKey>)
    returns (ms: seq<Metric>, ghost keys: seq<GroupKey>, panicked: bool)
    requires Tallies2(counts, kind, name, totals) && OnlyOf(kind, name, totals)
    ensures panicked <==> !AllFit(oidKeys, totals)
    ensures !panicked ==> Emits(ms, keys, GroupedLabels, totals)
  {
    EmitsNothing(GroupedLabels);
    NothingGrouped(oidKeys, totals);
    hide Emits, Fits, Advanced, Tallies2;
    ghost var done;
    ms, keys, done := [], [], multiset{};
    var todo := counts.Keys;
    ghost var seen: set<string> := {};
    while todo != {}
      invariant todo <= counts.Keys && forall x :: x in seen <==> x in counts && x !in todo
      invariant GroupedFit(oidKeys, totals, SeverityAmong(seen))
      invariant Emits(ms, keys, GroupedLabels, done)
      invariant Advanced(multiset{}, done, totals, SeverityAmong(seen))
      decreases |todo|
    {
      var severity :| severity in todo;
      TalliedGroups(counts, kind, name, totals, severity);
      SeverityNotYet(totals, done, seen, severity);
      ghost var before := done;
      ms, keys, done, panicked := EmitOids(oidKeys, kind, name, severity, counts[severity], ms, keys, done, totals);
      if panicked {
        return;
      }
      NextGroupedSeverity(oidKeys, totals, before, done, seen, severity);
      todo, seen := todo - {severity}, seen + {severity};
    }
    panicked := false;
    assert seen == counts.Keys;
    AllGroupedSeverities(oidKeys, kind, name, counts, totals, done);
  }

  // ----- raw metrics -----

  ghost function GroupIs(g: GroupKey): InstanceKey -> bool {
    (k: InstanceKey) => k.group == g
  }

  ghost function ClusterAmong(g: GroupKey, clusters: set<string>): InstanceKey -> bool {
    (k: InstanceKey) => k.group == g && k.cluster in clusters
  }

  ghost function RawOidAmong(severity: string, oids: set<string>): InstanceKey -> bool {
    (k: InstanceKey) => k.group.severity == severity && k.group.oid in oids
  }

  ghost function RawSeverityAmong(severities: set<string>): InstanceKey -> bool {
    (k: InstanceKey) => k.group.severity in severities
  }

  ghost predicate RawOnlyOf(kind: string, name: string, totals: multiset<InstanceKey>) {
    forall k :: k in totals ==> k.group.kind == kind && k.group.name == name
  }

  ghost predicate RawFit(oidKeys: seq<string>, totals: multiset<InstanceKey>, now: InstanceKey -> bool) {
    forall k :: k in totals && now(k) ==> Fits(oidKeys, k.group)
  }

  /** The labels of one group, except that the first one is still to be written. */
  ghost predicate LabelsFor(g: GroupKey, oidKeys: seq<string>, labels: seq<string>) {
    && |labels| >= 1
    && (forall c :: labels[0 := c] == RawLabels(InstanceKey(c, g)))
    && (|labels| == 4 + |oidKeys| <==> Fits(oidKeys, g))
  }

  lemma LabelsOf(g: GroupKey, oidKeys: seq<string>, labels: seq<string>)
    requires labels == ["", g.kind, g.name, g.severity] + Split(g.oid, NUL)
    ensures LabelsFor(g, oidKeys, labels)
  {
  }

  lemma OverwrittenLabels(g: GroupKey, oidKeys: seq<string>, labels: seq<string>, c: string)
    requires LabelsFor(g, oidKeys, labels)
    ensures |labels| >= 1 && labels[0 := c] == RawLabels(InstanceKey(c, g))
    ensures LabelsFor(g, oidKeys, labels[0 := c])
    ensures |labels[0 := c]| == 4 + |oidKeys| <==> Fits(oidKeys, g)
  {
    forall d
      ensures labels[0 := c][0 := d] == RawLabels(InstanceKey(d, g))
    {
      assert labels[0 := c][0 := d] == labels[0 := d];
    }
  }

  lemma UnfitInstance(oidKeys: seq<string>, totals: multiset<InstanceKey>, k: InstanceKey)
    requires k in totals && !Fits(oidKeys, k.group)
    ensures !RawFit(oidKeys, totals, GroupIs(k.group))
  {
    assert GroupIs(k.group)(k);
  }

  /** Progress within one group: exactly the metrics of the clusters seen have been added. */
  ghost predicate Progress(ms: seq<Metric>, keys: seq<InstanceKey>, done: multiset<InstanceKey>,
      start: multiset<InstanceKey>, totals: multiset<InstanceKey>, g: GroupKey, seen: set<string>)
  {
    && Emits(ms, keys, RawLabels, done)
    && NoneEmitted(start, GroupIs(g))
    && Advanced(start, done, totals, ClusterAmong(g, seen))
  }

  lemma NextCluster(ms: seq<Metric>, keys: seq<InstanceKey>, done: multiset<InstanceKey>,
      start: multiset<InstanceKey>, totals: multiset<InstanceKey>, g: GroupKey, seen: set<string>, c: string)
    requires Progress(ms, keys, done, start, totals, g, seen)
    requires c !in seen && InstanceKey(c, g) in totals
    ensures
      var k := InstanceKey(c, g);
      Progress(ms + [Metric(RawLabels(k), totals[k])], keys + [k], done[k := totals[k]], start, totals, g, seen + {c})
  {
    hide Emits, RawLabels;
    var k := InstanceKey(c, g);
    assert GroupIs(g)(k) && done[k] == start[k];
    EmitsOneMore(ms, keys, done, RawLabels, k, totals[k]);
  }

  lemma CountedAs(counts: map<string, nat>, g: GroupKey, totals: multiset<InstanceKey>, c: string)
    requires forall c :: Counted(counts, c) == totals[InstanceKey(c, g)]
    requires c in counts && counts[c] > 0
    ensures InstanceKey(c, g) in totals && totals[InstanceKey(c, g)] == counts[c]
  {
    assert Counted(counts, c) == counts[c];
  }

  lemma ProgressStart(ms: seq<Metric>, keys: seq<InstanceKey>, done: multiset<InstanceKey>,
      totals: multiset<InstanceKey>, g: GroupKey)
    requires Emits(ms, keys, RawLabels, done) && NoneEmitted(done, GroupIs(g))
    ensures Progress(ms, keys, done, done, totals, g, {})
  {
  }

  lemma ProgressDone(ms: seq<Metric>, keys: seq<InstanceKey>, done: multiset<InstanceKey>,
      start: multiset<InstanceKey>, totals: multiset<InstanceKey>, g: GroupKey, seen: set<string>)
    requires Progress(ms, keys, done, start, totals, g, seen)
    ensures Emits(ms, keys, RawLabels, done) && Advanced(start, done, totals, ClusterAmong(g, seen))
  {
  }

  lemma AllClusters(oidKeys: seq<string>, g: GroupKey, counts: map<string, nat>,
      totals: multiset<InstanceKey>, start: multiset<InstanceKey>, after: multiset<InstanceKey>)
    requires NoneEmitted(start, GroupIs(g))
    requires forall c :: Counted(counts, c) == totals[InstanceKey(c, g)]
    requires Advanced(start, after, totals, ClusterAmong(g, counts.Keys))
    requires counts != map[] ==> Fits(oidKeys, g)
    ensures Advanced(start, after, totals, GroupIs(g))
    ensures RawFit(oidKeys, totals, GroupIs(g))
  {
    hide Fits;
    forall x: InstanceKey | x.group == g
      ensures Counted(counts, x.cluster) == totals[x] && start[x] == 0
    {
      assert GroupIs(g)(x) && x == InstanceKey(x.cluster, g);
    }
  }

  /** The innermost loop: the label list is reused, with the cluster overwritten. */
  method EmitClusters(oidKeys: seq<string>, g: GroupKey, labels0: seq<string>, counts: map<string, nat>,
      ms0: seq<Metric>, ghost keys0: seq<InstanceKey>, ghost done0: multiset<InstanceKey>, ghost totals: multiset<InstanceKey>)
    returns (ms: seq<Metric>, ghost keys: seq<InstanceKey>, ghost done: multiset<InstanceKey>, panicked: bool)
    requires LabelsFor(g, oidKeys, labels0)
    requires Emits(ms0, keys0, RawLabels, done0) && NoneEmitted(done0, GroupIs(g))
    requires forall c :: Counted(counts, c) == totals[InstanceKey(c, g)]
    requires forall c :: c in counts ==> counts[c] > 0
    ensures panicked <==> !RawFit(oidKeys, totals, GroupIs(g))
    ensures !panicked ==> Emits(ms, keys, RawLabels, done)
    ensures !panicked ==> Advanced(done0, done, totals, GroupIs(g))
  {
    ms, keys, done := ms0, keys0, done0;
    var labels, todo := labels0, counts.Keys;
    ghost var seen: set<string> := {};
    hide Progress, Counted, GroupIs, Emits, LabelsFor, RawLabels, Fits, RawFit, Advanced, NoneEmitted;
    ProgressStart(ms, keys, done, totals, g);
    while todo != {}
      invariant todo <= counts.Keys && forall x :: x in seen <==> x in counts && x !in todo
      invariant LabelsFor(g, oidKeys, labels)
      invariant seen != {} ==> Fits(oidKeys, g)
      invariant Progress(ms, keys, done, done0, totals, g, seen)
      decreases |todo|
    {
      var cluster :| cluster in todo;
      OverwrittenLabels(g, oidKeys, labels, cluster);
      labels := labels[0 := cluster];
      ghost var k := InstanceKey(cluster, g);
      CountedAs(counts, g, totals, cluster);
      if |labels| != 4 + |oidKeys| {
        UnfitInstance(oidKeys, totals, k);
        panicked := true;
        return;
      }
      NextCluster(ms, keys, done, done0, totals, g, seen, cluster);
      ms, keys, done := ms + [Metric(labels, counts[cluster])], keys + [k], done[k := totals[k]];
      todo, seen := todo - {cluster}, seen + {cluster};
    }
    panicked := false;
    assert seen == counts.Keys;
    ProgressDone(ms, keys, done, done0, totals, g, seen);
    AllClusters(oidKeys, g, counts, totals, done0, done);
  }

  ghost predicate TalliesOids(m: Tally2, kind: string, name: string, severity: string, totals: multiset<InstanceKey>) {
    && (forall o, c :: Get2(m, o, c) == totals[InstanceKey(c, GroupKey(kind, name, severity, o))])
    && (forall o, c :: o in m && c in m[o] ==> m[o][c] > 0)
  }

  lemma TalliedClusters(m: Tally2, kind: string, name: string, severity: string, totals: multiset<InstanceKey>, o: string)
    requires TalliesOids(m, kind, name, severity, totals) && o in m
    ensures forall c :: Counted(m[o], c) == totals[InstanceKey(c, GroupKey(kind, name, severity, o))]
    ensures forall c :: c in m[o] ==> m[o][c] > 0
  {
    forall c
      ensures Counted(m[o], c) == totals[InstanceKey(c, GroupKey(kind, name, severity, o))]
    {
      assert Get2(m, o, c) == totals[InstanceKey(c, GroupKey(kind, name, severity, o))];
    }
  }

  lemma TalliedOids(m: Tally3, kind: string, name: string, totals: multiset<InstanceKey>, s: string)
    requires Tallies3(m, kind, name, totals) && s in m
    ensures TalliesOids(m[s], kind, name, s, totals)
  {
    forall o, c
      ensures Get2(m[s], o, c) == totals[InstanceKey(c, GroupKey(kind, name, s, o))]
    {
      assert Get3(m, s, o, c) == totals[InstanceKey(c, GroupKey(kind, name, s, o))];
    }
  }

  lemma NextOid(oidKeys: seq<string>, kind: string, name: string, severity: string, totals: multiset<InstanceKey>,
      start: multiset<InstanceKey>, before: multiset<InstanceKey>, after: multiset<InstanceKey>, oids: set<string>, oid: string)
    requires RawOnlyOf(kind, name, totals) && NoneEmitted(start, RawSeverityAmong({severity}))
    requires Advanced(start, before, totals, RawOidAmong(severity, oids))
    requires Advanced(before, after, totals, GroupIs(GroupKey(kind, name, severity, oid)))
    requires RawFit(oidKeys, totals, RawOidAmong(severity, oids))
    requires RawFit(oidKeys, totals, GroupIs(GroupKey(kind, name, severity, oid)))
    ensures Advanced(start, after, totals, RawOidAmong(severity, oids + {oid}))
    ensures RawFit(oidKeys, totals, RawOidAmong(severity, oids + {oid}))
  {
    hide Advanced, Fits;
    var was, now, next := RawOidAmong(severity, oids), GroupIs(GroupKey(kind, name, severity, oid)), RawOidAmong(severity, oids + {oid});
    assert NoneEmitted(start, next) by {
      assert forall k :: next(k) ==> RawSeverityAmong({severity})(k);
    }
    AdvanceFurther(start, before, after, totals, was, now, next);
    forall k | k in totals && next(k)
      ensures Fits(oidKeys, k.group)
    {
      assert was(k) || now(k);
    }
  }

  /** Nothing is counted under an identity value without a counter. */
  lemma AllOids(oidKeys: seq<string>, kind: string, name: string, severity: string, subcounts: Tally2,
      totals: multiset<InstanceKey>, start: multiset<InstanceKey>, after: multiset<InstanceKey>)
    requires RawOnlyOf(kind, name, totals) && NoneEmitted(start, RawSeverityAmong({severity}))
    requires TalliesOids(subcounts, kind, name, severity, totals)
    requires Advanced(start, after, totals, RawOidAmong(severity, subcounts.Keys))
    requires RawFit(oidKeys, totals, RawOidAmong(severity, subcounts.Keys))
    ensures Advanced(start, after, totals, RawSeverityAmong({severity}))
    ensures RawFit(oidKeys, totals, RawSeverityAmong({severity}))
  {
    hide Fits;
    forall k: InstanceKey | k in totals && k.group.severity == severity
      ensures k.group.oid in subcounts
    {
      assert Get2(subcounts, k.group.oid, k.cluster) == totals[InstanceKey(k.cluster, GroupKey(kind, name, severity, k.group.oid))];
    }
    forall k: InstanceKey | k.group.severity == severity
      ensures start[k] == 0
    {
      assert RawSeverityAmong({severity})(k);
    }
  }

  lemma GroupNotYet(totals: multiset<InstanceKey>, start: multiset<InstanceKey>, done: multiset<InstanceKey>,
      g: GroupKey, oids: set<string>)
    requires NoneEmitted(start, RawSeverityAmong({g.severity})) && g.oid !in oids
    requires Advanced(start, done, totals, RawOidAmong(g.severity, oids))
    ensures NoneEmitted(done, GroupIs(g))
  {
    forall k: InstanceKey | k.group == g
      ensures k !in done
    {
      assert done[k] == start[k] && RawSeverityAmong({g.severity})(k);
    }
  }

  lemma UnfitGroup(oidKeys: seq<string>, totals: multiset<InstanceKey>, g: GroupKey)
    requires !RawFit(oidKeys, totals, GroupIs(g))
    ensures !RawFit(oidKeys, totals, RawSeverityAmong({g.severity}))
  {
    var k :| k in totals && GroupIs(g)(k) && !Fits(oidKeys, k.group);
    assert RawSeverityAmong({g.severity})(k);
  }

  method EmitRawOids(oidKeys: seq<string>, kind: string, name: string, severity: string, subcounts: Tally2,
      ms0: seq<Metric>, ghost keys0: seq<InstanceKey>, ghost done0: multiset<InstanceKey>, ghost totals: multiset<InstanceKey>)
    returns (ms: seq<Metric>, ghost keys: seq<InstanceKey>, ghost done: multiset<InstanceKey>, panicked: bool)
    requires RawOnlyOf(kind, name, totals)
    requires Emits(ms0, keys0, RawLabels, done0) && NoneEmitted(done0, RawSeverityAmong({severity}))
    requires TalliesOids(subcounts, kind, name, severity, totals)
    ensures panicked <==> !RawFit(oidKeys, totals, RawSeverityAmong({severity}))
    ensures !panicked ==> Emits(ms, keys, RawLabels, done)
    ensures !panicked ==> Advanced(done0, done, totals, RawSeverityAmong({severity}))
  {
    ms, keys, done := ms0, keys0, done0;
    var todo := subcounts.Keys;
    ghost var seen: set<string> := {};
    assert RawFit(oidKeys, totals, RawOidAmong(severity, {})) && Advanced(done0, done, totals, RawOidAmong(severity, {}));
    hide Emits, Fits, LabelsFor, RawLabels, RawFit, RawOnlyOf, Split, Advanced, NoneEmitted, TalliesOids, GroupIs, RawOidAmong, RawSeverityAmong;
    while todo != {}
      invariant todo <= subcounts.Keys && forall x :: x in seen <==> x in subcounts && x !in todo
      invariant RawFit(oidKeys, totals, RawOidAmong(severity, seen))
      invariant Emits(ms, keys, RawLabels, done)
      invariant Advanced(done0, done, totals, RawOidAmong(severity, seen))
      decreases |todo|
    {
      var oid :| oid in todo;
      var g := GroupKey(kind, name, severity, oid);
      var labels := ["", kind, name, severity];
      labels := labels + Split(oid, NUL);
      LabelsOf(g, oidKeys, labels);
      TalliedClusters(subcounts, kind, name, severity, totals, oid);
      ghost var before := done;
      GroupNotYet(totals, done0, done, g, seen);
      ms, keys, done, panicked := EmitClusters(oidKeys, g, labels, subcounts[oid], ms, keys, done, totals);
      if panicked {
        UnfitGroup(oidKeys, totals, g);
        return;
      }
      NextOid(oidKeys, kind, name, severity, totals, done0, before, done, seen, oid);
      todo, seen := todo - {oid}, seen + {oid};
    }
    panicked := false;
    assert seen == subcounts.Keys;
    AllOids(oidKeys, kind, name, severity, subcounts, totals, done0, done);
  }

  lemma NextSeverity(oidKeys: seq<string>, totals: multiset<InstanceKey>,
      before: multiset<InstanceKey>, after: multiset<InstanceKey>, severities: set<string>, severity: string)
    requires Advanced(multiset{}, before, totals, RawSeverityAmong(severities))
    requires Advanced(before, after, totals, RawSeverityAmong({severity}))
    requires RawFit(oidKeys, totals, RawSeverityAmong(severities))
    requires RawFit(oidKeys, totals, RawSeverityAmong({severity}))
    ensures Advanced(multiset{}, after, totals, RawSeverityAmong(severities + {severity}))
    ensures RawFit(oidKeys, totals, RawSeverityAmong(severities + {severity}))
  {
    hide Advanced, Fits;
    var was, now, next := RawSeverityAmong(severities), RawSeverityAmong({severity}), RawSeverityAmong(severities + {severity});
    AdvanceFurther(multiset{}, before, after, totals, was, now, next);
    forall k | k in totals && next(k)
      ensures Fits(oidKeys, k.group)
    {
      assert was(k) || now(k);
    }
  }

  lemma AllSeverities(oidKeys: seq<string>, kind: string, name: string, counts: Tally3,
      totals: multiset<InstanceKey>, after: multiset<InstanceKey>)
    requires RawOnlyOf(kind, name, totals) && Tallies3(counts, kind, name, totals)
    requires Advanced(multiset{}, after, totals, RawSeverityAmong(counts.Keys))
    requires RawFit(oidKeys, totals, RawSeverityAmong(counts.Keys))
    ensures after == totals && RawAllFit(oidKeys, totals)
  {
    hide Fits;
    forall k | k in totals
      ensures k.group.severity in counts
    {
      assert Get3(counts, k.group.severity, k.group.oid, k.cluster)
        == totals[InstanceKey(k.cluster, GroupKey(kind, name, k.group.severity, k.group.oid))];
    }
    forall k
      ensures after[k] == totals[k]
    {
      assert RawSeverityAmong(counts.Keys)(k) || k !in totals;
    }
  }

  ghost predicate RawAllFit(oidKeys: seq<string>, totals: multiset<InstanceKey>) {
    forall k :: k in totals ==> Fits(oidKeys, k.group)
  }

  method EmitRaw(oidKeys: seq<string>, kind: string, name: string, counts: Tally3, ghost totals: multiset<InstanceKey>)
    returns (ms: seq<Metric>, ghost keys: seq<InstanceKey>, panicked: bool)
    requires Tallies3(counts, kind, name, totals) && RawOnlyOf(kind, name, totals)
    ensures panicked <==> !RawAllFit(oidKeys, totals)
    ensures !panicked ==> Emits(ms, keys, RawLabels, totals)
  {
    EmitsNothing(RawLabels);
    ghost var done;
    ms, keys, done := [], [], multiset{};
    var todo := counts.Keys;
    ghost var seen: set<string> := {};
    assert Advanced(multiset{}, done, totals, RawSeverityAmong({}));
    hide Emits, Fits, Advanced, TalliesOids, Tallies3;
    while todo != {}
      invariant todo <= counts.Keys && forall x :: x in seen <==> x in counts && x !in todo
      invariant RawFit(oidKeys, totals, RawSeverityAmong(seen))
      invariant Emits(ms, keys, RawLabels, done)
      invariant Advanced(multiset{}, done, totals, RawSeverityAmong(seen))
      decreases |todo|
    {
      var severity :| severity in todo;
      TalliedOids(counts, kind, name, totals, severity);
      ghost var before := done;
      NotYet(totals, done, seen, severity);
      ms, keys, done, panicked := EmitRawOids(oidKeys, kind, name, severity, counts[severity], ms, keys, done, totals);
      if panicked {
        return;
      }
      NextSeverity(oidKeys, totals, before, done, seen, severity);
      todo, seen := todo - {severity}, seen + {severity};
    }
    panicked := false;
    assert seen == counts.Keys;
    AllSeverities(oidKeys, kind, name, counts, totals, done);
  }

  lemma NotYet(totals: multiset<InstanceKey>, done: multiset<InstanceKey>, severities: set<string>, severity: string)
    requires Advanced(multiset{}, done, totals, RawSeverityAmong(severities)) && severity !in severities
    ensures NoneEmitted(done, RawSeverityAmong({severity}))
  {
  }

  // ----- one constraint name -----

  /** What was emitted is exact for both kinds of metric. */
  ghost predicate Emitted(oidKeys: seq<string>, ps: seq<Placed>, raw: seq<Metric>, rawKeys: seq<InstanceKey>,
      grouped: seq<Metric>, groupedKeys: seq<GroupKey>)
  {
    && Emits(raw, rawKeys, RawLabels, InstanceTotals(oidKeys, ps))
    && Emits(grouped, groupedKeys, GroupedLabels, GroupTotals(oidKeys, ps))
  }

  lemma {:induction false} InstancesHaveGroups(oidKeys: seq<string>, ps: seq<Placed>)
    ensures forall k :: k in InstanceTotals(oidKeys, ps) ==> k.group in GroupTotals(oidKeys, ps)
  {
    if ps != [] {
      InstancesUnderKey(KeyOf(oidKeys, ps[0].at), ps[0].instances);
      InstancesHaveGroups(oidKeys, ps[1..]);
    }
  }

  lemma {:induction false} PlacedUnder(kind: string, name: string, cs: seq<Constraint>)
    requires forall i :: 0 <= i < |cs| ==> cs[i].name == name
    ensures forall p :: p in FlatConstraints(kind, cs) ==> p.at.kind == kind && p.at.name == name
  {
    if cs != [] {
      PlacedUnder(kind, name, cs[1..]);
    }
  }

  /** The metrics for all constraints of one name. Emission stops with a panic exactly when
      some group's labels do not fit the description. */
  method CountViolationsForConstraint(kind: string, name: string, rcs: seq<Constraint>, oidKeys: seq<string>)
    returns (raw: seq<Metric>, grouped: seq<Metric>, ghost rawKeys: seq<InstanceKey>, ghost groupedKeys: seq<GroupKey>, panicked: bool)
    requires forall i :: 0 <= i < |rcs| ==> rcs[i].name == name
    ensures panicked <==> !AllFit(oidKeys, GroupTotals(oidKeys, FlatConstraints(kind, rcs)))
    ensures !panicked ==> Emitted(oidKeys, FlatConstraints(kind, rcs), raw, rawKeys, grouped, groupedKeys)
  {
    hide Emits, Fits, Tallies2, Tallies3, GroupTotals, InstanceTotals, FlatConstraints;
    raw, rawKeys := [], [];
    var groupedCounts, rawCounts := TallyConstraints(oidKeys, kind, name, rcs);
    ghost var ps := FlatConstraints(kind, rcs);
    PlacedUnder(kind, name, rcs);
    TotalsOfConstraints(oidKeys, ps, kind, {name});
    InstancesHaveGroups(oidKeys, ps);
    grouped, groupedKeys, panicked := EmitGrouped(oidKeys, kind, name, groupedCounts, GroupTotals(oidKeys, ps));
    if panicked {
      return;
    }
    raw, rawKeys, panicked := EmitRaw(oidKeys, kind, name, rawCounts, InstanceTotals(oidKeys, ps));
  }
}
