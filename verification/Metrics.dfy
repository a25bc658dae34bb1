/** Counting violations and violation groups for Prometheus (MetricCollector.Collect). */
module Metrics {
  import opened Text
  import opened Doop
  import opened Regroup
  import opened Sorting

  const NUL := '\0'

  datatype Metric = Metric(labels: seq<string>, count: nat)

  // ----- what is counted -----

  datatype GroupKey = GroupKey(kind: string, name: string, severity: string, oid: string)
  datatype InstanceKey = InstanceKey(cluster: string, group: GroupKey)

  function OidValues(oidKeys: seq<string>, pattern: Violation): (r: seq<string>)
    ensures |r| == |oidKeys|
  {
    seq(|oidKeys|, i requires 0 <= i < |oidKeys| => At(pattern.objectIdentity, oidKeys[i]))
  }

  function KeyOf(oidKeys: seq<string>, at: Address): GroupKey {
    GroupKey(at.kind, at.name, at.metadata.severity, Join(OidValues(oidKeys, at.pattern), NUL))
  }

  function GroupedLabels(k: GroupKey): seq<string> {
    [k.kind, k.name, k.severity] + Split(k.oid, NUL)
  }

  function RawLabels(k: InstanceKey): seq<string> {
    [k.cluster, k.group.kind, k.group.name, k.group.severity] + Split(k.group.oid, NUL)
  }

  /** The groups of a report, each under its key. */
  function GroupTotals(oidKeys: seq<string>, ps: seq<Placed>): multiset<GroupKey> {
    if ps == [] then multiset{} else multiset{KeyOf(oidKeys, ps[0].at)} + GroupTotals(oidKeys, ps[1..])
  }

  function InstancesUnder(k: GroupKey, vs: seq<Violation>): multiset<InstanceKey> {
    if vs == [] then multiset{} else multiset{InstanceKey(vs[0].clusterName, k)} + InstancesUnder(k, vs[1..])
  }

  /** The instances of a report, each under its cluster and the key of its group. */
  function InstanceTotals(oidKeys: seq<string>, ps: seq<Placed>): multiset<InstanceKey> {
    if ps == [] then multiset{}
    else InstancesUnder(KeyOf(oidKeys, ps[0].at), ps[0].instances) + InstanceTotals(oidKeys, ps[1..])
  }

  lemma {:induction false} TotalsAppend(oidKeys: seq<string>, a: seq<Placed>, b: seq<Placed>)
    ensures GroupTotals(oidKeys, a + b) == GroupTotals(oidKeys, a) + GroupTotals(oidKeys, b)
    ensures InstanceTotals(oidKeys, a + b) == InstanceTotals(oidKeys, a) + InstanceTotals(oidKeys, b)
  {
    hide KeyOf, InstancesUnder;
    if a == [] {
      assert a + b == b;
    } else {
      assert (a + b)[0] == a[0] && (a + b)[1..] == a[1..] + b;
      TotalsAppend(oidKeys, a[1..], b);
    }
  }

  lemma {:induction false} InstancesUnderAppend(k: GroupKey, a: seq<Violation>, b: seq<Violation>)
    ensures InstancesUnder(k, a + b) == InstancesUnder(k, a) + InstancesUnder(k, b)
  {
    if a == [] {
      assert a + b == b;
    } else {
      assert (a + b)[0] == a[0] && (a + b)[1..] == a[1..] + b;
      InstancesUnderAppend(k, a[1..], b);
    }
  }

  lemma {:induction false} InstancesUnderKey(k: GroupKey, vs: seq<Violation>)
    ensures forall x :: x in InstancesUnder(k, vs) ==> x.group == k
  {
    if vs != [] {
      InstancesUnderKey(k, vs[1..]);
    }
  }

  /** Keys carry the kind and name of the constraint they count for. */
  lemma {:induction false} TotalsOfConstraints(oidKeys: seq<string>, ps: seq<Placed>, kind: string, names: set<string>)
    requires forall i :: 0 <= i < |ps| ==> ps[i].at.kind == kind && ps[i].at.name in names
    ensures forall k :: k in GroupTotals(oidKeys, ps) ==> k.kind == kind && k.name in names
    ensures forall k :: k in InstanceTotals(oidKeys, ps) ==> k.group.kind == kind && k.group.name in names
  {
    if ps != [] {
      TotalsOfConstraints(oidKeys, ps[1..], kind, names);
      InstancesUnderKey(KeyOf(oidKeys, ps[0].at), ps[0].instances);
    }
  }

  // ----- what is emitted -----

  /** One metric for each key that occurs, with its number of occurrences. */
  ghost predicate Emits<K(!new)>(ms: seq<Metric>, keys: seq<K>, labels: K -> seq<string>, totals: multiset<K>) {
    && |ms| == |keys|
    && Distinct(keys)
    && (forall k :: k in keys <==> k in totals)
    && (forall i :: 0 <= i < |ms| ==> ms[i] == Metric(labels(keys[i]), totals[keys[i]]))
  }

  lemma EmitsTogether<K(!new)>(ms: seq<Metric>, keys: seq<K>, totals: multiset<K>,
      ms': seq<Metric>, keys': seq<K>, totals': multiset<K>, labels: K -> seq<string>)
    requires Emits(ms, keys, labels, totals) && Emits(ms', keys', labels, totals')
    requires totals !! totals'
    ensures Emits(ms + ms', keys + keys', labels, totals + totals')
  {
    var all := keys + keys';
    forall i, j | 0 <= i < j < |all|
      ensures all[i] != all[j]
    {
      if i < |keys| <= j {
        assert all[i] in totals && all[j] in totals';
      }
    }
    forall i | 0 <= i < |ms + ms'|
      ensures (ms + ms')[i] == Metric(labels(all[i]), (totals + totals')[all[i]])
    {
      if i < |ms| {
        assert all[i] in totals;
      } else {
        assert all[i] in totals';
      }
    }
    forall k
      ensures k in all <==> k in totals + totals'
    {
    }
  }

  lemma EmitsNothing<K(!new)>(labels: K -> seq<string>)
    ensures Emits([], [], labels, multiset{})
  {
  }

  lemma EmitsOneMore<K(!new)>(ms: seq<Metric>, keys: seq<K>, totals: multiset<K>, labels: K -> seq<string>, k: K, n: nat)
    requires Emits(ms, keys, labels, totals) && k !in totals && n > 0
    ensures Emits(ms + [Metric(labels(k), n)], keys + [k], labels, totals[k := n])
  {
    var all, after := keys + [k], totals[k := n];
    forall i | 0 <= i < |all|
      ensures (ms + [Metric(labels(k), n)])[i] == Metric(labels(all[i]), after[all[i]])
    {
      if i < |keys| {
        assert all[i] in keys;
      }
    }
    forall x
      ensures x in all <==> x in after
    {
    }
  }

  function CountSum(ms: seq<Metric>): nat {
    if ms == [] then 0 else ms[0].count + CountSum(ms[1..])
  }

  lemma EmitsRest<K(!new)>(ms: seq<Metric>, keys: seq<K>, labels: K -> seq<string>, totals: multiset<K>)
    requires ms != [] && Emits(ms, keys, labels, totals)
    ensures keys != [] && ms[0] == Metric(labels(keys[0]), totals[keys[0]])
    ensures Emits(ms[1..], keys[1..], labels, totals[keys[0] := 0])
  {
    var k, rest := keys[0], totals[keys[0] := 0];
    forall x
      ensures x in keys[1..] <==> x in rest
    {
      if x in keys && x != k {
        var i :| 0 <= i < |keys| && keys[i] == x;
        assert keys[1..][i - 1] == x;
      }
    }
    forall i | 0 <= i < |ms[1..]|
      ensures ms[1..][i] == Metric(labels(keys[1..][i]), rest[keys[1..][i]])
    {
      assert keys[i + 1] != k;
    }
  }

  /** The counts add up to the number of things counted. */
  lemma {:induction false} CountsAddUp<K(!new)>(ms: seq<Metric>, keys: seq<K>, labels: K -> seq<string>, totals: multiset<K>)
    requires Emits(ms, keys, labels, totals)
    ensures CountSum(ms) == |totals|
    decreases |ms|
  {
    if ms == [] {
      assert forall k :: k !in totals;
      assert totals == multiset{};
    } else {
      EmitsRest(ms, keys, labels, totals);
      CountsAddUp(ms[1..], keys[1..], labels, totals[keys[0] := 0]);
      RemoveAll(totals, keys[0]);
    }
  }

  /** The metrics with a given first label. */
  function MetricsOf(ms: seq<Metric>, first: string): seq<Metric> {
    if ms == [] then []
    else (if ms[0].labels != [] && ms[0].labels[0] == first then [ms[0]] else []) + MetricsOf(ms[1..], first)
  }

  ghost predicate PartOf(part: multiset<InstanceKey>, totals: multiset<InstanceKey>, cluster: string) {
    forall k :: part[k] == if k.cluster == cluster then totals[k] else 0
  }

  /** So do those of one cluster. */
  lemma {:induction false} ClusterCountsAddUp(ms: seq<Metric>, keys: seq<InstanceKey>, totals: multiset<InstanceKey>,
      part: multiset<InstanceKey>, cluster: string)
    requires Emits(ms, keys, RawLabels, totals) && PartOf(part, totals, cluster)
    ensures CountSum(MetricsOf(ms, cluster)) == |part|
    decreases |ms|
  {
    if ms == [] {
      assert forall k :: k !in totals;
      assert part == multiset{};
    } else {
      EmitsRest(ms, keys, RawLabels, totals);
      var k := keys[0];
      assert RawLabels(k)[0] == k.cluster;
      ClusterCountsAddUp(ms[1..], keys[1..], totals[k := 0], part[k := 0], cluster);
      RemoveAll(part, k);
      var rest := MetricsOf(ms[1..], cluster);
      assert ([ms[0]] + rest)[1..] == rest && [] + rest == rest;
    }
  }

  lemma RemoveAll<K>(m: multiset<K>, k: K)
    ensures |m| == m[k] + |m[k := 0]|
  {
    assert m == m[k := 0][k := m[k]];
  }

  lemma GroupedLabelsAreInjective(a: GroupKey, b: GroupKey)
    requires GroupedLabels(a) == GroupedLabels(b)
    ensures a == b
  {
    assert GroupedLabels(a)[3..] == Split(a.oid, NUL) && GroupedLabels(b)[3..] == Split(b.oid, NUL);
    assert GroupedLabels(a)[0] == GroupedLabels(b)[0] && GroupedLabels(a)[1] == GroupedLabels(b)[1];
    assert GroupedLabels(a)[2] == GroupedLabels(b)[2];
    SplitIsInjective(a.oid, b.oid, NUL);
  }

  lemma RawLabelsAreInjective(a: InstanceKey, b: InstanceKey)
    requires RawLabels(a) == RawLabels(b)
    ensures a == b
  {
    var s, t := RawLabels(a), RawLabels(b);
    assert s[4..] == Split(a.group.oid, NUL) && t[4..] == Split(b.group.oid, NUL);
    assert s[0] == t[0] && s[1] == t[1] && s[2] == t[2] && s[3] == t[3];
    SplitIsInjective(a.group.oid, b.group.oid, NUL);
  }

  // ----- labels that fit the metric's description -----

  /** A constant metric needs as many label values as its description has labels; with
      another number the constructor panics. */
  predicate Fits(oidKeys: seq<string>, k: GroupKey) {
    |GroupedLabels(k)| == 3 + |oidKeys|
  }

  /** Label values after the cluster: kind, name and severity, then for each configured key the
      value that the identity has under that key, and the empty string if it has none. */
  predicate HasLabels(oidKeys: seq<string>, at: Address, labels: seq<string>) {
    && |labels| == 3 + |oidKeys|
    && labels[0] == at.kind && labels[1] == at.name && labels[2] == at.metadata.severity
    && forall i :: 0 <= i < |oidKeys| ==>
      labels[3 + i] == if oidKeys[i] in at.pattern.objectIdentity then at.pattern.objectIdentity[oidKeys[i]] else ""
  }

  /** No identity value under a configured key contains NUL. */
  predicate NulFree(oidKeys: seq<string>, identity: Identity) {
    forall i :: 0 <= i < |oidKeys| && oidKeys[i] in identity ==> NUL !in identity[oidKeys[i]]
  }

  /** The labels fit exactly when at least one key is configured and no value contains NUL;
      then every value stands under its own key. */
  lemma FitsExactly(oidKeys: seq<string>, at: Address)
    ensures Fits(oidKeys, KeyOf(oidKeys, at)) <==>
      oidKeys != [] && NulFree(oidKeys, at.pattern.objectIdentity)
    ensures Fits(oidKeys, KeyOf(oidKeys, at)) ==>
      GroupedLabels(KeyOf(oidKeys, at)) == [at.kind, at.name, at.metadata.severity] + OidValues(oidKeys, at.pattern)
    ensures forall cluster :: Fits(oidKeys, KeyOf(oidKeys, at)) ==>
      RawLabels(InstanceKey(cluster, KeyOf(oidKeys, at)))
        == [cluster, at.kind, at.name, at.metadata.severity] + OidValues(oidKeys, at.pattern)
    ensures Fits(oidKeys, KeyOf(oidKeys, at)) ==> HasLabels(oidKeys, at, GroupedLabels(KeyOf(oidKeys, at)))
  {
    var values := OidValues(oidKeys, at.pattern);
    SplitJoinExactly(values, NUL);
    NulFreeValues(oidKeys, at.pattern);
  }

  lemma NulFreeValues(oidKeys: seq<string>, pattern: Violation)
    ensures NulFree(oidKeys, pattern.objectIdentity) <==> SeparatorFree(OidValues(oidKeys, pattern), NUL)
  {
    var values := OidValues(oidKeys, pattern);
    forall i | 0 <= i < |oidKeys|
      ensures oidKeys[i] in pattern.objectIdentity ==> values[i] == pattern.objectIdentity[oidKeys[i]]
    {
    }
  }

  /** Keys that fit are told apart by what the labels say. */
  lemma LabelsDecideTheKey(oidKeys: seq<string>, at: Address, k: GroupKey)
    requires Fits(oidKeys, KeyOf(oidKeys, at))
    ensures HasLabels(oidKeys, at, GroupedLabels(k)) <==> KeyOf(oidKeys, at) == k
  {
    hide Fits, KeyOf, GroupedLabels;
    var own, given := GroupedLabels(KeyOf(oidKeys, at)), GroupedLabels(k);
    FitsExactly(oidKeys, at);
    if HasLabels(oidKeys, at, given) {
      forall i | 0 <= i < |own|
        ensures own[i] == given[i]
      {
        if i >= 3 {
          assert own[3 + (i - 3)] == given[3 + (i - 3)];
        }
      }
      assert own == given;
      GroupedLabelsAreInjective(KeyOf(oidKeys, at), k);
    }
  }

  ghost predicate AllFit(oidKeys: seq<string>, totals: multiset<GroupKey>) {
    forall k :: k in totals ==> Fits(oidKeys, k)
  }
}
