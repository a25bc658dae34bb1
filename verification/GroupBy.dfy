/** Merging into groups is a stable group-by on the pattern. */
module GroupBy {
  import opened Doop
  import opened Regroup

  /** The patterns in the order in which they first appear. */
  function FirstAppearances(ps: seq<Placed>): seq<Violation> {
    if ps == [] then []
    else
      var before, p := FirstAppearances(ps[..|ps| - 1]), ps[|ps| - 1].at.pattern;
      if p in before then before else before + [p]
  }

  /** All instances with the given pattern, in input order. */
  function InstancesFor(ps: seq<Placed>, pattern: Violation): seq<Violation> {
    if ps == [] then []
    else
      var last := ps[|ps| - 1];
      InstancesFor(ps[..|ps| - 1], pattern) + if last.at.pattern == pattern then last.instances else []
  }

  function StableGroupBy(ps: seq<Placed>): (r: seq<Group>)
    ensures |r| == |FirstAppearances(ps)|
  {
    var patterns := FirstAppearances(ps);
    seq(|patterns|, i requires 0 <= i < |patterns| => ViolationGroup(patterns[i], InstancesFor(ps, patterns[i])))
  }

  lemma {:induction false} PatternsAreDistinct(ps: seq<Placed>)
    ensures forall i, j :: 0 <= i < j < |FirstAppearances(ps)| ==> FirstAppearances(ps)[i] != FirstAppearances(ps)[j]
    ensures forall x :: x in FirstAppearances(ps) <==> exists k :: 0 <= k < |ps| && ps[k].at.pattern == x
  {
    if ps != [] {
      var rest := ps[..|ps| - 1];
      PatternsAreDistinct(rest);
      forall x
        ensures x in FirstAppearances(ps) <==> exists k :: 0 <= k < |ps| && ps[k].at.pattern == x
      {
        if k :| 0 <= k < |rest| && rest[k].at.pattern == x {
          assert ps[k].at.pattern == x;
        }
        if k :| 0 <= k < |ps| && ps[k].at.pattern == x {
          assert k == |ps| - 1 || rest[k].at.pattern == x;
        }
      }
    }
  }

  lemma {:induction false} NoInstances(ps: seq<Placed>, pattern: Violation)
    requires forall k :: 0 <= k < |ps| ==> ps[k].at.pattern != pattern
    ensures InstancesFor(ps, pattern) == []
  {
    if ps != [] {
      NoInstances(ps[..|ps| - 1], pattern);
    }
  }

  lemma PutGroupGroupsBy(ps: seq<Placed>, p: Placed)
    ensures PutGroup(StableGroupBy(ps), p) == StableGroupBy(ps + [p])
  {
    var all, before := ps + [p], FirstAppearances(ps);
    assert all[..|all| - 1] == ps && all[|all| - 1] == p;
    PatternsAreDistinct(ps);
    var gs := StableGroupBy(ps);
    var i := FindGroup(gs, p.at.pattern);
    if i < |gs| {
      assert before[i] == p.at.pattern;
      assert FirstAppearances(all) == before;
    } else {
      assert forall j :: 0 <= j < |gs| ==> gs[j].pattern == before[j];
      assert p.at.pattern !in before;
      assert FirstAppearances(all) == before + [p.at.pattern];
      NoInstances(ps, p.at.pattern);
    }
    var put, grouped := PutGroup(gs, p), StableGroupBy(all);
    assert |put| == |grouped|;
    forall j | 0 <= j < |put|
      ensures put[j] == grouped[j]
    {
      var x := FirstAppearances(all)[j];
      InstancesWithOneMore(ps, p, x);
      if j == |gs| {
        assert InstancesFor(ps, x) + p.instances == p.instances;
      } else if j != i {
        assert before[j] in before && before[j] != p.at.pattern;
      }
    }
  }

  lemma InstancesWithOneMore(ps: seq<Placed>, p: Placed, x: Violation)
    ensures InstancesFor(ps + [p], x) == if x == p.at.pattern then InstancesFor(ps, x) + p.instances else InstancesFor(ps, x)
  {
    var all := ps + [p];
    assert all[..|all| - 1] == ps && all[|all| - 1] == p;
  }

  /** The search-or-append loop computes the stable group-by of what it is given. */
  lemma {:induction false} MergingGroupsStably(ps: seq<Placed>)
    ensures PutAllGroups([], ps) == StableGroupBy(ps)
  {
    if ps != [] {
      var rest, last := ps[..|ps| - 1], ps[|ps| - 1];
      MergingGroupsStably(rest);
      assert ps == rest + [last];
      FoldAppend(PutGroup, [], rest, [last]);
      assert [last][1..] == [];
      PutGroupGroupsBy(rest, last);
    }
  }

  /** Pattern x is at position k and pattern y not there nor earlier. */
  ghost predicate AppearsBefore(ps: seq<Placed>, k: int, x: Violation, y: Violation) {
    0 <= k < |ps| && ps[k].at.pattern == x && forall l :: 0 <= l <= k ==> ps[l].at.pattern != y
  }

  /** Groups come in the order in which their patterns first appear in the input. */
  lemma {:induction false} GroupsInFirstAppearanceOrder(ps: seq<Placed>, i: nat, j: nat)
    requires i < j < |FirstAppearances(ps)|
    ensures exists k :: AppearsBefore(ps, k, FirstAppearances(ps)[i], FirstAppearances(ps)[j])
  {
    var rest, all := ps[..|ps| - 1], FirstAppearances(ps);
    var before := FirstAppearances(rest);
    PatternsAreDistinct(rest);
    if j < |before| {
      GroupsInFirstAppearanceOrder(rest, i, j);
      var k :| AppearsBefore(rest, k, before[i], before[j]);
      assert AppearsBefore(ps, k, all[i], all[j]);
    } else {
      assert before[i] in before;
      var k :| 0 <= k < |rest| && rest[k].at.pattern == before[i];
      assert ps[k].at.pattern == all[i];
      forall l | 0 <= l <= k
        ensures ps[l].at.pattern != all[j]
      {
        assert rest[l].at.pattern in before;
      }
      assert AppearsBefore(ps, k, all[i], all[j]);
    }
  }

  /** When no input group is empty, neither is an output group. */
  lemma {:induction false} GroupsAreNonempty(ps: seq<Placed>, x: Violation)
    requires forall k :: 0 <= k < |ps| ==> ps[k].instances != []
    requires x in FirstAppearances(ps)
    ensures InstancesFor(ps, x) != []
  {
    var rest := ps[..|ps| - 1];
    if x in FirstAppearances(rest) {
      GroupsAreNonempty(rest, x);
    }
  }

  function GroupedCount(gs: seq<Group>): nat {
    if gs == [] then 0 else |gs[0].instances| + GroupedCount(gs[1..])
  }

  lemma {:induction false} PutGroupCounts(gs: seq<Group>, p: Placed)
    ensures GroupedCount(PutGroup(gs, p)) == GroupedCount(gs) + |p.instances|
  {
    if gs == [] {
      assert PutGroup(gs, p)[1..] == [];
    } else if gs[0].pattern == p.at.pattern {
      assert PutGroup(gs, p)[1..] == gs[1..];
    } else {
      PutGroupCounts(gs[1..], p);
      assert PutGroup(gs, p)[1..] == PutGroup(gs[1..], p);
    }
  }

  /** Merging groups together keeps the number of instances. */
  lemma {:induction false} MergingKeepsTheCount(gs: seq<Group>, ps: seq<Placed>)
    ensures GroupedCount(PutAllGroups(gs, ps)) == GroupedCount(gs) + InstanceCount(ps)
    decreases |ps|
  {
    hide PutGroup;
    if ps != [] {
      PutGroupCounts(gs, ps[0]);
      MergingKeepsTheCount(PutGroup(gs, ps[0]), ps[1..]);
    }
  }

  // ----- the order of instances -----

  /** The number of earlier inputs with the same pattern. */
  function Earlier(ps: seq<Placed>, k: nat): nat
    requires k < |ps|
    decreases k
  {
    EarlierThan(ps, k, ps[k].at.pattern)
  }

  function EarlierThan(ps: seq<Placed>, k: nat, pattern: Violation): nat
    requires k <= |ps|
    decreases k
  {
    if k == 0 then 0 else EarlierThan(ps, k - 1, pattern) + if ps[k - 1].at.pattern == pattern then 1 else 0
  }

  ghost predicate AllSingle(ps: seq<Placed>) {
    forall k :: 0 <= k < |ps| ==> |ps[k].instances| == 1
  }

  lemma {:induction false} EarlierInPrefix(ps: seq<Placed>, n: nat, k: nat, pattern: Violation)
    requires k <= n <= |ps|
    ensures EarlierThan(ps[..n], k, pattern) == EarlierThan(ps, k, pattern)
    decreases k
  {
    if k > 0 {
      EarlierInPrefix(ps, n, k - 1, pattern);
    }
  }

  /** The instance of an input stands in the group of its pattern, after as many others as
      there were inputs with that pattern before it. */
  lemma {:induction false} InstancesInInputOrder(ps: seq<Placed>, k: nat)
    requires AllSingle(ps) && k < |ps|
    ensures
      var vs := InstancesFor(ps, ps[k].at.pattern);
      |vs| == EarlierThan(ps, |ps|, ps[k].at.pattern) && Earlier(ps, k) < |vs| && vs[Earlier(ps, k)] == ps[k].instances[0]
    decreases |ps|
  {
    var rest, x := ps[..|ps| - 1], ps[k].at.pattern;
    InstancesCount(ps, x);
    InstancesCount(rest, x);
    EarlierInPrefix(ps, |ps| - 1, k, x);
    EarlierInPrefix(ps, |ps| - 1, |ps| - 1, x);
    if k < |ps| - 1 {
      InstancesInInputOrder(rest, k);
    }
  }

  lemma {:induction false} InstancesCount(ps: seq<Placed>, x: Violation)
    requires AllSingle(ps)
    ensures |InstancesFor(ps, x)| == EarlierThan(ps, |ps|, x)
  {
    if ps != [] {
      InstancesCount(ps[..|ps| - 1], x);
      EarlierInPrefix(ps, |ps| - 1, |ps| - 1, x);
    }
  }
}
