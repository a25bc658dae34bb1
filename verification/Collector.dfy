/** MetricCollector.Collect: grouping the constraints of each template by name, and what
    the emitted counts add up to. */
module Collector {
  import opened Doop
  import opened Regroup
  import opened Contents
  import opened Filters
  import opened Slices
  import opened Clusters
  import opened Aggregate
  import opened Loading = Downloader
  import opened Metrics
  import opened Emission

  // ----- grouping by name -----

  function ByName(cs: seq<Constraint>, name: string): (r: seq<Constraint>)
    ensures forall i :: 0 <= i < |r| ==> r[i].name == name
  {
    if cs == [] then []
    else (if cs[0].name == name then [cs[0]] else []) + ByName(cs[1..], name)
  }

  lemma {:induction false} ByNameAppend(cs: seq<Constraint>, c: Constraint, name: string)
    ensures ByName(cs + [c], name) == ByName(cs, name) + if c.name == name then [c] else []
  {
    if cs == [] {
      assert [c][1..] == [] && [] + [c] == [c];
    } else {
      assert (cs + [c])[0] == cs[0] && (cs + [c])[1..] == cs[1..] + [c];
      ByNameAppend(cs[1..], c, name);
    }
  }

  ghost predicate GroupedByName(m: map<string, seq<Constraint>>, cs: seq<Constraint>) {
    && (forall c :: c in cs ==> c.name in m)
    && (forall name :: name in m ==> m[name] == ByName(cs, name))
  }

  method GroupByName(cs: seq<Constraint>) returns (m: map<string, seq<Constraint>>)
    ensures GroupedByName(m, cs)
  {
    hide ByName, GroupedByName;
    m := map[];
    NoName(cs[..0]);
    for i := 0 to |cs|
      invariant GroupedByName(m, cs[..i])
      invariant forall name :: name !in m ==> ByName(cs[..i], name) == []
    {
      NextName(m, cs[..i], cs[i]);
      assert cs[..i + 1] == cs[..i] + [cs[i]];
      m := m[cs[i].name := (if cs[i].name in m then m[cs[i].name] else []) + [cs[i]]];
    }
    assert cs[..|cs|] == cs;
  }

  lemma NoName(cs: seq<Constraint>)
    requires cs == []
    ensures GroupedByName(map[], cs) && forall name :: ByName(cs, name) == []
  {
  }

  lemma NextName(m: map<string, seq<Constraint>>, cs: seq<Constraint>, c: Constraint)
    requires GroupedByName(m, cs) && forall name :: name !in m ==> ByName(cs, name) == []
    ensures
      var after := m[c.name := (if c.name in m then m[c.name] else []) + [c]];
      GroupedByName(after, cs + [c]) && forall name :: name !in after ==> ByName(cs + [c], name) == []
  {
    hide ByName;
    forall name
      ensures ByName(cs + [c], name) == ByName(cs, name) + if c.name == name then [c] else []
    {
      ByNameAppend(cs, c, name);
    }
  }

  ghost function NameAmong(names: set<string>): GroupKey -> bool {
    (k: GroupKey) => k.name in names
  }

  ghost function RawNameAmong(names: set<string>): InstanceKey -> bool {
    (k: InstanceKey) => k.group.name in names
  }

  /** The constraints of one name account for exactly the keys of that name. */
  lemma {:induction false} TotalsByName(oidKeys: seq<string>, kind: string, cs: seq<Constraint>, name: string)
    ensures Advanced(multiset{}, GroupTotals(oidKeys, FlatConstraints(kind, ByName(cs, name))),
      GroupTotals(oidKeys, FlatConstraints(kind, cs)), NameAmong({name}))
    ensures Advanced(multiset{}, InstanceTotals(oidKeys, FlatConstraints(kind, ByName(cs, name))),
      InstanceTotals(oidKeys, FlatConstraints(kind, cs)), RawNameAmong({name}))
  {
    hide GroupTotals, InstanceTotals, FlatConstraint;
    if cs == [] {
      NoTotals(oidKeys);
    } else {
      TotalsByName(oidKeys, kind, cs[1..], name);
      var flat := FlatConstraint(kind, cs[0]);
      TotalsAppend(oidKeys, flat, FlatConstraints(kind, cs[1..]));
      TotalsOfOne(oidKeys, kind, cs[0]);
      if cs[0].name == name {
        var rest := ByName(cs[1..], name);
        assert ByName(cs, name) == [cs[0]] + rest && ([cs[0]] + rest)[1..] == rest;
        TotalsAppend(oidKeys, flat, FlatConstraints(kind, rest));
      } else {
        assert ByName(cs, name) == ByName(cs[1..], name);
      }
    }
  }

  lemma NoTotals(oidKeys: seq<string>)
    ensures GroupTotals(oidKeys, []) == multiset{} && InstanceTotals(oidKeys, []) == multiset{}
  {
  }

  lemma TotalsOfOne(oidKeys: seq<string>, kind: string, c: Constraint)
    ensures forall k :: k in GroupTotals(oidKeys, FlatConstraint(kind, c)) ==> k.kind == kind && k.name == c.name
    ensures forall k :: k in InstanceTotals(oidKeys, FlatConstraint(kind, c)) ==> k.group.kind == kind && k.group.name == c.name
  {
    TotalsOfConstraints(oidKeys, FlatConstraint(kind, c), kind, {c.name});
  }

  // ----- emission, per template and for the whole report -----

  ghost predicate Unfit(oidKeys: seq<string>, ps: seq<Placed>) {
    !AllFit(oidKeys, GroupTotals(oidKeys, ps))
  }

  /** Progress through the names of one template. */
  ghost predicate NamesDone(oidKeys: seq<string>, ps: seq<Placed>, names: set<string>,
      raw: seq<Metric>, rawKeys: seq<InstanceKey>, rawDone: multiset<InstanceKey>,
      grouped: seq<Metric>, groupedKeys: seq<GroupKey>, groupedDone: multiset<GroupKey>)
  {
    && Emits(raw, rawKeys, RawLabels, rawDone)
    && Emits(grouped, groupedKeys, GroupedLabels, groupedDone)
    && Advanced(multiset{}, rawDone, InstanceTotals(oidKeys, ps), RawNameAmong(names))
    && Advanced(multiset{}, groupedDone, GroupTotals(oidKeys, ps), NameAmong(names))
    && forall k :: k in GroupTotals(oidKeys, ps) && k.name in names ==> Fits(oidKeys, k)
  }

  /** What emitting one name's metrics adds. */
  lemma NextNameDone(oidKeys: seq<string>, kind: string, cs: seq<Constraint>, names: set<string>, name: string,
      raw: seq<Metric>, rawKeys: seq<InstanceKey>, rawDone: multiset<InstanceKey>,
      grouped: seq<Metric>, groupedKeys: seq<GroupKey>, groupedDone: multiset<GroupKey>,
      raw': seq<Metric>, rawKeys': seq<InstanceKey>, grouped': seq<Metric>, groupedKeys': seq<GroupKey>)
    requires NamesDone(oidKeys, FlatConstraints(kind, cs), names, raw, rawKeys, rawDone, grouped, groupedKeys, groupedDone)
    requires name !in names
    requires Emitted(oidKeys, FlatConstraints(kind, ByName(cs, name)), raw', rawKeys', grouped', groupedKeys')
    requires !Unfit(oidKeys, FlatConstraints(kind, ByName(cs, name)))
    ensures NamesDone(oidKeys, FlatConstraints(kind, cs), names + {name}, raw + raw', rawKeys + rawKeys',
      rawDone + InstanceTotals(oidKeys, FlatConstraints(kind, ByName(cs, name))), grouped + grouped', groupedKeys + groupedKeys',
      groupedDone + GroupTotals(oidKeys, FlatConstraints(kind, ByName(cs, name))))
  {
    hide Emits, Fits, GroupTotals, InstanceTotals, FlatConstraints, ByName;
    var one := FlatConstraints(kind, ByName(cs, name));
    TotalsByName(oidKeys, kind, cs, name);
    EmitsTogether(raw, rawKeys, rawDone, raw', rawKeys', InstanceTotals(oidKeys, one), RawLabels);
    EmitsTogether(grouped, groupedKeys, groupedDone, grouped', groupedKeys', GroupTotals(oidKeys, one), GroupedLabels);
  }

  lemma UnfitName(oidKeys: seq<string>, kind: string, cs: seq<Constraint>, name: string)
    requires Unfit(oidKeys, FlatConstraints(kind, ByName(cs, name)))
    ensures Unfit(oidKeys, FlatConstraints(kind, cs))
  {
    hide Fits, GroupTotals, InstanceTotals, FlatConstraints, ByName;
    var k :| k in GroupTotals(oidKeys, FlatConstraints(kind, ByName(cs, name))) && !Fits(oidKeys, k);
    TotalsByName(oidKeys, kind, cs, name);
  }

  lemma AllNamesDone(oidKeys: seq<string>, kind: string, cs: seq<Constraint>, names: set<string>,
      raw: seq<Metric>, rawKeys: seq<InstanceKey>, rawDone: multiset<InstanceKey>,
      grouped: seq<Metric>, groupedKeys: seq<GroupKey>, groupedDone: multiset<GroupKey>)
    requires NamesDone(oidKeys, FlatConstraints(kind, cs), names, raw, rawKeys, rawDone, grouped, groupedKeys, groupedDone)
    requires forall c :: c in cs ==> c.name in names
    ensures Emitted(oidKeys, FlatConstraints(kind, cs), raw, rawKeys, grouped, groupedKeys)
    ensures !Unfit(oidKeys, FlatConstraints(kind, cs))
  {
    hide Emits, Fits, GroupTotals, InstanceTotals;
    var ps := FlatConstraints(kind, cs);
    NamesOfPlaced(kind, cs, names);
    TotalsOfConstraints(oidKeys, ps, kind, names);
    hide FlatConstraints;
    forall k
      ensures rawDone[k] == InstanceTotals(oidKeys, ps)[k]
    {
      assert RawNameAmong(names)(k) || k !in InstanceTotals(oidKeys, ps);
    }
    forall k
      ensures groupedDone[k] == GroupTotals(oidKeys, ps)[k]
    {
      assert NameAmong(names)(k) || k !in GroupTotals(oidKeys, ps);
    }
    assert rawDone == InstanceTotals(oidKeys, ps) && groupedDone == GroupTotals(oidKeys, ps);
  }

  lemma {:induction false} NamesOfPlaced(kind: string, cs: seq<Constraint>, names: set<string>)
    requires forall c :: c in cs ==> c.name in names
    ensures forall i :: 0 <= i < |FlatConstraints(kind, cs)| ==>
      FlatConstraints(kind, cs)[i].at.kind == kind && FlatConstraints(kind, cs)[i].at.name in names
  {
    if cs != [] {
      assert cs[0] in cs && forall c :: c in cs[1..] ==> c in cs;
      NamesOfPlaced(kind, cs[1..], names);
    }
  }

  lemma NoNameDone(oidKeys: seq<string>, ps: seq<Placed>)
    ensures NamesDone(oidKeys, ps, {}, [], [], multiset{}, [], [], multiset{})
  {
  }

  /** The loop over the constraint names of one template. */
  method CollectTemplate(t: Template, oidKeys: seq<string>)
    returns (raw: seq<Metric>, grouped: seq<Metric>, ghost rawKeys: seq<InstanceKey>, ghost groupedKeys: seq<GroupKey>, panicked: bool)
    ensures panicked <==> Unfit(oidKeys, FlatTemplate(t))
    ensures !panicked ==> Emitted(oidKeys, FlatTemplate(t), raw, rawKeys, grouped, groupedKeys)
  {
    hide NamesDone, Emitted, ByName, AllFit, FlatConstraints;
    var byName := GroupByName(t.constraints);
    var todo := byName.Keys;
    ghost var seen: set<string> := {};
    ghost var rawDone, groupedDone := multiset{}, multiset{};
    raw, grouped, rawKeys, groupedKeys := [], [], [], [];
    NoNameDone(oidKeys, FlatTemplate(t));
    while todo != {}
      invariant todo <= byName.Keys && forall x :: x in seen <==> x in byName && x !in todo
      invariant NamesDone(oidKeys, FlatTemplate(t), seen, raw, rawKeys, rawDone, grouped, groupedKeys, groupedDone)
      decreases |todo|
    {
      var name :| name in todo;
      var raw', grouped';
      ghost var rawKeys', groupedKeys';
      raw', grouped', rawKeys', groupedKeys', panicked :=
        CountViolationsForConstraint(t.kind, name, byName[name], oidKeys);
      if panicked {
        UnfitName(oidKeys, t.kind, t.constraints, name);
        return;
      }
      NextNameDone(oidKeys, t.kind, t.constraints, seen, name, raw, rawKeys, rawDone, grouped, groupedKeys, groupedDone,
        raw', rawKeys', grouped', groupedKeys');
      ghost var one := FlatConstraints(t.kind, byName[name]);
      rawDone, groupedDone := rawDone + InstanceTotals(oidKeys, one), groupedDone + GroupTotals(oidKeys, one);
      raw, grouped, rawKeys, groupedKeys := raw + raw', grouped + grouped', rawKeys + rawKeys', groupedKeys + groupedKeys';
      todo, seen := todo - {name}, seen + {name};
    }
    panicked := false;
    AllNamesDone(oidKeys, t.kind, t.constraints, seen, raw, rawKeys, rawDone, grouped, groupedKeys, groupedDone);
  }

  lemma {:induction false} KindsOfPlaced(ts: seq<Template>, kind: string)
    requires forall t :: t in ts ==> t.kind != kind
    ensures forall p :: p in FlatTemplates(ts) ==> p.at.kind != kind
  {
    if ts != [] {
      assert ts[0] in ts && forall t :: t in ts[1..] ==> t in ts;
      FlatConstraintsCleared(ts[0].kind, ts[0].constraints);
      KindsOfPlaced(ts[1..], kind);
    }
  }

  lemma {:induction false} TotalsAvoidKind(oidKeys: seq<string>, ps: seq<Placed>, kind: string)
    requires forall p :: p in ps ==> p.at.kind != kind
    ensures forall k :: k in GroupTotals(oidKeys, ps) ==> k.kind != kind
    ensures forall k :: k in InstanceTotals(oidKeys, ps) ==> k.group.kind != kind
  {
    if ps != [] {
      assert ps[0] in ps && forall p :: p in ps[1..] ==> p in ps;
      TotalsAvoidKind(oidKeys, ps[1..], kind);
      InstancesUnderKey(KeyOf(oidKeys, ps[0].at), ps[0].instances);
    }
  }

  /** Different templates never share a key. */
  lemma NextTemplateDone(oidKeys: seq<string>, ts: seq<Template>, t: Template,
      raw: seq<Metric>, rawKeys: seq<InstanceKey>, grouped: seq<Metric>, groupedKeys: seq<GroupKey>,
      raw': seq<Metric>, rawKeys': seq<InstanceKey>, grouped': seq<Metric>, groupedKeys': seq<GroupKey>)
    requires forall u :: u in ts ==> u.kind != t.kind
    requires Emitted(oidKeys, FlatTemplates(ts), raw, rawKeys, grouped, groupedKeys)
    requires Emitted(oidKeys, FlatTemplate(t), raw', rawKeys', grouped', groupedKeys')
    ensures Emitted(oidKeys, FlatTemplates(ts + [t]), raw + raw', rawKeys + rawKeys', grouped + grouped', groupedKeys + groupedKeys')
  {
    FlatTemplatesAppend(ts, [t]);
    FlatTemplatesOne(t);
    FlatConstraintsCleared(t.kind, t.constraints);
    var before, one := FlatTemplates(ts), FlatTemplate(t);
    hide Emits, GroupTotals, InstanceTotals, FlatTemplates, FlatTemplate, FlatConstraints;
    TotalsAppend(oidKeys, before, one);
    KindsOfPlaced(ts, t.kind);
    TotalsAvoidKind(oidKeys, before, t.kind);
    TotalsOfTemplate(oidKeys, t);
    EmitsTogether(raw, rawKeys, InstanceTotals(oidKeys, before), raw', rawKeys', InstanceTotals(oidKeys, one), RawLabels);
    EmitsTogether(grouped, groupedKeys, GroupTotals(oidKeys, before), grouped', groupedKeys', GroupTotals(oidKeys, one), GroupedLabels);
  }

  lemma TotalsOfTemplate(oidKeys: seq<string>, t: Template)
    ensures forall k :: k in GroupTotals(oidKeys, FlatTemplate(t)) ==> k.kind == t.kind
    ensures forall k :: k in InstanceTotals(oidKeys, FlatTemplate(t)) ==> k.group.kind == t.kind
  {
    var names := set c | c in t.constraints :: c.name;
    NamesOfPlaced(t.kind, t.constraints, names);
    TotalsOfConstraints(oidKeys, FlatTemplate(t), t.kind, names);
  }

  lemma UnfitAppend(oidKeys: seq<string>, a: seq<Placed>, b: seq<Placed>)
    ensures Unfit(oidKeys, a + b) <==> Unfit(oidKeys, a) || Unfit(oidKeys, b)
  {
    hide Fits, GroupTotals;
    TotalsAppend(oidKeys, a, b);
  }

  lemma UnfitTemplate(oidKeys: seq<string>, ts: seq<Template>, i: nat)
    requires i < |ts|
    ensures Unfit(oidKeys, FlatTemplate(ts[i])) ==> Unfit(oidKeys, FlatTemplates(ts))
    ensures Unfit(oidKeys, FlatTemplates(ts[..i + 1]))
      <==> Unfit(oidKeys, FlatTemplates(ts[..i])) || Unfit(oidKeys, FlatTemplate(ts[i]))
  {
    hide Unfit;
    FlatTemplatesSplit(ts, i, ts[i]);
    assert ts[i := ts[i]] == ts;
    UnfitAppend(oidKeys, FlatTemplates(ts[..i]) + FlatTemplate(ts[i]), FlatTemplates(ts[i + 1..]));
    UnfitAppend(oidKeys, FlatTemplates(ts[..i]), FlatTemplate(ts[i]));
    assert ts[..i + 1] == ts[..i] + [ts[i]];
    FlatTemplatesAppend(ts[..i], [ts[i]]);
    FlatTemplatesOne(ts[i]);
  }

  lemma NothingEmitted(oidKeys: seq<string>)
    ensures Emitted(oidKeys, FlatTemplates([]), [], [], [], [])
    ensures !Unfit(oidKeys, FlatTemplates([]))
  {
  }

  /** The loop over the templates of the aggregate. */
  method CollectTemplates(ts: seq<Template>, oidKeys: seq<string>)
    returns (raw: seq<Metric>, grouped: seq<Metric>, ghost rawKeys: seq<InstanceKey>, ghost groupedKeys: seq<GroupKey>, panicked: bool)
    requires forall i, j :: 0 <= i < j < |ts| ==> ts[i].kind != ts[j].kind
    ensures panicked <==> Unfit(oidKeys, FlatTemplates(ts))
    ensures !panicked ==> Emitted(oidKeys, FlatTemplates(ts), raw, rawKeys, grouped, groupedKeys)
  {
    hide Emitted, Unfit, FlatTemplates, FlatTemplate;
    raw, grouped, rawKeys, groupedKeys := [], [], [], [];
    NothingEmitted(oidKeys);
    assert ts[..0] == [];
    for i := 0 to |ts|
      invariant !Unfit(oidKeys, FlatTemplates(ts[..i]))
      invariant Emitted(oidKeys, FlatTemplates(ts[..i]), raw, rawKeys, grouped, groupedKeys)
    {
      var raw', grouped';
      ghost var rawKeys', groupedKeys';
      UnfitTemplate(oidKeys, ts, i);
      raw', grouped', rawKeys', groupedKeys', panicked := CollectTemplate(ts[i], oidKeys);
      if panicked {
        return;
      }
      assert ts[..i + 1] == ts[..i] + [ts[i]];
      NextTemplateDone(oidKeys, ts[..i], ts[i], raw, rawKeys, grouped, groupedKeys, raw', rawKeys', grouped', groupedKeys');
      raw, grouped, rawKeys, groupedKeys := raw + raw', grouped + grouped', rawKeys + rawKeys', groupedKeys + groupedKeys';
    }
    assert ts[..|ts|] == ts;
    panicked := false;
  }

  /** What one collection sends for the aggregate of one visiting order. */
  ghost predicate CollectedFrom(reports: ClusterReports, order: seq<string>, oidKeys: seq<string>,
      raw: seq<Metric>, grouped: seq<Metric>, panicked: bool)
    requires forall x :: x in order ==> x in reports
  {
    var ps := FlatTemplates(Aggregated(reports, order, EVERYTHING));
    && (panicked <==> Unfit(oidKeys, ps))
    && (!panicked ==> exists rawKeys, groupedKeys :: Emitted(oidKeys, ps, raw, rawKeys, grouped, groupedKeys))
  }

  method CollectReports(reports: StoredReports, oidKeys: seq<string>)
    returns (raw: seq<Metric>, grouped: seq<Metric>, panicked: bool)
    requires ValidReports(reports)
    ensures exists order ::
      IsOrdering(order, reports.Keys) && CollectedFrom(old(ViewReports(reports)), order, oidKeys, raw, grouped, panicked)
  {
    hide Emitted, Unfit, FlatTemplates, Aggregated, FlatClusters, ContentOf, MatchingIdentities;
    hide AggregatedReport.Valid, AggregatedReport.Arrays, AggregatedReport.View;
    ghost var cached, view := ReportArrays(reports), ViewReports(reports);
    var fs := BuildFilterSet(map[]);
    var fullReport;
    ghost var order, rawKeys, groupedKeys;
    fullReport, order := AggregateReports(reports, fs);
    assert ViewReports(reports) == view;
    AggregatedContent(view, order, fs);
    var templates := fullReport.View();
    raw, grouped, rawKeys, groupedKeys, panicked := CollectTemplates(templates, oidKeys);
    assert CollectedFrom(view, order, oidKeys, raw, grouped, panicked);
    assert ViewReports(reports) == view;
  }

  /** What a failed download leaves: no reports. */
  function Available(cache: Cache, listing: Listing, pulls: seq<Pull>): ClusterReports
    requires listing.Listed? ==> |pulls| == |listing.infos|
  {
    if CallSucceeds(cache, listing, pulls) then Payloads(cache, listing.infos, pulls) else map[]
  }

  /** Whether some visiting order accounts for what was sent. */
  ghost predicate Collected(reports: ClusterReports, oidKeys: seq<string>, raw: seq<Metric>, grouped: seq<Metric>, panicked: bool) {
    exists order :: IsOrdering(order, reports.Keys) && CollectedFrom(reports, order, oidKeys, raw, grouped, panicked)
  }

  /** Downloads the reports, as requests do, and counts what there is; an error is only logged. */
  method Collect(d: Downloader, listing: Listing, pulls: seq<Pull>, oidKeys: seq<string>)
    returns (raw: seq<Metric>, grouped: seq<Metric>, panicked: bool)
    requires d.Valid() && (listing.Listed? ==> |pulls| == |listing.infos|)
    modifies d, d.objects.Values
    ensures d.Valid() && fresh(d.objects.Values - old(d.objects.Values))
    ensures d.Cache() == AfterCall(old(d.Cache()), listing, pulls)
    ensures Collected(Available(old(d.Cache()), listing, pulls), oidKeys, raw, grouped, panicked)
  {
    hide Downloader.Valid, Downloader.Cache, Downloader.Arrays, AfterCall, CallSucceeds, Payloads, CollectedFrom, IsOrdering;
    hide ReportArrays, ValidReports, ViewReports;
    var outcome := d.GetReports(listing, pulls);
    var reports: StoredReports := map[];
    NoReports();
    if outcome.Reports? {
      reports := outcome.reports;
    }
    d.ArraysAllocated();
    raw, grouped, panicked := CollectReports(reports, oidKeys);
  }
}
