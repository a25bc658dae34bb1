/** Inputs on which the code does not do what it is meant to do. */
module Counterexamples {
  import opened Doop
  import opened Regroup
  import opened Contents
  import opened Filters
  import opened Clusters
  import opened Placeholders
  import opened Rules
  import opened Process
  import opened Pipeline
  import opened Ties
  import opened Metrics
  import opened Emission
  import opened Collector

  // ----- the metrics without identity labels -----

  /** The default configuration has no identity labels; with it, collecting from a single
      cluster with a single group panics. */
  lemma DefaultLabelsPanic(raw: seq<Metric>, grouped: seq<Metric>, panicked: bool)
    requires CollectedFrom(map["one" := SampleReport("error")], ["one"], [], raw, grouped, panicked)
    ensures panicked
  {
    hide Emitted, Unfit, FlatTemplates, Aggregated;
    var reports := map["one" := SampleReport("error")];
    OneSample(reports, "one", "error");
    AnyGroupPanics(FlatTemplates(Aggregated(reports, ["one"], EVERYTHING)));
  }

  lemma AnyGroupPanics(ps: seq<Placed>)
    requires ps != []
    ensures Unfit([], ps)
  {
    FitsExactly([], ps[0].at);
    assert KeyOf([], ps[0].at) in GroupTotals([], ps);
  }

  lemma OneSample(reports: ClusterReports, x: string, s: string)
    requires x in reports && reports[x] == SampleReport(s)
    ensures |FlatTemplates(Aggregated(reports, [x], EVERYTHING))| == 1
  {
    SampleFlat(s);
    var p := FlatCluster(reports[x], EVERYTHING);
    assert [x][1..] == [];
    assert FlatClusters(reports, [x], EVERYTHING) == p + [];
    assert p[1..] == [] && p + [] == p;
    SampleFirst(s, p[0]);
    assert Fold(PutTemplate, [], p) == Fold(PutTemplate, PutTemplate([], p[0]), p[1..]);
    FlatTemplatesOne(ReportForTemplate("K", [Sample(s)]));
    FlatConstraintsOne("K", Sample(s));
  }

  // ----- a merging rule that fills an empty field -----

  /** Sets the namespace of every violation with a name to "ns". */
  function FillNamespace(): Rule {
    Rule(map[], "name", name => Match([name]), map["namespace" := "ns"])
  }

  const FILLING := Configuration([], [FillNamespace()])
  const UNNAMESPACED := Violation("Namespace", "n", "", "no quota", map[], "")

  lemma DecodeNamespace(data: Attributes, v: Violation, namespace: string)
    ensures Decode(data["namespace" := namespace], v) == Decode(data, v).(namespace := namespace)
  {
    hide IdentityAttribute;
    AttributesAreDistinct();
    FieldNamesDiffer();
    var after := data["namespace" := namespace];
    forall key
      ensures At(after, IdentityAttribute(key)) == At(data, IdentityAttribute(key))
    {
    }
    assert At(after, "kind") == At(data, "kind") && At(after, "name") == At(data, "name");
    assert At(after, "message") == At(data, "message");
  }

  lemma FillNamespaceApplies(data: Attributes)
    requires "name" in data
    ensures ApplyAll([FillNamespace()], data) == data["namespace" := "ns"]
  {
    hide Expand;
    var rule := FillNamespace();
    PlainTextStays("ns", [data["name"]]);
    assert [rule][1..] == [] && ApplyAll([], Apply(rule, data)) == Apply(rule, data);
    assert Applies(rule, data);
    assert Replacements(rule.target, [data["name"]]) == map["namespace" := "ns"];
    assert data + map["namespace" := "ns"] == data["namespace" := "ns"];
  }

  lemma NothingProcessed(v: Violation)
    ensures Processed(FILLING, v) == v
  {
    hide Encode, Decode;
    DecodeEncode(v);
    assert ApplyAll([], Encode(v)) == Encode(v);
  }

  lemma FilledPattern(v: Violation)
    ensures Processed(FILLING, v) == v && PatternFor(FILLING, v) == v.(namespace := "ns")
  {
    NothingProcessed(v);
    EncodeFields(v);
    hide Encode, Decode, FillNamespace, ApplyAll, Processed;
    DecodeEncode(v);
    FillNamespaceApplies(Encode(v));
    DecodeNamespace(Encode(v), v, "ns");
  }

  const LOSSY := Finding(FILLING, "one", "K", "c", Metadata("", "", "", "", ""), UNNAMESPACED)

  lemma LossyFinding()
    ensures !Faithful(LOSSY) && LOSSY.Actual() != LOSSY.Expected()
  {
    FilledPattern(UNNAMESPACED);
    hide PatternFor, Processed;
    assert LOSSY.Actual().violation.namespace == "ns" && LOSSY.Expected().violation.namespace == "";
  }

  function LossyReport(): ClusterReport {
    Report(map[], [ReportForTemplate("K", [ReportForConstraint("c", LOSSY.metadata, [UNNAMESPACED], [])])])
  }

  /** A single violation without a namespace, in a single cluster, comes out of the pipeline
      with the namespace of its pattern. */
  lemma PipelineCanLoseInformation(raws: ClusterReports, cfgs: Configurations)
    requires raws == map["one" := LossyReport()] && cfgs == map["one" := FILLING]
    ensures RestoredAll(ContentOfTree(Aggregated(LoadedReports(raws, cfgs), ["one"], EVERYTHING)).entries)
      != multiset(ExpectedAll([LOSSY]))
  {
    hide Aggregated, ContentOfTree, RestoredAll, LoadedReports, Faithful, AllFindings, LossyReport, LOSSY, ExpectedAll, ActualAll;
    OnlyLossyFinding(raws, cfgs);
    LossyFinding();
    LossyInput(raws);
    hide IsOrdering, Unprocessed;
    PipelineIsFaithful(raws, cfgs, ["one"], EVERYTHING);
    assert [LOSSY][0] == LOSSY;
  }

  lemma LossyInput(raws: ClusterReports)
    requires raws == map["one" := LossyReport()]
    ensures IsOrdering(["one"], raws.Keys) && forall x :: x in raws ==> Unprocessed(raws[x])
  {
  }

  lemma OnlyLossyFinding(raws: ClusterReports, cfgs: Configurations)
    requires raws == map["one" := LossyReport()] && cfgs == map["one" := FILLING]
    ensures AllFindings(raws, cfgs, ["one"], EVERYTHING) == [LOSSY]
  {
    hide FILLING, UNNAMESPACED;
    var ts := LossyReport().templates;
    var cs := ts[0].constraints;
    assert ConstraintFindings(FILLING, "one", "K", cs[0]) == [LOSSY];
    assert cs[1..] == [] && ts[1..] == [] && ["one"][1..] == [] && [LOSSY][1..] == [];
    assert ConstraintsFindings(FILLING, "one", "K", cs) == [LOSSY] + [];
    assert TemplatesFindings(FILLING, "one", ts) == [LOSSY] + [] + [];
    assert Matching([LOSSY], EVERYTHING) == [LOSSY] + Matching([], EVERYTHING);
    assert ClusterFindings(FILLING, "one", LossyReport(), EVERYTHING) == [LOSSY];
  }
}
