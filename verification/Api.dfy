/** Answering requests for the aggregated report from the cached cluster reports. */
module Api {
  import opened Doop
  import opened Contents
  import opened Filters
  import opened Slices
  import opened Clusters
  import opened Loading = Downloader
  import opened Aggregate
  import opened Canonical
  import opened Canonicity
  import opened SortReports
  import opened Pipeline

  /** A sorted aggregate, for some order of visiting the clusters. */
  ghost predicate IsAnswer(reports: ClusterReports, f: FilterSet, answer: seq<Template>) {
    exists order :: IsOrdering(order, reports.Keys) && TreeSortedInto(Aggregated(reports, order, f), answer)
  }

  /** The sorted aggregate under the filter of the query. No modifies clause: no report is
      ever written. */
  method AggregateAndSort(reports: StoredReports, query: Query) returns (result: AggregatedReport)
    requires ValidReports(reports)
    ensures fresh(result) && result.Valid() && fresh(result.Arrays())
    ensures AnswersQuery(old(ViewReports(reports)), query, result.View(), result.clusterIdentities)
  {
    hide TreeSortedInto, Aggregated, MatchingIdentities, IsFilterOf;
    hide AggregatedReport.Valid, AggregatedReport.View, AggregatedReport.Arrays;
    ghost var cached, view := ReportArrays(reports), ViewReports(reports);
    var f := BuildFilterSet(query);
    ghost var order;
    assert ViewReports(reports) == view;
    result, order := AggregateReports(reports, f);
    assert ViewReports(reports) == view;
    assert cached !! result.Arrays();
    SortReport(result);
    assert IsAnswer(view, f, result.View());
  }

  ghost predicate AnswersQuery(reports: ClusterReports, query: Query, answer: seq<Template>, identities: map<string, Identity>) {
    exists f :: IsFilterOf(query, f) && IsAnswer(reports, f, answer) && identities == MatchingIdentities(reports, f)
  }

  // ----- requests -----

  /** A request, with what listing the store and downloading from it gives at that time. */
  datatype Request = Request(query: Query, listing: Listing, pulls: seq<Pull>) {
    ghost predicate Valid() {
      listing.Listed? ==> |pulls| == |listing.infos|
    }
  }

  datatype Response = Violations(report: AggregatedReport) | Error

  /** The answer for the reports that this cache leads to. */
  ghost predicate Answers(cache: Cache, q: Request, answer: seq<Template>, identities: map<string, Identity>)
    requires q.Valid() && CallSucceeds(cache, q.listing, q.pulls)
  {
    AnswersQuery(Payloads(cache, q.listing.infos, q.pulls), q.query, answer, identities)
  }

  /** Only the cache itself is written: no array, so neither a report that was loaded before
      nor an earlier answer. */
  method HandleGetViolations(d: Downloader, q: Request) returns (response: Response)
    requires d.Valid() && q.Valid()
    modifies d, d.objects.Values
    ensures d.Valid() && fresh(d.objects.Values - old(d.objects.Values))
    ensures d.Cache() == AfterCall(old(d.Cache()), q.listing, q.pulls)
    ensures response.Violations? <==> CallSucceeds(old(d.Cache()), q.listing, q.pulls)
    ensures response.Violations? ==> fresh(response.report) && response.report.Valid() && fresh(response.report.Arrays())
    ensures response.Violations? ==> Answers(old(d.Cache()), q, response.report.View(), response.report.clusterIdentities)
  {
    hide Downloader.Valid, Downloader.Cache, Downloader.Arrays, AfterCall, CallSucceeds, Payloads, AnswersQuery;
    hide ValidReports, ViewReports, AggregatedReport.Valid, AggregatedReport.View, AggregatedReport.Arrays;
    var outcome := d.GetReports(q.listing, q.pulls);
    if outcome.Failed? {
      return Error;
    }
    d.ArraysAllocated();
    var result := AggregateAndSort(outcome.reports, q.query);
    response := Violations(result);
  }

  /** The cache before and after a request, and the response, as they should be. */
  ghost predicate Served(before: Cache, q: Request, r: Response, after: Cache)
    requires q.Valid()
    reads if r.Violations? then {r.report} else {}
    reads if r.Violations? then r.report.Arrays() else {}
  {
    && after == AfterCall(before, q.listing, q.pulls)
    && (r.Violations? <==> CallSucceeds(before, q.listing, q.pulls))
    && (r.Violations? ==> r.report.Valid() && Answers(before, q, r.report.View(), r.report.clusterIdentities))
  }

  /** Every request is answered from the cache as the requests before have left it, and no
      answer is changed by a later request. */
  method ServeRequests(d: Downloader, qs: seq<Request>) returns (rs: seq<Response>, ghost caches: seq<Cache>)
    requires d.Valid() && forall k :: 0 <= k < |qs| ==> qs[k].Valid()
    modifies d, d.objects.Values
    ensures d.Valid()
    ensures |rs| == |qs| && |caches| == |qs| + 1 && caches[0] == old(d.Cache()) && caches[|qs|] == d.Cache()
    ensures forall k :: 0 <= k < |qs| ==> Served(caches[k], qs[k], rs[k], caches[k + 1])
  {
    hide Downloader.Valid, Downloader.Cache, AfterCall, CallSucceeds, Answers;
    hide AggregatedReport.Valid, AggregatedReport.View, AggregatedReport.Arrays;
    rs, caches := [], [d.Cache()];
    ghost var written: set<array<Violation>> := {};
    for i := 0 to |qs|
      invariant d.Valid() && fresh(d.objects.Values - old(d.objects.Values))
      invariant |rs| == i && |caches| == i + 1 && caches[0] == old(d.Cache()) && caches[i] == d.Cache()
      invariant forall k :: 0 <= k < i && rs[k].Violations? ==> rs[k].report.Arrays() <= written
      invariant forall k :: 0 <= k < i ==> Served(caches[k], qs[k], rs[k], caches[k + 1])
    {
      d.NoStates(written);
      var r := HandleGetViolations(d, qs[i]);
      written := written + if r.Violations? then r.report.Arrays() else {};
      rs, caches := rs + [r], caches + [d.Cache()];
    }
  }

  /** An answer says exactly what the matching parts of the reports say, is well formed and in order. */
  lemma AnswerContent(reports: ClusterReports, f: FilterSet, answer: seq<Template>, order: seq<string>)
    requires IsAnswer(reports, f, answer) && IsOrdering(order, reports.Keys)
    ensures ContentOfTree(answer) == ContentOf(FlatClusters(reports, order, f))
    ensures WellFormed(answer) && InOrder(answer) && Ascending(answer)
  {
    hide Ascending;
    InOrderIsAscending(answer);
    hide TreeSortedInto, Aggregated, ContentOf, ContentOfTree, WellFormed, InOrder;
    var o :| IsOrdering(o, reports.Keys) && TreeSortedInto(Aggregated(reports, o, f), answer);
    AggregatedContent(reports, o, f);
    AggregatedContent(reports, order, f);
    OrderDoesNotMatter(reports, o, order, f);
    SortingRearranges(Aggregated(reports, o, f), answer);
  }

  /** Repeating a request gives the same answer when nothing ties. */
  lemma AnswersAgree(reports: ClusterReports, f: FilterSet, a: seq<Template>, b: seq<Template>, order: seq<string>)
    requires IsAnswer(reports, f, a) && IsAnswer(reports, f, b)
    requires IsOrdering(order, reports.Keys) && TieFree(ContentOf(FlatClusters(reports, order, f)))
    ensures a == b
  {
    hide TieFree, ContentOf, ContentOfTree, WellFormed, InOrder, IsAnswer;
    AnswerContent(reports, f, a, order);
    AnswerContent(reports, f, b, order);
    InOrderIsUnique(a, b);
  }

  /** End to end: expanding an answer gives exactly the matching processed violations, each
      under its cluster's name, if and only if no rule fills a field that the violation
      leaves empty. */
  lemma AnswersAreFaithful(raws: ClusterReports, cfgs: Configurations, order: seq<string>, f: FilterSet, answer: seq<Template>)
    requires raws.Keys <= cfgs.Keys && IsOrdering(order, raws.Keys)
    requires forall x :: x in raws ==> Unprocessed(raws[x])
    requires IsAnswer(LoadedReports(raws, cfgs), f, answer)
    ensures
      var findings := AllFindings(raws, cfgs, order, f);
      && RestoredAll(ContentOfTree(answer).entries) == multiset(ActualAll(findings))
      && (RestoredAll(ContentOfTree(answer).entries) == multiset(ExpectedAll(findings))
        <==> forall i :: 0 <= i < |findings| ==> Faithful(findings[i]))
  {
    hide IsAnswer, Aggregated, ContentOf, ContentOfTree, FlatClusters, AllFindings, RestoredAll, Faithful, LoadedReports, WellFormed, InOrder;
    LoadedReportsKeys(raws, cfgs);
    AnswerContent(LoadedReports(raws, cfgs), f, answer, order);
    AggregatedContent(LoadedReports(raws, cfgs), order, f);
    PipelineIsFaithful(raws, cfgs, order, f);
  }
}
