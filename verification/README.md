# The DOOP report pipeline

DOOP collects OPA Gatekeeper violations from many Kubernetes clusters. In every
cluster, doop-analyzer gathers violations, rewrites them by configured rules,
compresses them into groups (a pattern with instances that leave out what they share
with it) and uploads a report. doop-api caches these reports, merges them over all
clusters, filters, sorts and counts them. Each stage only regroups, compresses or
caches, so each stage has one plain specification: a flat list of placed groups and,
regardless of order, a set of addresses (kind, constraint, metadata, pattern) with a
multiset of instances at them.

The code is nested search-or-append loops over shared slices and maps, so the model is
imperative where the code is: slices are arrays with spare capacity, identity maps are
objects, map iteration is an arbitrary pick from the remaining keys. Each method is
proved equal to a function of values, and the properties are proved of that function.

| module | what it models |
|---|---|
| Text, Sorting, Slices | byte-order comparison, Join and Split, the contract of slices.SortFunc, slices in memory |
| Doop | violations, groups, reports; comparison and compression |
| Gather | message prefixes, leaving out what has no violations |
| Placeholders, Rules | placeholder expansion, the rule engine |
| Process, ProcessReports, GroupBy | processing and grouping in doop-analyzer |
| Decoding, Tagging, Downloader | loading and caching reports in memory |
| CacheProtocol, CacheCalls, CacheFreshness, CacheAtRest | concurrent calls on the cache: what every run keeps, single calls, freshness, calls whose objects do not change meanwhile |
| Regroup, Contents, Filters, Clusters, Aggregate | merging with filters |
| Canonical, Canonicity, Ties, Rearranging, SortReports | the canonical order, and equality up to order |
| Api, Queries, Pipeline | answers to requests, and that they are what the query asks for; the whole way from gathered violation to answer |
| Metrics, Tallies, Emission, Collector, Totals, LabelCounts | counting for Prometheus, and what each metric counts according to its labels |
| Normalize | normalization of YAML maps |
| Counterexamples | inputs on which the code does not do what it is meant to do |

## Where the code and its promises part

- The metrics panic whenever a group exists and no object identity label is configured,
  although doop-api/README.md:22 gives the empty list as the default: splitting the
  empty string yields one empty label. `Counterexamples.DefaultLabelsPanic` is a single
  cluster with a single group; `Totals.PanicsExactly` gives the exact condition.
- A failed pull is forgotten: the new metadata is stored before the download, so the
  next call returns the old (or an empty) payload as current.
  `CacheFreshness.FailedPullIsForgotten` and the run of `CacheFreshness.StaleAfterFailedPull`;
  `CacheFreshness.QuietCallRefinesDownloadAll` says for every state of every run exactly
  which objects come in an old version. A failure need not leave one behind when the store
  changes while a call is under way (`CacheFreshness.PoisonedButCurrent`); it does whenever
  objects change only while no call that has listed them is under way, however calls
  overlap (`CacheAtRest.BehindExactlyWhenPoisoned`).
- The sorted aggregate is the only result that any visiting order and any treatment of
  ties can give exactly when nothing ties; constraints
  tie when they share a name and differ in metadata, violations when they differ only in
  their identities. `Ties.CanonicalExactlyWithoutTies`, and `Ties.VisitingOrderCanShow`
  for two visiting orders with different results.
- Compression loses information exactly when a merging rule fills a field that is empty
  in the violation. `Doop.DifferenceIsLossless`, `Pipeline.PipelineIsFaithful`, and
  `Counterexamples.PipelineCanLoseInformation` for one rule and one violation.
- The placeholder `$10` is group 1 followed by a zero. `Placeholders.TenIsOneThenZero`.
- Maps that already have string keys are returned as they are, so a map with keys of any
  type below one survives normalization. `Normalize.HiddenMapSurvives`,
  `Normalize.CleanExactly`.

## Model

| member | source | states |
|---|---|---|
| `Pipeline.PipelineIsFaithful` | doop-api/aggregate.go:13-121 | For all clusters, configurations, filters and visiting orders, and gathered reports that have no groups yet: expanding every instance of the aggregate against its pattern gives exactly the multiset of matching violations as processed, each under its cluster's name, if and only if no finding has a field that its rules leave empty in the violation and filled in the pattern. |
| `Api.AnswersAreFaithful` | doop-api/api.go:58-59 | The same for every answer to a request: expanding the sorted, filtered answer gives exactly the matching processed violations, if and only if no finding is filled. |
| `Pipeline.ActualIsExpectedExactly` | internal/doop/violation.go:51-72 | Lossy compressions of different violations cannot cancel out: the multiset of expanded violations is the expected one only if every single expansion is exact. |
| `Pipeline.ClustersContent` | doop-analyzer/process.go:92-123 | The processed, compressed and tagged reports of all clusters have the contents of the matching findings, each standing for itself: grouping loses, duplicates and alters nothing. |
| `Counterexamples.PipelineCanLoseInformation` | internal/doop/violation.go:51-72 | One violation without a namespace and one merging rule that sets the namespace: the aggregate does not expand to the violation as processed. |
| `Contents.PutAllContent` | doop-api/aggregate.go:41-121 | Merging any list of groups into any tree adds exactly their addresses and instances. |
| `Contents.PutAllWellFormed` | doop-api/aggregate.go:41-121 | Merging keeps kinds unique, (name, metadata) unique per template, patterns unique per constraint, timestamps cleared, and leaves no template without constraint and no constraint without group, for arbitrary input. |
| `Contents.AggregateIsAFixpoint` | doop-api/aggregate.go:41-101 | Aggregating an aggregate again gives it back, element by element and in order. |
| `Contents.SingleReportIsKept` | doop-api/aggregate.go:41-101 | Aggregating one report unfiltered gives its lists back in order with only timestamps and ungrouped violations removed, if and only if that result is well formed. |
| `Regroup.PutWithinConstraint` | doop-api/aggregate.go:80-100 | Merging the groups of one constraint updates the constraint in place if present, appends it if absent, and does not create it when there is nothing to put. |
| `Regroup.PutWithinTemplate` | doop-api/aggregate.go:46-65 | The same for the constraints of one template. |
| `Slices.Append` | doop-api/aggregate.go:111 | append writes into the spare capacity exactly when that suffices and reallocates otherwise; either way the elements are the concatenation. |
| `Slices.Clone` | doop-api/aggregate.go:117-120 | A cloned slice has the same elements in an array of its own. |
| `Aggregate.VisitViolationGroup` | doop-api/aggregate.go:103-121 | In memory: a matching group is put into the constraint, others are not; only arrays of the target are written, and the new groups share no array with others. |
| `Aggregate.VisitConstraintReport` | doop-api/aggregate.go:68-101 | In memory: exactly the constraint's groups that pass all filters are put, timestamps cleared, and no constraint is created without a group. |
| `Aggregate.AggregatedReport.VisitTemplateReport` | doop-api/aggregate.go:41-66 | In memory: exactly the template's matching groups are put and no template is created without a constraint. |
| `Aggregate.AggregatedReport.VisitClusterReport` | doop-api/aggregate.go:30-39 | A cluster whose identity matches is recorded and its report merged; any other cluster changes nothing. |
| `Aggregate.AggregateReports` | doop-api/aggregate.go:13-23 | With the clusters visited in any order, the result is the aggregate for that order, in new arrays only; no array of a report is written. |
| `Clusters.AggregatedContent` | doop-api/aggregate.go:13-121 | The aggregate is well formed and says exactly what the matching parts of the reports say. |
| `Clusters.OrderDoesNotMatter` | doop-api/aggregate.go:18-20 | Any two orders of visiting the clusters give the same contents. |
| `Filters.BuildMapFilter` | doop-api/filter.go:32-40 | For any iteration order, the filter has exactly the query keys with the prefix, without it, each with its values. |
| `Filters.BuildFilterSet` | doop-api/filter.go:21-30 | Each matcher reads its own query key or prefix; the empty query gives the filter that lets everything through. |
| `Filters.FilterRestricts` | doop-api/filter.go:42-85 | Filtering keeps exactly the addresses that pass and all instances at them. |
| `Filters.FilteringCommutes` | doop-api/aggregate.go:41-107 | For any list of groups: filtering before merging says the same as merging everything and then dropping what does not match and what became empty, and both are well formed, so no emptied parent is left. |
| `Clusters.FilteringTheAggregate` | doop-api/aggregate.go:13-107 | Aggregating reports with a filter says the same as aggregating the clusters whose identity matches without one, and then dropping what does not match and what became empty; both are well formed. |
| `Rearranging.FilteringCommutesUpToOrder` | doop-api/aggregate.go:41-107 | The two results of filtering a list of groups are equal up to the order of templates, constraints, groups and instances. |
| `Rearranging.FilteringTheAggregateUpToOrder` | doop-api/aggregate.go:13-107 | The same for the two ways of filtering an aggregate. |
| `Filters.TwoKinds` | doop-api/filter.go:80-85 | A filter of two different kinds gives the disjoint union of the two single results. |
| `Filters.TwoNames` | doop-api/filter.go:80-85 | The same for constraint names. |
| `Filters.TwoSeverities` | doop-api/filter.go:80-85 | The same for severities. |
| `Filters.TwoIdentityValues` | doop-api/filter.go:52-60 | The same for two values of one object identity key. |
| `Clusters.TwoClusterIdentityValues` | doop-api/filter.go:42-50 | Two values for one key of the cluster identity give the groups of both single results and the multiset sum of their instances. |
| `Doop.DifferenceIsLossless` | internal/doop/violation.go:51-72 | Expanding the compressed violation against the pattern restores it if and only if the pattern fills no field or identity that is empty in the violation. |
| `Doop.ExpansionGrows` | internal/doop/violation.go:51-72 | An expansion never has fewer filled fields than the original, and as many exactly when it is lossless. |
| `Doop.DifferenceFieldByField` | internal/doop/violation.go:51-72 | Field by field, and for the identity: the compressed violation is empty exactly where violation and pattern agree or the violation is empty, and otherwise keeps the field of the violation. |
| `Doop.DifferenceIsMinimal` | internal/doop/violation.go:51-72 | Nothing that expands to the violation has fewer fields than the compressed violation. |
| `Doop.RepresentableExactly` | internal/doop/violation.go:51-72 | Where compression loses information nothing else would do: something expands to the violation if and only if the pattern fills no field that is empty in it. |
| `Doop.CompressedIsMinimal` | internal/doop/violation.go:51-72 | Lossy or not, a compressed violation has the fewest fields among everything that expands to the same. |
| `Doop.CompareToIsEquality` | internal/doop/violation.go:40-94 | IsEqualTo is equality, and holds exactly when violations compare as 0 and their identities are equal. |
| `Doop.CompareToFlips` | internal/doop/violation.go:76-94 | Swapping the arguments of CompareTo flips its sign. |
| `Doop.CompareToIsTransitive` | internal/doop/violation.go:76-94 | CompareTo is transitive. |
| `Text.CompareIsDictionaryOrder` | internal/doop/report.go:42-44 | A string compares as smaller exactly when it is a proper prefix or has the smaller character at the first difference, as greater in the opposite case, and as 0 when equal. |
| `Doop.CompareToDecides` | internal/doop/violation.go:76-94 | The sign of CompareTo is that of the first difference in namespace, name, kind, message and cluster name, in this order. |
| `Doop.ClearedFieldByField` | doop-api/aggregate.go:68-78 | Only the audit timestamp is cleared. |
| `Sorting.SortFunc` | internal/doop/report.go:42-44 | The contract of slices.SortFunc: some sorted rearrangement, with nothing said about ties. |
| `SortReports.SortConstraint` | internal/doop/report.go:71-80 | In place: the groups are rearranged in order of their patterns and the instances of each sorted within their own array. |
| `SortReports.SortTemplate` | internal/doop/report.go:41-48 | The same for the constraints of a template, by name. |
| `SortReports.SortReport` | internal/doop/report.go:90-97 | The same for the whole aggregate, by kind; its set of arrays stays the same. |
| `Canonical.SortingRearranges` | internal/doop/report.go:41-97 | Sorting keeps the contents and well-formedness and establishes the canonical order at all four levels. |
| `Canonical.InOrderIsAscending` | internal/doop/report.go:41-97 | A report is in canonical order if and only if no kind, constraint name, group pattern or instance comes before a smaller one, told by prefixes and first differences alone. |
| `Canonicity.InOrderIsUnique` | internal/doop/report.go:41-97 | Without ties there is only one well-formed report in canonical order with given contents. |
| `Canonicity.AggregationIsCanonical` | internal/doop/report.go:89-97 | Two runs over the same clusters in different orders give equal reports after sorting, when no two sibling constraints share a name and no two different sibling groups or instances compare as 0. |
| `Ties.CanonicalExactlyWithoutTies` | internal/doop/report.go:89-97 | A sorted aggregate of the reports is equal to every other, for any visiting order and any treatment of ties, if and only if nothing ties in what the matching parts of the reports say. |
| `Ties.SortedOneWayExactly` | internal/doop/report.go:41-97 | Sorting a given aggregate has one possible result if and only if nothing in it ties. |
| `Rearranging.SameContentsExactlyUpToOrder` | internal/doop/report.go:84-87 | Two well-formed reports say the same if and only if they are equal up to the order of their lists, at all levels. |
| `Rearranging.SortedResultsExactly` | internal/doop/report.go:41-97 | The possible results of sorting a well-formed report are exactly the well-formed reports in canonical order that say the same. |
| `Ties.VisitingOrderCanShow` | internal/doop/report.go:42-44 | One constraint with different severities in two clusters: two visiting orders have different sorted results. |
| `Api.HandleGetViolations` | doop-api/api.go:51-59 | A request loads the reports, fails exactly when that fails, and otherwise answers with the sorted aggregate under the filter of the query, in new arrays; only the cache entries are written, no array. |
| `Api.ServeRequests` | doop-api/api.go:51-59 | Over any sequence of requests, each with its own listing and downloads: every answer is right for the cache as the requests before left it, and stays as it was given. |
| `Api.AnswerContent` | doop-api/api.go:58-59 | An answer is well formed, ascending at all levels in dictionary order, and says what the matching parts of the reports say. |
| `Queries.AnswersAsAsked` | doop-api/filter.go:21-85 | Told from the query itself: for every variable without values or with any number of them, an answer has exactly the groups whose kind, name, severity and object identity have an allowed value in clusters whose identity has; every instance is there as often as those clusters list it, lists ascend, and exactly those clusters are named. |
| `Api.AnswersAgree` | doop-api/api.go:58-59 | Without ties, repeating a request repeats the answer. |
| `Tagging.SetClusterName` | internal/doop/report.go:20-32 | In place: every instance gets the cluster's name and every other field of it, and every other part of the report, stays as it was, even when groups share arrays. |
| `Downloader.Downloader.Load` | doop-api/downloader.go:59-70 | A downloaded report is decoded into arrays of its own and tagged there with the cluster's name. |
| `Downloader.Downloader.Update` | doop-api/downloader.go:47-73 | Handling one listed object changes exactly its cache entry and no array; on failure the new metadata stays beside the old payload. |
| `Downloader.Downloader.GetReports` | doop-api/downloader.go:35-77 | A call pulls what changed, up to the first failure; it returns the payloads of the listed objects, or an error exactly if the listing or a pull failed. Reports that were returned before stay as they are. |
| `CacheProtocol.StepKeepsInv` | doop-api/downloader.go:35-77 | Every step of every call (List, Lock, a pull that succeeds or fails, Return) and every upload or deletion keeps the cache, the metadata and all results consistent with versions of the store. |
| `CacheProtocol.ReturnedReportsAreFresh` | doop-api/downloader.go:35-77 | In every interleaving, a finished call returns exactly the listed objects, each a version of that object, and no older than listed unless the latest pull of that object had failed. |
| `CacheProtocol.PayloadsNeverGetOlder` | doop-api/downloader.go:47-73 | Over any run, with failed pulls and stale listings: every cached payload is the tagged contents of the version recorded as loaded, and that version never decreases. |
| `CacheProtocol.OnePullerAtATime` | doop-api/downloader.go:41-42 | At most one call is pulling at any time, in any run. |
| `CacheCalls.CallInProgress` | doop-api/downloader.go:41-75 | In every interleaving, a call that holds the mutex has so far executed the loop of GetReports, undisturbed, on the cache as it was when it took the mutex. |
| `CacheCalls.FinishedCallsAreAtomic` | doop-api/downloader.go:41-77 | In every interleaving, a finished call has had the effect and the result of one undivided, successful execution of GetReports between taking and giving back the mutex. |
| `CacheCalls.FailedCallsAreAtomic` | doop-api/downloader.go:59-68 | A call that fails has had the effect on the cache of one undivided execution of GetReports that fails. |
| `CacheFreshness.QuietCallRefinesDownloadAll` | doop-api/downloader.go:47-77 | In every state of every run: a call that is not disturbed by changes of the store and whose downloads succeed returns every listed object, in its current version if and only if the cache is not behind; it is behind only after a failed pull of the listed version. The result is that of downloading everything when nothing is behind and, if contents tell versions apart, only then. |
| `CacheFreshness.PoisonedButCurrent` | doop-api/downloader.go:57-69 | A run without overlapping calls, with an upload while a call is under way, in which the latest pull failed at the listed version and the cache holds that version nevertheless. |
| `CacheFreshness.FailedPullIsForgotten` | doop-api/downloader.go:57-69 | After a failed pull the object counts as up to date: the next call succeeds, pulls nothing and returns the previous payload. |
| `CacheFreshness.StaleAfterFailedPull` | doop-api/downloader.go:57-69 | A run in which a call lists version 1 of an object and returns the empty report for it. |
| `CacheAtRest.UndisturbedCallsDownloadAll` | doop-api/downloader.go:35-77 | In any run, whatever other calls and other objects do: a call whose listed objects do not change from its listing to its return returns each in the listed version unless its latest pull had failed, and never in a newer one. It returns what downloading everything at the time of the listing would when all versions are the listed ones and, if contents tell versions apart, only then. |
| `CacheAtRest.UndisturbedCallsWithoutFailures` | doop-api/downloader.go:35-77 | In any run without failed pulls, every such call returns exactly what downloading everything at the time of its listing would. |
| `CacheAtRest.StepStaysSettled` | doop-api/downloader.go:35-77 | When objects change only while no call that has listed them is under way, and calls overlap in any way, every step keeps: a payload lags behind its stamp exactly when the latest pull failed. |
| `CacheAtRest.BehindExactlyWhenPoisoned` | doop-api/downloader.go:57-69 | In every state of such a run, the cache is behind for an object if and only if the latest pull failed at the listed version. |
| `CacheAtRest.CallsReturnTheListedVersions` | doop-api/downloader.go:47-77 | In such a run every finished call has returned each object in the listed version, except for those whose latest pull had failed, which are older. |
| `GroupBy.MergingGroupsStably` | doop-analyzer/process.go:99-120 | The search-or-append loop is a stable group-by on the pattern: one group per pattern, instances in input order. |
| `GroupBy.PatternsAreDistinct` | doop-analyzer/process.go:106-119 | The group patterns are pairwise different and are exactly the patterns of the input. |
| `GroupBy.GroupsInFirstAppearanceOrder` | doop-analyzer/process.go:106-119 | Groups come in the order in which their patterns first appear. |
| `GroupBy.GroupsAreNonempty` | doop-analyzer/process.go:117-119 | Every group has an instance. |
| `GroupBy.InstancesInInputOrder` | doop-analyzer/process.go:106-119 | Within a group the instances are those of the violations with its pattern, in the order of the violations. |
| `ProcessReports.EveryViolationIsAnInstance` | doop-analyzer/process.go:100-122 | A processed constraint has as many instances as it had violations. |
| `ProcessReports.InstancesAreCompressed` | doop-analyzer/process.go:112-118 | Every instance in every group of a processed constraint has the fewest fields that anything expanding to the same against the pattern of the group has. |
| `Process.ProcessViolation` | doop-analyzer/process.go:101-106 | In memory: the violation is rewritten by the processing rules, its pattern by the merging rules on a clone of the result, and the instance is the difference of the two; rewriting the pattern leaves the instance's own map alone. |
| `Process.MergingFollowsProcessing` | doop-analyzer/process.go:101-106 | The pattern is what the merging rules alone make of the violation as the processing rules leave it. |
| `Process.ProcessReportForConstraint` | doop-analyzer/process.go:92-123 | In memory: panics, changing nothing, exactly when there are groups already; otherwise the violations are cleared and the groups are those of the compressed violations merged in order. |
| `Process.IdentityIsNeverFilled` | doop-analyzer/process.go:71-73 | The identity part of compression is always invertible. |
| `ProcessReports.ProcessReport` | doop-analyzer/process.go:77-90 | In memory: every constraint of the report is processed, none affecting another, and every instance in it is compressed as far as possible; panics exactly when one had groups already. |
| `ProcessReports.ProcessGathered` | doop-analyzer/process.go:77-90 | A gathered report is stored with an identity map of its own for every violation, so processing it neither panics nor lets one violation affect another. |
| `Rules.CheckConditions` | doop-analyzer/process.go:45-50 | In any order of checking, the rule is considered exactly when every condition's field exists and matches. |
| `Rules.ReplaceTargets` | doop-analyzer/process.go:63-73 | In any order of writing, the attributes end up as after one simultaneous assignment from the captures. |
| `Rules.Execute` | doop-analyzer/process.go:43-74 | A rule changes nothing if a field of its match section is missing or does not match, or its source is missing or its pattern does not match. Otherwise every target holds the expansion of its own template with the captures of the source as it was, and every other attribute is kept. |
| `Rules.ExecuteRulesOnViolation` | doop-analyzer/process.go:17-39 | In memory: the rules work one after another on the attributes of the violation, each step as stated for a single rule, and the violation becomes what the attributes say at the end; the identity map is rewritten where it is. |
| `Rules.OneRule` | doop-analyzer/process.go:43-74 | In terms of the violation: a single rule leaves it as it is if it is blocked, and otherwise replaces every attribute that is a target and keeps every other. |
| `Rules.RulesRun` | doop-analyzer/process.go:17-39 | Any list of rules leads through a sequence of attribute maps, from the attributes of the violation, by one step for each rule, in order, to those from which it is read back. |
| `Rules.DecodeEncode` | doop-analyzer/process.go:18-39 | Encoding a violation as attributes and decoding it gives the violation back. |
| `Rules.RulesKeepShape` | doop-analyzer/process.go:36-38 | Rules keep the key set of the identity and the cluster name; attributes that did not exist are discarded. |
| `Rules.UntargetedFieldsAreKept` | doop-analyzer/process.go:63-73 | A field or identity value that no rule targets keeps its value. |
| `Placeholders.TokensAreLossless` | doop-analyzer/process.go:41 | Tokenizing a template loses nothing. |
| `Placeholders.TokensAreUnique` | doop-analyzer/process.go:41 | A template has exactly one tokenization in which no placeholder can be extended and no `$` before a digit stands for itself. |
| `Placeholders.TokensAreMaximal` | doop-analyzer/process.go:41 | Every template has such a tokenization. |
| `Placeholders.ExpandsPieceByPiece` | doop-analyzer/process.go:64-72 | A template expands to the concatenation of one piece for each token: the capture of that number for a placeholder within range, and the text of the token itself otherwise. |
| `Placeholders.OutOfRangeStaysVerbatim` | doop-analyzer/process.go:64-72 | Placeholders without a capture group stay verbatim. |
| `Placeholders.OverflowIsOutOfRange` | doop-analyzer/process.go:66-71 | An index that overflows is treated like one that is out of range; every other placeholder becomes its capture. |
| `Placeholders.TenIsOneThenZero` | doop-analyzer/process.go:41 | `$10` expands to the first capture followed by 0. |
| `Totals.CollectionIsExact` | doop-api/metrics.go:97-210 | A collection that does not panic emits no two raw or two grouped metrics with the same labels; the raw metrics of every cluster add up to the instances in its report and the grouped ones to the different groups of all reports. |
| `Totals.CollectionFromCacheIsExact` | doop-api/metrics.go:76-210 | The same for what is collected from a cache whose payloads are named by their keys; the cache stays so. |
| `Totals.LoadedPayloadsAreNamed` | doop-api/downloader.go:47-73 | Whatever is downloaded, every cached and every returned report carries its own cluster's name on all instances. |
| `LabelCounts.CollectionCountsReports` | doop-api/metrics.go:97-210 | A collection that does not panic, told by its labels: a grouped metric counts the different addresses of all reports with its kind, name, severity and, under each configured key, the identity value (empty if there is none); a raw metric counts the instances at such addresses in the report of the cluster it names. Every group and every instance is counted by some metric. |
| `LabelCounts.CollectionFromCacheCounts` | doop-api/metrics.go:76-210 | The same for what is collected from a cache whose payloads are named by their keys. |
| `Collector.Collect` | doop-api/metrics.go:76-112 | Loads the reports as a request does, taking none after an error; for any iteration orders it panics exactly when some group's labels do not fit, and otherwise emits each counter once, with the number of groups or instances under it. |
| `Collector.CollectReports` | doop-api/metrics.go:97-112 | The same for given reports. |
| `Collector.CollectTemplate` | doop-api/metrics.go:100-111 | The same for one template, whose constraints are grouped by name first. |
| `Emission.CountViolationsForConstraint` | doop-api/metrics.go:140-210 | The same for the constraints of one name. |
| `Tallies.TallyConstraints` | doop-api/metrics.go:143-173 | The nested maps hold exactly the number of groups for each severity and identity value, and of instances for each of them and cluster. |
| `Metrics.FitsExactly` | doop-api/metrics.go:152-184 | The label count fits if and only if at least one key is configured and no value under a configured key contains NUL, and then the labels are the cluster (for raw metrics), kind, name and severity, and each value of the identity map stands under its own key. |
| `Metrics.LabelsDecideTheKey` | doop-api/metrics.go:180-202 | Labels say the same about a group as its own labels only if they come from its counter. |
| `Metrics.GroupedLabelsAreInjective` | doop-api/metrics.go:180-184 | Different grouped counters have different labels. |
| `Metrics.RawLabelsAreInjective` | doop-api/metrics.go:195-202 | Different raw counters have different labels. |
| `Text.SplitJoinExactly` | doop-api/metrics.go:156-184 | Splitting the joined values gives them back if and only if there is at least one and none contains the separator; the number of parts is right in no other case. |
| `Totals.LabelsAreDistinct` | doop-api/metrics.go:101-103 | No two raw metrics and no two grouped metrics of one collection have the same labels. |
| `Totals.PanicsExactly` | doop-api/metrics.go:184-189 | Collecting panics if and only if there is a group and no key is configured, or some configured value of a pattern contains NUL. |
| `Counterexamples.DefaultLabelsPanic` | doop-api/metrics.go:184-189 | With no identity label configured, collecting from one cluster with one group panics. |
| `Totals.RawCountsAreExact` | doop-api/metrics.go:167-169 | The raw metrics of a cluster add up to the number of instances in its report. |
| `Totals.GroupedCountsAreExact` | doop-api/metrics.go:159-162 | The grouped metrics add up to the number of different groups in all reports. |
| `Totals.LoadedReportsAreNamed` | internal/doop/report.go:20-32 | Reports as loaded carry their own cluster's name on all instances, as the count per cluster requires. |
| `Gather.FindIsFirst` | doop-analyzer/report.go:54 | The scanner finds a reading of the message as prefix, separator and rest whenever one exists, and the one with the shortest prefix and then the longest white space. |
| `Gather.MessageIsAccountedFor` | doop-analyzer/report.go:69-92 | A message is changed if and only if its first reading, of all ways to read it as prefix, separator and rest, has a prefix that decodes; then the identity is that decoded prefix and the message that rest, and otherwise there is no identity. |
| `Gather.TemplatesAreTold` | doop-analyzer/report.go:15-93 | The same for any listing of templates, one constraint at a time. |
| `Gather.GatherReport` | doop-analyzer/report.go:15-33 | Fails exactly when a listing fails; otherwise reports exactly the constraints that have violations, in order and under their kinds, with name, labels, annotations and audit timestamp in the right fields and all violations in order, each with identity and message from the first reading of its message. |
| `Gather.NoFindingsLost` | doop-analyzer/report.go:27-29 | What is left out has no findings: the findings with and without it are the same list, and everything left in has some. |
| `Gather.GatheredIsUnprocessed` | doop-analyzer/report.go:56-93 | Gathered reports have no groups, so processing them does not panic. |
| `Normalize.NormalizeRecursively` | internal/util/normalize.go:17-46 | For any iteration order: succeeds exactly on normalizable values, with one of the possible outcomes; an error names a key that is neither string nor int, and the path to it. |
| `Normalize.FailsExactly` | internal/util/normalize.go:48-58 | A value is normalizable if and only if no path leads to such a key. |
| `Normalize.PathToTheKey` | internal/util/normalize.go:27-37 | The path names keys after dots and list positions, from 0, in brackets: shown on a map in a list in a map. |
| `Normalize.FieldsOfOutcomes` | internal/util/normalize.go:18-31 | An outcome of a map has exactly the fields that its keys become, string keys unchanged and ints in decimal without leading zeros, each with an outcome of a value under such a key; the value under a string key, if no int key is spelled alike. |
| `Normalize.NothingToDoIsKept` | internal/util/normalize.go:32-46 | A value in which no map with arbitrary keys is reached is its own only outcome. |
| `Normalize.NormalizingTwice` | internal/util/normalize.go:17-46 | Normalizing a result again always succeeds and changes nothing. |
| `Normalize.OrderIsInvisibleExactly` | internal/util/normalize.go:21-30 | There is one possible outcome if and only if sibling keys with the same spelling have values that normalize alike, at every depth. |
| `Normalize.CollisionFreeIsUnambiguous` | internal/util/normalize.go:48-54 | It suffices that no int key is spelled like a string key beside it. |
| `Normalize.ItoaIsInjective` | internal/util/normalize.go:52-54 | Two int keys never become the same text. |
| `Normalize.CleanExactly` | internal/util/normalize.go:43-45 | Every outcome is free of maps with arbitrary keys if and only if none lies below a map with string keys. |
| `Normalize.HiddenMapSurvives` | internal/util/normalize.go:43-45 | A map with an int key below one with string keys is still there in the only outcome. |

## Left out

- Kubernetes, Swift, HTTP, Prometheus registration, compression and logging: the store is a map of versions, what is listed and downloaded is a parameter, and metrics are a sequence of labels and counts.
- Regular expressions of rules are arbitrary functions; only the two fixed expressions (placeholders, message prefix) are modelled character by character.
- JSON: decoding a message prefix is an arbitrary function, and a report is assumed to be read back as it was written. A nil map or slice is its empty value.
- Go strings are sequences of characters compared lexicographically by code; their UTF-8 bytes are not part of this model.
- Collector.Collect: leaves out the audit age metric and the log message, and does not model the library's check that label values are valid UTF-8.
- Process.ProcessReportForConstraint: requires that the violations share no identity map, as gathering always provides; the goroutine yields of the outer loop are left out.
- ProcessReports.ProcessReport: takes the constraints of all templates as one list, in the order of the two nested loops.
- Aggregate.AggregateReports: identity maps in doop-api are values, because nothing writes them after decoding; the lists of templates, constraints and groups are sequences, and only the instance lists, which alias across reports, are arrays.
- Process.AddToGroups: keeps the instance lists of groups as sequences, since doop-analyzer shares none of them; identity maps are objects there.
- Slices.Append: a slice starts at its backing array, and source and target have different arrays, as in every call of the program.
- Sorting.SortFunc: the sorting algorithm is not the library's; callers rely on the contract alone.
- Helper methods stand for single loops or branches of the functions they are named after.
- Downloader.Downloader.GetReports: what listing and downloading give is a parameter; the mutex is part of CacheProtocol only.
- CacheProtocol.ReturnedReportsAreFresh: assumes that the store is linearizable and that size, etag and modification time identify a version of an object.
- Normalize.NormalizeRecursively: keys of other types are opaque, and ints are unbounded.
- The age of the oldest audit, the Helm programs, the image checker, the chunking of HTTP responses and the validation of the configuration: little state, little to prove.
