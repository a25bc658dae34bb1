/** The report cache of doop-api (Downloader.GetReports). */
module Downloader {
  import opened Doop
  import opened Slices
  import opened Decoding
  import opened Tagging

  /** The metadata by which a stored version of an object is recognized. */
  datatype Stamp = Stamp(sizeBytes: nat, etag: string, lastModified: int)
  datatype ObjectInfo = ObjectInfo(name: string, stamp: Stamp)

  datatype Listing = Listed(infos: seq<ObjectInfo>) | ListFailed

  /** Downloading and decoding one object. */
  datatype Pull = Pulled(report: ClusterReport) | PullFailed

  datatype Outcome = Reports(reports: StoredReports) | Failed

  // Go's zero values
  const NO_STAMP := Stamp(0, "", 0)
  const EMPTY_REPORT: ClusterReport := Report(map[], [])

  // ----- on values -----

  datatype Cached = Cached(stamp: Stamp, payload: ClusterReport)
  type Cache = map<string, Cached>

  predicate NeedsUpdate(objects: Cache, info: ObjectInfo) {
    info.name !in objects || objects[info.name].stamp != info.stamp
  }

  /** The cache after handling one listed object. The stamp is recorded before the download
      is known to have succeeded; a failure leaves the previous payload under the new stamp. */
  function AfterPull(objects: Cache, info: ObjectInfo, pull: Pull): Cache {
    if !NeedsUpdate(objects, info) then objects
    else
      var previous := if info.name in objects then objects[info.name].payload else EMPTY_REPORT;
      objects[info.name := Cached(info.stamp,
        match pull
        case Pulled(report) => TaggedReport(report, info.name)
        case PullFailed => previous)]
  }

  predicate Succeeds(objects: Cache, info: ObjectInfo, pull: Pull) {
    NeedsUpdate(objects, info) ==> pull.Pulled?
  }

  /** The cache after handling the listed objects in order, up to the first failure. */
  function AfterPulls(objects: Cache, infos: seq<ObjectInfo>, pulls: seq<Pull>): Cache
    requires |pulls| == |infos|
    decreases |infos|
  {
    if infos == [] then objects
    else if Succeeds(objects, infos[0], pulls[0]) then
      AfterPulls(AfterPull(objects, infos[0], pulls[0]), infos[1..], pulls[1..])
    else AfterPull(objects, infos[0], pulls[0])
  }

  predicate AllSucceed(objects: Cache, infos: seq<ObjectInfo>, pulls: seq<Pull>)
    requires |pulls| == |infos|
    decreases |infos|
  {
    infos == [] ||
    (Succeeds(objects, infos[0], pulls[0]) && AllSucceed(AfterPull(objects, infos[0], pulls[0]), infos[1..], pulls[1..]))
  }

  function Payloads(objects: Cache, infos: seq<ObjectInfo>, pulls: seq<Pull>): map<string, ClusterReport>
    requires |pulls| == |infos|
    decreases |infos|
  {
    if infos == [] then map[]
    else
      var after, name := AfterPull(objects, infos[0], pulls[0]), infos[0].name;
      map[name := after[name].payload] + Payloads(after, infos[1..], pulls[1..])
  }

  /** A whole call: a failed listing changes nothing. */
  function AfterCall(objects: Cache, listing: Listing, pulls: seq<Pull>): Cache
    requires listing.Listed? ==> |pulls| == |listing.infos|
  {
    if listing.Listed? then AfterPulls(objects, listing.infos, pulls) else objects
  }

  predicate CallSucceeds(objects: Cache, listing: Listing, pulls: seq<Pull>)
    requires listing.Listed? ==> |pulls| == |listing.infos|
  {
    listing.Listed? && AllSucceed(objects, listing.infos, pulls)
  }

  lemma NoMorePulls(objects: Cache)
    ensures AfterPulls(objects, [], []) == objects && AllSucceed(objects, [], []) && Payloads(objects, [], []) == map[]
  {
  }

  lemma FirstPull(start: Cache, info: ObjectInfo, pull: Pull, infos: seq<ObjectInfo>, pulls: seq<Pull>)
    requires |pulls| == |infos|
    ensures
      var after, ok := AfterPull(start, info, pull), Succeeds(start, info, pull);
      && info.name in after
      && AfterPulls(start, [info] + infos, [pull] + pulls) == (if ok then AfterPulls(after, infos, pulls) else after)
      && AllSucceed(start, [info] + infos, [pull] + pulls) == (ok && AllSucceed(after, infos, pulls))
      && Payloads(start, [info] + infos, [pull] + pulls)
        == map[info.name := after[info.name].payload] + Payloads(after, infos, pulls)
  {
    assert ([info] + infos)[1..] == infos && ([pull] + pulls)[1..] == pulls;
  }

  lemma NextPull(objects: Cache, infos: seq<ObjectInfo>, pulls: seq<Pull>, i: nat)
    requires i < |infos| == |pulls|
    ensures
      var after, ok := AfterPull(objects, infos[i], pulls[i]), Succeeds(objects, infos[i], pulls[i]);
      && infos[i].name in after
      && AfterPulls(objects, infos[i..], pulls[i..]) ==
        (if ok then AfterPulls(after, infos[i + 1..], pulls[i + 1..]) else after)
      && AllSucceed(objects, infos[i..], pulls[i..]) == (ok && AllSucceed(after, infos[i + 1..], pulls[i + 1..]))
      && Payloads(objects, infos[i..], pulls[i..])
        == map[infos[i].name := after[infos[i].name].payload] + Payloads(after, infos[i + 1..], pulls[i + 1..])
  {
    assert infos[i..][1..] == infos[i + 1..] && pulls[i..][1..] == pulls[i + 1..];
  }

  /** What is still to be done after i of the listed objects. */
  ghost predicate Remaining(start: Cache, now: Cache, infos: seq<ObjectInfo>, pulls: seq<Pull>, i: nat,
      taken: map<string, ClusterReport>)
    requires |pulls| == |infos| && i <= |infos|
  {
    && AfterPulls(start, infos, pulls) == AfterPulls(now, infos[i..], pulls[i..])
    && AllSucceed(start, infos, pulls) == AllSucceed(now, infos[i..], pulls[i..])
    && Payloads(start, infos, pulls) == taken + Payloads(now, infos[i..], pulls[i..])
  }

  lemma RemainingAtFirst(start: Cache, infos: seq<ObjectInfo>, pulls: seq<Pull>)
    requires |pulls| == |infos|
    ensures Remaining(start, start, infos, pulls, 0, map[])
  {
    assert infos[0..] == infos && pulls[0..] == pulls;
    assert map[] + Payloads(start, infos, pulls) == Payloads(start, infos, pulls);
  }

  lemma RemainingNext(start: Cache, now: Cache, infos: seq<ObjectInfo>, pulls: seq<Pull>, i: nat,
      taken: map<string, ClusterReport>)
    requires i < |infos| == |pulls| && Remaining(start, now, infos, pulls, i, taken)
    ensures
      var after := AfterPull(now, infos[i], pulls[i]);
      && infos[i].name in after
      && if Succeeds(now, infos[i], pulls[i])
        then Remaining(start, after, infos, pulls, i + 1, taken[infos[i].name := after[infos[i].name].payload])
        else AfterPulls(start, infos, pulls) == after && !AllSucceed(start, infos, pulls)
  {
    hide AfterPull, AfterPulls, AllSucceed, Payloads, Succeeds;
    NextPull(now, infos, pulls, i);
    var after, x := AfterPull(now, infos[i], pulls[i]), infos[i].name;
    var rest := Payloads(after, infos[i + 1..], pulls[i + 1..]);
    assert taken + (map[x := after[x].payload] + rest) == taken[x := after[x].payload] + rest;
  }

  lemma RemainingAtLast(start: Cache, now: Cache, infos: seq<ObjectInfo>, pulls: seq<Pull>, taken: map<string, ClusterReport>)
    requires |infos| == |pulls| && Remaining(start, now, infos, pulls, |infos|, taken)
    ensures AfterPulls(start, infos, pulls) == now && AllSucceed(start, infos, pulls) && Payloads(start, infos, pulls) == taken
  {
    NoMorePulls(now);
    assert infos[|infos|..] == [] && pulls[|infos|..] == [];
    assert taken + map[] == taken;
  }

  function WithState(objects: Cache, name: string): (r: Cache)
    ensures name in r
  {
    if name in objects then objects else objects[name := Cached(NO_STAMP, EMPTY_REPORT)]
  }

  lemma Restamped(before: Cache, info: ObjectInfo)
    requires NeedsUpdate(before, info)
    ensures
      var added := WithState(before, info.name);
      AfterPull(before, info, PullFailed) == added[info.name := added[info.name].(stamp := info.stamp)]
  {
  }

  lemma Reloaded(before: Cache, info: ObjectInfo, report: ClusterReport)
    requires NeedsUpdate(before, info)
    ensures
      var failed := AfterPull(before, info, PullFailed);
      && info.name in failed
      && AfterPull(before, info, Pulled(report)) == failed[info.name := failed[info.name].(payload := TaggedReport(report, info.name))]
  {
    hide TaggedReport;
  }

  // ----- the class -----

  class ObjectState {
    var stamp: Stamp
    var payload: StoredReport

    constructor ()
      ensures stamp == NO_STAMP && payload == Report(map[], [])
    {
      stamp := NO_STAMP;
      payload := Report(map[], []);
    }
  }

  class Downloader {
    var objects: map<string, ObjectState>

    ghost predicate Valid()
      reads this, objects.Values
    {
      && (forall x, y :: x in objects && y in objects && x != y ==> objects[x] != objects[y])
      && (forall x :: x in objects ==> ValidTemplates(objects[x].payload.templates))
    }

    /** The arrays of all cached payloads. Reports that were returned share them. */
    ghost function Arrays(): set<array<Violation>>
      reads this, objects.Values
    {
      set x, a | x in objects && a in TemplateArrays(objects[x].payload.templates) :: a
    }

    ghost function Cache(): Cache
      requires Valid()
      reads this, objects.Values, Arrays()
    {
      map x | x in objects :: Cached(objects[x].stamp, ViewReport(objects[x].payload))
    }

    constructor ()
      ensures Valid() && Cache() == map[] && objects == map[] && Arrays() == {}
    {
      objects := map[];
    }

    lemma ArraysAllocated()
      ensures forall a :: a in Arrays() ==> allocated(a)
    {
    }

    method AddState(name: string, added: ObjectState)
      requires Valid() && name !in objects && added.payload == Report(map[], [])
      requires forall x :: x in objects ==> objects[x] != added
      modifies this
      ensures Valid() && objects == old(objects)[name := added]
      ensures Cache() == old(Cache())[name := Cached(added.stamp, EMPTY_REPORT)]
    {
      ghost var before := Cache();
      NothingIn();
      hide TemplateArrays, ValidTemplates, ViewReport;
      PayloadsApart(added);
      objects := objects[name := added];
      ghost var after := before[name := Cached(added.stamp, EMPTY_REPORT)];
      forall x | x in after
        ensures Cache()[x] == after[x]
      {
      }
    }

    lemma NothingIn()
      ensures TemplateArrays([]) == {} && ValidTemplates([]) && ViewReport(Report(map[], [])) == EMPTY_REPORT
    {
    }

    method SetStamp(name: string, stamp: Stamp)
      requires Valid() && name in objects
      modifies objects[name]
      ensures Valid()
      ensures Cache() == old(Cache())[name := old(Cache())[name].(stamp := stamp)]
    {
      hide TemplateArrays, ValidTemplates;
      ghost var before := Cache();
      PayloadsApart(objects[name]);
      objects[name].stamp := stamp;
      ghost var after := before[name := before[name].(stamp := stamp)];
      forall x | x in after
        ensures Cache()[x] == after[x]
      {
      }
    }

    /** Neither the downloader nor a state is an array. */
    lemma PayloadsApart(state: ObjectState)
      ensures forall x, a :: x in objects && a in TemplateArrays(objects[x].payload.templates) ==>
        (a as object) != state && (a as object) != this
    {
    }

    method SetPayload(name: string, payload: StoredReport)
      requires Valid() && name in objects && ValidTemplates(payload.templates)
      modifies objects[name]
      ensures Valid()
      ensures Cache() == old(Cache())[name := old(Cache())[name].(payload := old(ViewReport(payload)))]
    {
      hide TemplateArrays, ValidTemplates;
      hide ViewReport;
      ghost var before, view := Cache(), ViewReport(payload);
      PayloadsApart(objects[name]);
      assert forall a :: a in TemplateArrays(payload.templates) ==> (a as object) != objects[name];
      objects[name].payload := payload;
      assert ViewReport(payload) == view;
      ghost var after := before[name := before[name].(payload := view)];
      forall x | x in after
        ensures Cache()[x] == after[x]
      {
      }
    }

    /** A downloaded report is decoded into new memory and tagged there. */
    method Load(report: ClusterReport, name: string) returns (payload: StoredReport)
      ensures ValidTemplates(payload.templates) && fresh(TemplateArrays(payload.templates))
      ensures ViewReport(payload) == TaggedReport(report, name)
    {
      hide TaggedReport;
      payload := DecodeReport(report);
      payload := SetClusterName(payload, name);
    }

    method LoadInto(name: string, report: ClusterReport)
      requires Valid() && name in objects
      modifies objects[name]
      ensures Valid()
      ensures Cache() == old(Cache())[name := old(Cache())[name].(payload := TaggedReport(report, name))]
    {
      hide TaggedReport, TemplateArrays, ValidTemplates, ViewReport, Arrays, Cache, Valid;
      ghost var cache := Cache();
      ArraysAllocated();
      var payload := Load(report, name);
      assert Cache() == cache;
      SetPayload(name, payload);
    }

    /** Creates the state of an object if there is none. */
    method EnsureState(name: string)
      requires Valid()
      modifies this
      ensures Valid() && name in objects && fresh(objects.Values - old(objects.Values))
      ensures Cache() == WithState(old(Cache()), name)
    {
      ghost var cache := Cache();
      assert name in cache <==> name in objects;
      if name !in objects {
        ArraysAllocated();
        hide TemplateArrays, ValidTemplates, ViewReport;
        var added := new ObjectState();
        assert Cache() == cache;
        hide Cache, Arrays;
        AddState(name, added);
      }
    }

    /** Records the stamp before the download is known to have succeeded. */
    method RecordStamp(info: ObjectInfo)
      requires Valid() && NeedsUpdate(Cache(), info)
      modifies this, objects.Values
      ensures Valid() && info.name in objects && fresh(objects.Values - old(objects.Values))
      ensures Cache() == AfterPull(old(Cache()), info, PullFailed)
    {
      ghost var before := Cache();
      hide Arrays, Cache, Valid, AfterPull, NeedsUpdate, WithState;
      EnsureState(info.name);
      Restamped(before, info);
      SetStamp(info.name, info.stamp);
    }

    method Refresh(info: ObjectInfo, pull: Pull) returns (ok: bool)
      requires Valid() && NeedsUpdate(Cache(), info)
      modifies this, objects.Values
      ensures Valid() && fresh(objects.Values - old(objects.Values))
      ensures Cache() == AfterPull(old(Cache()), info, pull) && ok == pull.Pulled? && info.name in objects
    {
      hide TaggedReport, Arrays, Cache, Valid, AfterPull, NeedsUpdate;
      ghost var before := Cache();
      RecordStamp(info);
      ok := pull.Pulled?;
      if ok {
        Reloaded(before, info, pull.report);
        LoadInto(info.name, pull.report);
      }
    }

    /** The body of the loop for one listed object. */
    method Update(info: ObjectInfo, pull: Pull) returns (ok: bool)
      requires Valid()
      modifies this, objects.Values
      ensures Valid() && fresh(objects.Values - old(objects.Values))
      ensures Cache() == AfterPull(old(Cache()), info, pull)
      ensures ok == Succeeds(old(Cache()), info, pull)
      ensures info.name in objects
    {
      if info.name in objects && objects[info.name].stamp == info.stamp {
        return true;
      }
      ok := Refresh(info, pull);
    }

    /** pulls gives, for each listed object, the outcome of the download if one is made. The
        reports that are returned are the cached payloads themselves. */
    method GetReports(listing: Listing, pulls: seq<Pull>) returns (result: Outcome)
      requires Valid() && (listing.Listed? ==> |pulls| == |listing.infos|)
      modifies this, objects.Values
      ensures Valid() && fresh(objects.Values - old(objects.Values))
      ensures Cache() == AfterCall(old(Cache()), listing, pulls)
      ensures result.Reports? <==> CallSucceeds(old(Cache()), listing, pulls)
      ensures result.Reports? ==> ValidReports(result.reports)
      ensures result.Reports? ==> ViewReports(result.reports) == Payloads(old(Cache()), listing.infos, pulls)
    {
      if listing.ListFailed? {
        return Failed;
      }
      result := PullAll(listing.infos, pulls);
    }

    /** Puts a cached payload into the result. */
    method Take(reports: StoredReports, name: string) returns (r: StoredReports)
      requires Valid() && ValidReports(reports) && name in objects
      ensures ValidReports(r)
      ensures ViewReports(r) == old(ViewReports(reports)[name := Cache()[name].payload])
    {
      hide TemplateArrays, ValidTemplates, ViewReport;
      r := reports[name := objects[name].payload];
    }

    /** Arrays are neither downloaders nor states. */
    lemma NoStates(arrays: set<array<Violation>>)
      ensures forall a :: a in arrays ==> (a as object) != this
      ensures forall a, x :: a in arrays && x in objects ==> (a as object) != objects[x]
    {
    }

    /** Updating the cache leaves reports that were taken from it alone. */
    method UpdateBeside(reports: StoredReports, info: ObjectInfo, pull: Pull) returns (ok: bool)
      requires Valid() && ValidReports(reports)
      modifies this, objects.Values
      ensures Valid() && fresh(objects.Values - old(objects.Values))
      ensures Cache() == AfterPull(old(Cache()), info, pull) && info.name in objects
      ensures ok == Succeeds(old(Cache()), info, pull)
      ensures ViewReports(reports) == old(ViewReports(reports))
    {
      assert forall a :: a in ReportArrays(reports) ==> allocated(a);
      hide AfterPull, Succeeds, Cache, Arrays, Valid, ViewReports, ReportArrays, ValidReports;
      NoStates(ReportArrays(reports));
      ok := Update(info, pull);
    }

    /** One iteration of the loop over the listed objects. */
    method PullOne(reports: StoredReports, info: ObjectInfo, pull: Pull)
      returns (r: StoredReports, ok: bool)
      requires Valid() && ValidReports(reports)
      modifies this, objects.Values
      ensures Valid() && fresh(objects.Values - old(objects.Values))
      ensures Cache() == AfterPull(old(Cache()), info, pull) && info.name in Cache()
      ensures ok == Succeeds(old(Cache()), info, pull)
      ensures ok ==> ValidReports(r)
      ensures ok ==> ViewReports(r) == old(ViewReports(reports))[info.name := Cache()[info.name].payload]
    {
      hide AfterPull, Succeeds, Cache, Arrays, Valid, ViewReports, ReportArrays, ValidReports;
      ok := UpdateBeside(reports, info, pull);
      InCache(info.name);
      r := reports;
      if ok {
        ArraysAllocated();
        r := Take(reports, info.name);
      }
    }

    lemma InCache(name: string)
      requires Valid()
      ensures name in Cache() <==> name in objects
    {
    }

    method PullAll(infos: seq<ObjectInfo>, pulls: seq<Pull>) returns (result: Outcome)
      requires Valid() && |pulls| == |infos|
      modifies this, objects.Values
      ensures Valid() && fresh(objects.Values - old(objects.Values))
      ensures Cache() == AfterPulls(old(Cache()), infos, pulls)
      ensures result.Reports? <==> AllSucceed(old(Cache()), infos, pulls)
      ensures result.Reports? ==> ValidReports(result.reports)
      ensures result.Reports? ==> ViewReports(result.reports) == Payloads(old(Cache()), infos, pulls)
    {
      ghost var start := Cache();
      var reports: StoredReports := map[];
      NoReports();
      RemainingAtFirst(start, infos, pulls);
      hide AfterPull, AfterPulls, AllSucceed, Payloads, Succeeds, Remaining, Cache, Arrays, Valid, ViewReports, ReportArrays, ValidReports;
      for i := 0 to |infos|
        invariant Valid() && fresh(objects.Values - old(objects.Values))
        invariant ValidReports(reports)
        invariant Remaining(start, Cache(), infos, pulls, i, ViewReports(reports))
      {
        RemainingNext(start, Cache(), infos, pulls, i, ViewReports(reports));
        var ok;
        reports, ok := PullOne(reports, infos[i], pulls[i]);
        if !ok {
          return Failed;
        }
      }
      RemainingAtLast(start, Cache(), infos, pulls, ViewReports(reports));
      return Reports(reports);
    }
  }

  lemma NoReports()
    ensures ValidReports(map[]) && ReportArrays(map[]) == {} && ViewReports(map[]) == map[]
  {
  }
}
