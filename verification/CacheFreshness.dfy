/** When GetReports refines downloading everything that is listed, and the failed pull after
    which it does not. */
module CacheFreshness {
  import opened Doop
  import opened Tagging
  import D = Downloader
  import opened CacheProtocol

  function Infos(w: World, listing: seq<ListedObject>): (r: seq<D.ObjectInfo>)
    ensures |r| == |listing|
  {
    seq(|listing|, i requires 0 <= i < |listing| => Info(w, listing[i]))
  }

  /** Every download succeeds and gets the listed version. */
  function CurrentPulls(w: World, listing: seq<ListedObject>): (r: seq<D.Pull>)
    ensures |r| == |listing|
  {
    seq(|listing|, i requires 0 <= i < |listing| => D.Pulled(w.content(listing[i].name, listing[i].version)))
  }

  function PayloadsOf(result: map<Name, Returned>): map<Name, ClusterReport> {
    map x | x in result :: result[x].payload
  }

  /** The uncached specification: download everything listed. */
  function DownloadAll(w: World, store: map<Name, nat>): map<Name, ClusterReport> {
    map x | x in store :: TaggedReport(w.content(x, store[x]), x)
  }

  /** The latest pull of the object failed, at the version that is still current. */
  predicate Poisoned(records: map<Name, Record>, o: ListedObject) {
    o.name in records && records[o.name].failed && records[o.name].recorded == o.version
  }

  /** The cache takes the object to be up to date but holds an older payload. */
  predicate Behind(records: map<Name, Record>, o: ListedObject) {
    o.name in records && records[o.name].recorded == o.version && records[o.name].loaded < o.version
  }

  /** No two versions of an object have the same contents. */
  ghost predicate ContentsIdentify(w: World) {
    forall x, v1, v2 :: PayloadOf(w, x, v1) == PayloadOf(w, x, v2) ==> v1 == v2
  }

  // ----- one call -----

  ghost predicate Coherent(w: World, objects: D.Cache, records: map<Name, Record>, x: Name) {
    && (x in objects <==> x in records)
    && (x in objects ==> objects[x].stamp == w.stamp(x, records[x].recorded))
    && (x in objects ==> objects[x].payload == PayloadOf(w, x, records[x].loaded))
  }

  function VersionReturned(records: map<Name, Record>, o: ListedObject): nat {
    if o.name in records && records[o.name].recorded == o.version then records[o.name].loaded else o.version
  }

  function QuietResult(w: World, objects: D.Cache, listing: seq<ListedObject>): map<Name, ClusterReport> {
    D.Payloads(objects, Infos(w, listing), CurrentPulls(w, listing))
  }

  ghost predicate Lists(listing: seq<ListedObject>, x: Name) {
    exists i :: 0 <= i < |listing| && listing[i].name == x
  }

  /** The payloads of exactly the listed objects, each at the version the records say. */
  ghost predicate PayloadsAsRecorded(w: World, records: map<Name, Record>, listing: seq<ListedObject>,
      payloads: map<Name, ClusterReport>) {
    && (forall x :: x in payloads <==> Lists(listing, x))
    && (forall i :: 0 <= i < |listing| ==> listing[i].name in payloads)
    && (forall i :: 0 <= i < |listing| ==>
      payloads[listing[i].name] == PayloadOf(w, listing[i].name, VersionReturned(records, listing[i])))
  }

  /** The listed objects are different ones, and what is cached of them is as recorded. */
  ghost predicate AsRecorded(w: World, objects: D.Cache, records: map<Name, Record>, listing: seq<ListedObject>) {
    && (forall i :: 0 <= i < |listing| ==> Coherent(w, objects, records, listing[i].name) && 0 < listing[i].version)
    && (forall i, j :: 0 <= i < j < |listing| ==> listing[i].name != listing[j].name)
  }

  lemma {:induction false} QuietPayloads(w: World, objects: D.Cache, records: map<Name, Record>, listing: seq<ListedObject>)
    requires StampsIdentify(w) && AsRecorded(w, objects, records, listing)
    ensures D.AllSucceed(objects, Infos(w, listing), CurrentPulls(w, listing))
    ensures PayloadsAsRecorded(w, records, listing, QuietResult(w, objects, listing))
    decreases |listing|
  {
    if listing != [] {
      var o, rest := listing[0], listing[1..];
      assert Coherent(w, objects, records, o.name) && 0 < o.version;
      hide TaggedReport, PayloadOf, VersionReturned, Coherent, AsRecorded, PayloadsAsRecorded;
      hide D.AfterPull, D.AllSucceed, D.Payloads, D.Succeeds;
      var info, pull := Info(w, o), D.Pulled(w.content(o.name, o.version));
      QuietPull(w, objects, records, o);
      OthersStayCoherent(w, objects, D.AfterPull(objects, info, pull), records, listing);
      QuietPayloads(w, D.AfterPull(objects, info, pull), records, rest);
      FirstListed(w, listing);
      D.FirstPull(objects, info, pull, Infos(w, rest), CurrentPulls(w, rest));
      FirstPayload(w, objects, records, listing, QuietResult(w, D.AfterPull(objects, info, pull), rest));
    }
  }

  lemma FirstListed(w: World, listing: seq<ListedObject>)
    requires listing != []
    ensures Infos(w, listing) == [Info(w, listing[0])] + Infos(w, listing[1..])
    ensures CurrentPulls(w, listing)
      == [D.Pulled(w.content(listing[0].name, listing[0].version))] + CurrentPulls(w, listing[1..])
  {
  }

  lemma OthersStayCoherent(w: World, objects: D.Cache, after: D.Cache, records: map<Name, Record>, listing: seq<ListedObject>)
    requires listing != [] && AsRecorded(w, objects, records, listing)
    requires listing[0].name in after && after == objects[listing[0].name := after[listing[0].name]]
    ensures AsRecorded(w, after, records, listing[1..])
  {
    hide PayloadOf;
    forall i | 0 <= i < |listing[1..]|
      ensures Coherent(w, after, records, listing[1..][i].name)
    {
      assert listing[1..][i] == listing[i + 1];
    }
  }

  lemma QuietPull(w: World, objects: D.Cache, records: map<Name, Record>, o: ListedObject)
    requires StampsIdentify(w) && Coherent(w, objects, records, o.name) && 0 < o.version
    ensures
      var after := D.AfterPull(objects, Info(w, o), D.Pulled(w.content(o.name, o.version)));
      && o.name in after && after[o.name].payload == PayloadOf(w, o.name, VersionReturned(records, o))
      && after == objects[o.name := after[o.name]]
      && D.Succeeds(objects, Info(w, o), D.Pulled(w.content(o.name, o.version)))
  {
  }

  lemma FirstPayload(w: World, objects: D.Cache, records: map<Name, Record>, listing: seq<ListedObject>,
      later: map<Name, ClusterReport>)
    requires listing != [] && AsRecorded(w, objects, records, listing)
    requires PayloadsAsRecorded(w, records, listing[1..], later)
    ensures PayloadsAsRecorded(w, records, listing,
      map[listing[0].name := PayloadOf(w, listing[0].name, VersionReturned(records, listing[0]))] + later)
  {
    hide PayloadOf, VersionReturned, Coherent;
    var all := map[listing[0].name := PayloadOf(w, listing[0].name, VersionReturned(records, listing[0]))] + later;
    forall i | 0 <= i < |listing|
      ensures listing[i].name in all
      ensures all[listing[i].name] == PayloadOf(w, listing[i].name, VersionReturned(records, listing[i]))
    {
      if i > 0 {
        assert listing[1..][i - 1] == listing[i];
      }
    }
    forall x | x in all
      ensures Lists(listing, x)
    {
      if x in later {
        var i :| 0 <= i < |listing[1..]| && listing[1..][i].name == x;
        assert listing[i + 1].name == x;
      }
    }
  }

  lemma StoredPayload(w: World, x: Name, version: nat)
    requires version > 0
    ensures PayloadOf(w, x, version) == TaggedReport(w.content(x, version), x)
  {
  }

  lemma CachedAsRecorded(w: World, s: State, x: Name)
    requires Inv(w, s)
    ensures Coherent(w, s.objects, s.records, x)
  {
    if x in s.objects {
      assert RecordCorrect(w, s, x);
    }
  }

  lemma VersionReturnedExactly(w: World, s: State, o: ListedObject)
    requires Inv(w, s) && LoadedBeforeStored(s) && o.name in s.store && o.version == s.store[o.name]
    ensures VersionReturned(s.records, o) == o.version <==> !Behind(s.records, o)
    ensures Behind(s.records, o) ==> Poisoned(s.records, o)
  {
    if o.name in s.records {
      assert RecordCorrect(w, s, o.name);
    }
  }

  /** In every state of every run: a call that is not disturbed by changes of the store and
      whose downloads succeed returns every object in its current version, except where the
      cache is behind, which it is only after a failed pull. So it returns what downloading
      everything would return when nothing is behind and, if contents tell versions apart,
      only then. */
  lemma QuietCallRefinesDownloadAll(w: World, states: seq<State>, steps: seq<Step>, k: nat, listing: seq<ListedObject>)
    requires StampsIdentify(w) && Run(w, states, steps) && k < |states| && ListsStore(listing, states[k].store)
    ensures D.AllSucceed(states[k].objects, Infos(w, listing), CurrentPulls(w, listing))
    ensures PayloadsAsRecorded(w, states[k].records, listing, QuietResult(w, states[k].objects, listing))
    ensures forall i :: 0 <= i < |listing| ==>
      (VersionReturned(states[k].records, listing[i]) == listing[i].version <==> !Behind(states[k].records, listing[i]))
    ensures forall i :: 0 <= i < |listing| && Behind(states[k].records, listing[i]) ==> Poisoned(states[k].records, listing[i])
    ensures (forall i :: 0 <= i < |listing| ==> !Behind(states[k].records, listing[i])) ==>
      QuietResult(w, states[k].objects, listing) == DownloadAll(w, states[k].store)
    ensures ContentsIdentify(w) && QuietResult(w, states[k].objects, listing) == DownloadAll(w, states[k].store) ==>
      forall i :: 0 <= i < |listing| ==> !Behind(states[k].records, listing[i])
  {
    var s := states[k];
    InvAlways(w, states, steps, k);
    LoadedBeforeStoredAlways(w, states, steps, k);
    forall i | 0 <= i < |listing|
      ensures Coherent(w, s.objects, s.records, listing[i].name) && 0 < listing[i].version
      ensures VersionReturned(s.records, listing[i]) == listing[i].version <==> !Behind(s.records, listing[i])
      ensures Behind(s.records, listing[i]) ==> Poisoned(s.records, listing[i])
    {
      CachedAsRecorded(w, s, listing[i].name);
      VersionReturnedExactly(w, s, listing[i]);
    }
    QuietPayloads(w, s.objects, s.records, listing);
    ComparedToDownloadAll(w, s.records, s.store, listing, QuietResult(w, s.objects, listing));
  }

  lemma ComparedToDownloadAll(w: World, records: map<Name, Record>, store: map<Name, nat>, listing: seq<ListedObject>,
      payloads: map<Name, ClusterReport>)
    requires ListsStore(listing, store) && PayloadsAsRecorded(w, records, listing, payloads)
    requires forall i :: 0 <= i < |listing| ==> 0 < listing[i].version
    requires forall i :: 0 <= i < |listing| ==>
      (VersionReturned(records, listing[i]) == listing[i].version <==> !Behind(records, listing[i]))
    ensures (forall i :: 0 <= i < |listing| ==> !Behind(records, listing[i])) ==> payloads == DownloadAll(w, store)
    ensures ContentsIdentify(w) && payloads == DownloadAll(w, store) ==>
      forall i :: 0 <= i < |listing| ==> !Behind(records, listing[i])
  {
    hide VersionReturned, Behind, PayloadOf;
    var all := DownloadAll(w, store);
    forall x
      ensures x in payloads <==> x in all
    {
      if i :| 0 <= i < |listing| && listing[i].name == x {
        assert Lists(listing, x);
      }
    }
    forall i | 0 <= i < |listing|
      ensures all[listing[i].name] == PayloadOf(w, listing[i].name, listing[i].version)
    {
      StoredPayload(w, listing[i].name, listing[i].version);
    }
    if forall i :: 0 <= i < |listing| ==> !Behind(records, listing[i]) {
      forall x | x in all
        ensures payloads[x] == all[x]
      {
        var i :| 0 <= i < |listing| && listing[i].name == x;
      }
    }
  }

  // ----- the failed pull -----

  /** After a failed pull the cache takes the object to be up to date: a second call for the
      same listing downloads nothing and returns, without an error, the payload from before. */
  lemma FailedPullIsForgotten(objects: D.Cache, info: D.ObjectInfo, pull: D.Pull)
    requires D.NeedsUpdate(objects, info)
    ensures
      var after := D.AfterPull(objects, info, D.PullFailed);
      var previous := if info.name in objects then objects[info.name].payload else D.EMPTY_REPORT;
      && !D.NeedsUpdate(after, info)
      && D.AllSucceed(after, [info], [pull])
      && D.Payloads(after, [info], [pull]) == map[info.name := previous]
      && D.AfterPulls(after, [info], [pull]) == after
  {
  }

  /** The state after an upload and a call whose pull fails. */
  function PoisonedState(w: World, x: Name): State {
    State(map[x := 1], 1, map[x := D.Cached(w.stamp(x, 1), D.EMPTY_REPORT)], map[x := Record(1, 0, true)],
      Free, map[0 := Aborted])
  }

  lemma PoisoningRun(w: World, x: Name) returns (states: seq<State>, steps: seq<Step>)
    ensures Run(w, states, steps) && states[|states| - 1] == PoisonedState(w, x)
  {
    hide Run;
    var listing := [ListedObject(x, 1)];
    assert listing[0].name == x;
    var s1 := INITIAL_STATE.(clock := 1, store := map[x := 1]);
    var s2 := s1.(calls := map[0 := Listed(listing)]);
    var s3 := s2.(mutex := HeldBy(0), calls := map[0 := Pulling(listing, 0, map[])]);
    EmptyRun(w);
    states, steps := RunExtended(w, [INITIAL_STATE], [], s1, Upload(x));
    states, steps := RunExtended(w, states, steps, s2, List(0, listing));
    states, steps := RunExtended(w, states, steps, s3, Lock(0));
    states, steps := RunExtended(w, states, steps, PoisonedState(w, x), PullFail(0));
  }

  /** So the freshness guarantee does need its exception: there is a run in which a call
      lists version 1 of an object and returns the empty report for it. */
  lemma StaleAfterFailedPull(w: World, x: Name) returns (states: seq<State>, steps: seq<Step>)
    ensures Run(w, states, steps)
    ensures var s := states[|states| - 1];
      && 1 in s.calls && s.calls[1].Done?
      && s.calls[1].listing == [ListedObject(x, 1)]
      && s.calls[1].result == map[x := Returned(D.EMPTY_REPORT, 0, true)]
  {
    hide Run;
    var listing := [ListedObject(x, 1)];
    assert listing[0].name == x;
    var result := map[x := Returned(D.EMPTY_REPORT, 0, true)];
    var s4 := PoisonedState(w, x);
    states, steps := PoisoningRun(w, x);
    states, steps := CallBegins(w, states, steps, s4, 1, listing);
    var s6 := s4.(mutex := HeldBy(1), calls := s4.calls[1 := Pulling(listing, 0, map[])]);
    var s7 := s6.(calls := s6.calls[1 := Pulling(listing, 1, result)]);
    var s8 := s7.(mutex := Free, calls := s7.calls[1 := Done(listing, result)]);
    states, steps := RunExtended(w, states, steps, s7, PullOk(1));
    states, steps := RunExtended(w, states, steps, s8, Return(1));
  }

  /** Call 0 has listed version 1 and loaded version 2, which was uploaded in between. */
  function OvertakenState(w: World, x: Name): State {
    var payload := TaggedReport(w.content(x, 2), x);
    State(map[x := 2], 2, map[x := D.Cached(w.stamp(x, 1), payload)], map[x := Record(1, 2, false)], Free,
      map[0 := Done([ListedObject(x, 1)], map[x := Returned(payload, 2, false)])])
  }

  lemma OvertakingRun(w: World, x: Name) returns (states: seq<State>, steps: seq<Step>)
    ensures Run(w, states, steps) && states[|states| - 1] == OvertakenState(w, x)
  {
    hide Run, TaggedReport;
    var listing := [ListedObject(x, 1)];
    var s4 := State(map[x := 2], 2, map[], map[], HeldBy(0), map[0 := Pulling(listing, 0, map[])]);
    var s5 := OvertakenState(w, x).(mutex := HeldBy(0),
      calls := map[0 := Pulling(listing, 1, map[x := Returned(TaggedReport(w.content(x, 2), x), 2, false)])]);
    states, steps := OutdatedListingRun(w, x, listing);
    states, steps := RunExtended(w, states, steps, s4, Lock(0));
    states, steps := RunExtended(w, states, steps, s5, PullOk(0));
    states, steps := RunExtended(w, states, steps, OvertakenState(w, x), Return(0));
  }

  lemma OutdatedListingRun(w: World, x: Name, listing: seq<ListedObject>) returns (states: seq<State>, steps: seq<Step>)
    requires listing == [ListedObject(x, 1)]
    ensures Run(w, states, steps)
    ensures states[|states| - 1] == State(map[x := 2], 2, map[], map[], Free, map[0 := Listed(listing)])
  {
    hide Run;
    assert listing[0].name == x;
    var s1 := INITIAL_STATE.(clock := 1, store := map[x := 1]);
    var s2 := s1.(calls := map[0 := Listed(listing)]);
    EmptyRun(w);
    states, steps := RunExtended(w, [INITIAL_STATE], [], s1, Upload(x));
    states, steps := RunExtended(w, states, steps, s2, List(0, listing));
    states, steps := RunExtended(w, states, steps, s2.(clock := 2, store := map[x := 2]), Upload(x));
  }

  /** From any state with the mutex free, a new call lists the store and takes the mutex. */
  lemma CallBegins(w: World, states: seq<State>, steps: seq<Step>, s: State, id: CallId, listing: seq<ListedObject>)
    returns (states': seq<State>, steps': seq<Step>)
    requires Run(w, states, steps) && states[|states| - 1] == s
    requires s.mutex == Free && id !in s.calls && ListsStore(listing, s.store)
    ensures Run(w, states', steps')
    ensures states'[|states'| - 1] == s.(mutex := HeldBy(id), calls := s.calls[id := Pulling(listing, 0, map[])])
  {
    hide Run, ListsStore;
    var s1 := s.(calls := s.calls[id := Listed(listing)]);
    var s2 := s.(mutex := HeldBy(id), calls := s.calls[id := Pulling(listing, 0, map[])]);
    assert s1.calls[id := Pulling(listing, 0, map[])] == s2.calls;
    states', steps' := RunExtended(w, states, steps, s1, List(id, listing));
    states', steps' := RunExtended(w, states', steps', s2, Lock(id));
  }

  /** A failed pull need not leave the cache behind, even when calls do not overlap: the store
      may change while a call is under way, so that the call loads a newer version than it
      has listed, and the next pull is one for that version. */
  lemma PoisonedButCurrent(w: World, x: Name) returns (states: seq<State>, steps: seq<Step>)
    requires StampsIdentify(w)
    ensures Run(w, states, steps)
    ensures
      var s, o := states[|states| - 1], ListedObject(x, 2);
      ListsStore([o], s.store) && Poisoned(s.records, o) && !Behind(s.records, o)
  {
    hide Run, TaggedReport;
    var listing := [ListedObject(x, 2)];
    assert listing[0].name == x;
    var s6 := OvertakenState(w, x);
    states, steps := OvertakingRun(w, x);
    states, steps := CallBegins(w, states, steps, s6, 1, listing);
    var s8 := s6.(mutex := HeldBy(1), calls := s6.calls[1 := Pulling(listing, 0, map[])]);
    states, steps := RunExtended(w, states, steps, AfterPullFail(w, s8, 1), PullFail(1));
  }

  lemma EmptyRun(w: World)
    ensures Run(w, [INITIAL_STATE], [])
  {
  }

  lemma RunExtended(w: World, states: seq<State>, steps: seq<Step>, s': State, step: Step)
    returns (states': seq<State>, steps': seq<Step>)
    requires Run(w, states, steps) && Next(w, states[|states| - 1], s', step)
    ensures Run(w, states', steps') && states'[|states'| - 1] == s'
  {
    hide Next;
    states', steps' := states + [s'], steps + [step];
  }
}
