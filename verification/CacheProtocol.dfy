/** Concurrent GetReports calls against a store that changes at any time. A call lists the
    store without holding the mutex and pulls the listed objects while holding it. */
module CacheProtocol {
  import opened Doop
  import opened Tagging
  import D = Downloader

  type Name = string
  type CallId = nat

  /** The contents and stamps of all versions that are ever uploaded under a name. */
  datatype World = World(content: (Name, nat) -> ClusterReport, stamp: (Name, nat) -> D.Stamp)

  /** Size, etag and modification time tell two versions of an object apart. */
  ghost predicate StampsIdentify(w: World) {
    forall x, v1, v2 :: w.stamp(x, v1) == w.stamp(x, v2) ==> v1 == v2
  }

  /** What one cached object amounts to: the version whose stamp is recorded, the version of
      the payload (0 for none), and whether the latest pull failed. */
  datatype Record = Record(recorded: nat, loaded: nat, failed: bool)

  datatype ListedObject = ListedObject(name: Name, version: nat)

  /** What a call takes from the cache for one object. */
  datatype Returned = Returned(payload: ClusterReport, version: nat, pullFailed: bool)

  datatype Call =
    | Listed(listing: seq<ListedObject>)
    | Pulling(listing: seq<ListedObject>, next: nat, result: map<Name, Returned>)
    | Done(listing: seq<ListedObject>, result: map<Name, Returned>)
    | Aborted

  datatype Holder = Free | HeldBy(id: CallId)

  datatype State = State(
    store: map<Name, nat>, clock: nat,
    objects: D.Cache, records: map<Name, Record>,
    mutex: Holder, calls: map<CallId, Call>)

  datatype Step =
    | Upload(name: Name)
    | Delete(name: Name)
    | List(id: CallId, listing: seq<ListedObject>)
    | Lock(id: CallId)
    | PullOk(id: CallId)
    | PullFail(id: CallId)
    | Return(id: CallId)

  const INITIAL_STATE := State(map[], 0, map[], map[], Free, map[])

  function Info(w: World, o: ListedObject): D.ObjectInfo {
    D.ObjectInfo(o.name, w.stamp(o.name, o.version))
  }

  /** A listing shows every object of the store once, with its current version. */
  ghost predicate ListsStore(listing: seq<ListedObject>, store: map<Name, nat>) {
    && (forall i :: 0 <= i < |listing| ==> listing[i].name in store && listing[i].version == store[listing[i].name])
    && (forall x :: x in store ==> exists i :: 0 <= i < |listing| && listing[i].name == x)
    && (forall i, j :: 0 <= i < j < |listing| ==> listing[i].name != listing[j].name)
  }

  function PayloadOf(w: World, x: Name, version: nat): ClusterReport {
    if version == 0 then D.EMPTY_REPORT else TaggedReport(w.content(x, version), x)
  }

  function RecordOf(records: map<Name, Record>, x: Name): Record {
    if x in records then records[x] else Record(0, 0, false)
  }

  predicate HoldsMutex(s: State, id: CallId) {
    && s.mutex == HeldBy(id)
    && id in s.calls && s.calls[id].Pulling? && s.calls[id].next <= |s.calls[id].listing|
  }

  predicate AtObject(s: State, id: CallId) {
    HoldsMutex(s, id) && s.calls[id].next < |s.calls[id].listing|
  }

  function Current(s: State, id: CallId): ListedObject
    requires AtObject(s, id)
  {
    s.calls[id].listing[s.calls[id].next]
  }

  /** The call takes the payload that is now cached and moves on. */
  function TakePayload(s: State, id: CallId, objects: D.Cache, records: map<Name, Record>): State
    requires AtObject(s, id) && Current(s, id).name in objects
  {
    var c, x := s.calls[id], Current(s, id).name;
    var r := RecordOf(records, x);
    var taken := Returned(objects[x].payload, r.loaded, r.failed);
    s.(objects := objects, records := records,
      calls := s.calls[id := Pulling(c.listing, c.next + 1, c.result[x := taken])])
  }

  predicate NeedsPull(w: World, s: State, id: CallId)
    requires AtObject(s, id)
  {
    D.NeedsUpdate(s.objects, Info(w, Current(s, id)))
  }

  ghost predicate Next(w: World, s: State, s': State, step: Step) {
    match step
    case Upload(x) =>
      s' == s.(clock := s.clock + 1, store := s.store[x := s.clock + 1])
    case Delete(x) =>
      s' == s.(store := s.store - {x})
    case List(id, listing) =>
      && id !in s.calls && ListsStore(listing, s.store)
      && s' == s.(calls := s.calls[id := Listed(listing)])
    case Lock(id) =>
      && s.mutex == Free && id in s.calls && s.calls[id].Listed?
      && s' == s.(mutex := HeldBy(id), calls := s.calls[id := Pulling(s.calls[id].listing, 0, map[])])
    case PullOk(id) =>
      // either the cached payload is up to date, or the current version is downloaded
      && AtObject(s, id)
      && (NeedsPull(w, s, id) ==> Current(s, id).name in s.store)
      && s' == AfterPullOk(w, s, id)
    case PullFail(id) =>
      && AtObject(s, id) && NeedsPull(w, s, id)
      && s' == AfterPullFail(w, s, id)
    case Return(id) =>
      && HoldsMutex(s, id) && s.calls[id].next == |s.calls[id].listing|
      && s' == s.(mutex := Free, calls := s.calls[id := Done(s.calls[id].listing, s.calls[id].result)])
  }

  function AfterPullOk(w: World, s: State, id: CallId): State
    requires AtObject(s, id) && (NeedsPull(w, s, id) ==> Current(s, id).name in s.store)
  {
    var o := Current(s, id);
    if NeedsPull(w, s, id) then
      var version := s.store[o.name];
      TakePayload(s, id, D.AfterPull(s.objects, Info(w, o), D.Pulled(w.content(o.name, version))),
        s.records[o.name := Record(o.version, version, false)])
    else TakePayload(s, id, s.objects, s.records)
  }

  /** An error return: the mutex is released and nothing is returned, but the stamp stays recorded. */
  function AfterPullFail(w: World, s: State, id: CallId): State
    requires AtObject(s, id)
  {
    var o := Current(s, id);
    s.(objects := D.AfterPull(s.objects, Info(w, o), D.PullFailed),
      records := s.records[o.name := Record(o.version, RecordOf(s.records, o.name).loaded, true)],
      mutex := Free, calls := s.calls[id := Aborted])
  }

  // ----- the invariant -----

  ghost predicate RecordCorrect(w: World, s: State, x: Name) {
    && x in s.objects && x in s.records
    && var r := s.records[x];
      && s.objects[x].stamp == w.stamp(x, r.recorded)
      && s.objects[x].payload == PayloadOf(w, x, r.loaded)
      && r.recorded <= s.clock && r.loaded <= s.clock
      && (!r.failed ==> r.recorded <= r.loaded)
  }

  /** What was taken for an object is a version of it, at least as recent as the listed one
      unless its latest pull had failed. */
  ghost predicate ReturnedCorrect(w: World, o: ListedObject, r: Returned) {
    && r.payload == PayloadOf(w, o.name, r.version)
    && (!r.pullFailed ==> o.version <= r.version)
  }

  ghost predicate ResultCorrect(w: World, listing: seq<ListedObject>, n: nat, result: map<Name, Returned>) {
    && n <= |listing|
    && (forall i :: 0 <= i < n ==> listing[i].name in result && ReturnedCorrect(w, listing[i], result[listing[i].name]))
    && (forall x :: x in result ==> exists i :: 0 <= i < n && listing[i].name == x)
  }

  /** Listed versions are no newer than what the store holds from then on. */
  ghost predicate ListingCorrect(listing: seq<ListedObject>, s: State) {
    && (forall i :: 0 <= i < |listing| ==> 0 < listing[i].version <= s.clock)
    && (forall i :: 0 <= i < |listing| && listing[i].name in s.store ==> listing[i].version <= s.store[listing[i].name])
    && (forall i, j :: 0 <= i < j < |listing| ==> listing[i].name != listing[j].name)
  }

  ghost predicate CallCorrect(w: World, s: State, id: CallId)
    requires id in s.calls
  {
    match s.calls[id]
    case Listed(listing) => ListingCorrect(listing, s)
    case Pulling(listing, next, result) =>
      s.mutex == HeldBy(id) && ListingCorrect(listing, s) && ResultCorrect(w, listing, next, result)
    case Done(listing, result) => ListingCorrect(listing, s) && ResultCorrect(w, listing, |listing|, result)
    case Aborted => true
  }

  ghost predicate Inv(w: World, s: State) {
    && (forall x :: x in s.store ==> 0 < s.store[x] <= s.clock)
    && s.objects.Keys == s.records.Keys
    && (forall x :: x in s.objects ==> RecordCorrect(w, s, x))
    && (forall id :: id in s.calls ==> CallCorrect(w, s, id))
  }

  lemma InitiallyCorrect(w: World)
    ensures Inv(w, INITIAL_STATE)
  {
  }

  // ----- every step keeps the invariant -----

  /** A step that changes neither the cache, the mutex nor the calls, nor turns back the clock. */
  lemma StoreStepKeeps(w: World, s: State, s': State)
    requires Inv(w, s) && s' == s.(store := s'.store, clock := s'.clock) && s.clock <= s'.clock
    requires forall x :: x in s'.store ==> s'.store[x] <= s'.clock
    requires forall x :: x in s'.store ==>
      (s.clock < s'.store[x] || (x in s.store && s'.store[x] == s.store[x]))
    ensures Inv(w, s')
  {
    hide ResultCorrect, PayloadOf;
    forall x | x in s'.objects ensures RecordCorrect(w, s', x) { assert RecordCorrect(w, s, x); }
    forall id | id in s'.calls ensures CallCorrect(w, s', id) { assert CallCorrect(w, s, id); }
  }

  /** A step that changes one call, and the mutex only when that call takes or gives it up. */
  lemma CallStepKeeps(w: World, s: State, s': State, id: CallId)
    requires Inv(w, s) && id in s'.calls
    requires s' == s.(mutex := s'.mutex, calls := s.calls[id := s'.calls[id]])
    requires s'.mutex == s.mutex || s.mutex == Free || s.mutex == HeldBy(id)
    requires CallCorrect(w, s', id)
    ensures Inv(w, s')
  {
    hide ResultCorrect, PayloadOf;
    forall x | x in s'.objects ensures RecordCorrect(w, s', x) { assert RecordCorrect(w, s, x); }
    forall i | i in s'.calls
      ensures CallCorrect(w, s', i)
    {
      if i != id {
        assert CallCorrect(w, s, i);
      }
    }
  }

  lemma ResultExtended(w: World, listing: seq<ListedObject>, n: nat, result: map<Name, Returned>, r: Returned)
    requires n < |listing| && forall i, j :: 0 <= i < j < |listing| ==> listing[i].name != listing[j].name
    requires ResultCorrect(w, listing, n, result) && ReturnedCorrect(w, listing[n], r)
    ensures ResultCorrect(w, listing, n + 1, result[listing[n].name := r])
  {
    hide ReturnedCorrect;
    var extended := result[listing[n].name := r];
    forall x | x in extended
      ensures exists i :: 0 <= i < n + 1 && listing[i].name == x
    {
      if x in result {
        var i :| 0 <= i < n && listing[i].name == x;
      } else {
        assert listing[n].name == x;
      }
    }
  }

  /** Only one call and the cache entry of one object change, and perhaps the mutex. */
  ghost predicate Touches(s: State, s': State, id: CallId, x: Name) {
    && id in s'.calls && x in s'.objects && x in s'.records
    && s'.store == s.store && s'.clock == s.clock
    && s'.objects == s.objects[x := s'.objects[x]]
    && s'.records == s.records[x := s'.records[x]]
    && s'.calls == s.calls[id := s'.calls[id]]
  }

  lemma CacheStepKeeps(w: World, s: State, s': State, id: CallId, x: Name)
    requires Inv(w, s) && Touches(s, s', id, x)
    requires s.mutex == HeldBy(id)
    requires RecordCorrect(w, s', x) && CallCorrect(w, s', id)
    ensures Inv(w, s')
  {
    hide ResultCorrect, PayloadOf;
    forall y | y in s'.objects
      ensures RecordCorrect(w, s', y)
    {
      if y != x {
        assert RecordCorrect(w, s, y);
      }
    }
    forall i | i in s'.calls
      ensures CallCorrect(w, s', i)
    {
      if i != id {
        assert CallCorrect(w, s, i);
      }
    }
  }

  /** What a successful pull changes. */
  lemma PullOkChanges(w: World, s: State, s': State, id: CallId)
    requires Next(w, s, s', PullOk(id)) && s.objects.Keys == s.records.Keys
    ensures
      var o, c := Current(s, id), s.calls[id];
      && Touches(s, s', id, o.name) && s'.mutex == s.mutex
      && s'.calls[id] == Pulling(c.listing, c.next + 1, c.result[o.name :=
        Returned(s'.objects[o.name].payload, s'.records[o.name].loaded, s'.records[o.name].failed)])
  {
    hide TaggedReport;
  }

  /** The record of the pulled object is right, and is for the listed version. */
  lemma PullOkIsRight(w: World, s: State, s': State, id: CallId)
    requires StampsIdentify(w) && Inv(w, s) && Next(w, s, s', PullOk(id))
    ensures
      var o := Current(s, id);
      RecordCorrect(w, s', o.name) && s'.records[o.name].recorded == o.version
  {
    hide ResultCorrect, ListsStore, TaggedReport;
    var o := Current(s, id);
    assert CallCorrect(w, s, id);
    if !NeedsPull(w, s, id) {
      assert RecordCorrect(w, s, o.name);
    }
  }

  lemma PullOkRecord(w: World, s: State, s': State, id: CallId)
    requires StampsIdentify(w) && Inv(w, s) && Next(w, s, s', PullOk(id))
    ensures
      var o, c := Current(s, id), s.calls[id];
      && Touches(s, s', id, o.name) && s'.mutex == s.mutex
      && RecordCorrect(w, s', o.name)
      && s'.calls[id].Pulling? && o.name in s'.calls[id].result
      && ReturnedCorrect(w, o, s'.calls[id].result[o.name])
      && s'.calls[id] == Pulling(c.listing, c.next + 1, c.result[o.name := s'.calls[id].result[o.name]])
  {
    PullOkChanges(w, s, s', id);
    PullOkIsRight(w, s, s', id);
    hide Next, Inv, PayloadOf;
  }

  lemma PullOkKeeps(w: World, s: State, s': State, id: CallId)
    requires StampsIdentify(w) && Inv(w, s) && Next(w, s, s', PullOk(id))
    ensures Inv(w, s')
  {
    PullOkRecord(w, s, s', id);
    var o, c := Current(s, id), s.calls[id];
    assert CallCorrect(w, s, id);
    assert s.mutex == HeldBy(id) && ListingCorrect(c.listing, s);
    assert ListingCorrect(c.listing, s');
    hide Inv, ResultCorrect, ListsStore, RecordCorrect, Next, ReturnedCorrect, ListingCorrect;
    ResultExtended(w, c.listing, c.next, c.result, s'.calls[id].result[o.name]);
    CacheStepKeeps(w, s, s', id, o.name);
  }

  lemma PullFailKeeps(w: World, s: State, s': State, id: CallId)
    requires Inv(w, s) && Next(w, s, s', PullFail(id))
    ensures Inv(w, s')
  {
    var o := Current(s, id);
    assert CallCorrect(w, s, id);
    if o.name in s.objects {
      assert RecordCorrect(w, s, o.name);
    }
    assert RecordCorrect(w, s', o.name);
    CacheStepKeeps(w, s, s', id, o.name);
  }

  lemma StepKeepsInv(w: World, s: State, s': State, step: Step)
    requires StampsIdentify(w) && Inv(w, s) && Next(w, s, s', step)
    ensures Inv(w, s')
  {
    match step
    case Upload(x) => StoreStepKeeps(w, s, s');
    case Delete(x) => StoreStepKeeps(w, s, s');
    case List(id, listing) =>
      assert CallCorrect(w, s', id);
      CallStepKeeps(w, s, s', id);
    case Lock(id) =>
      assert CallCorrect(w, s, id);
      assert CallCorrect(w, s', id);
      CallStepKeeps(w, s, s', id);
    case PullOk(id) => PullOkKeeps(w, s, s', id);
    case PullFail(id) => PullFailKeeps(w, s, s', id);
    case Return(id) =>
      assert CallCorrect(w, s, id);
      assert CallCorrect(w, s', id);
      CallStepKeeps(w, s, s', id);
  }

  // ----- whole runs -----

  ghost predicate Run(w: World, states: seq<State>, steps: seq<Step>) {
    && |states| == |steps| + 1
    && states[0] == INITIAL_STATE
    && forall i :: 0 <= i < |steps| ==> Next(w, states[i], states[i + 1], steps[i])
  }

  lemma {:induction false} InvAlways(w: World, states: seq<State>, steps: seq<Step>, k: nat)
    requires StampsIdentify(w) && Run(w, states, steps) && k < |states|
    ensures Inv(w, states[k])
    decreases k
  {
    if k == 0 {
      InitiallyCorrect(w);
    } else {
      InvAlways(w, states, steps, k - 1);
      StepKeepsInv(w, states[k - 1], states[k], steps[k - 1]);
    }
  }

  /** In every interleaving, a call that returns, returns exactly the objects it listed; each
      report is a version of the object, and at least as recent as the listed version unless
      the object's latest pull had failed. */
  lemma ReturnedReportsAreFresh(w: World, states: seq<State>, steps: seq<Step>, k: nat, id: CallId)
    requires StampsIdentify(w) && Run(w, states, steps) && k < |states|
    requires id in states[k].calls && states[k].calls[id].Done?
    ensures
      var c := states[k].calls[id];
      && (forall x :: x in c.result <==> exists i :: 0 <= i < |c.listing| && c.listing[i].name == x)
      && (forall i :: 0 <= i < |c.listing| ==>
        var r := c.result[c.listing[i].name];
        && r.payload == PayloadOf(w, c.listing[i].name, r.version)
        && (!r.pullFailed ==> c.listing[i].version <= r.version))
  {
    InvAlways(w, states, steps, k);
    assert CallCorrect(w, states[k], id);
  }

  /** Every cached payload is the version that its record says was loaded. */
  ghost predicate PayloadsLoaded(w: World, s: State) {
    && s.objects.Keys == s.records.Keys
    && forall x :: x in s.objects ==> s.objects[x].payload == PayloadOf(w, x, s.records[x].loaded)
  }

  /** Every object cached before is still cached, and its loaded version is no older. */
  ghost predicate NotOlder(s: State, s': State) {
    forall x :: x in s.records ==> x in s'.records && s.records[x].loaded <= s'.records[x].loaded
  }

  /** Versions only move forward: a pull gets the current version of the store, which is no
      older than anything pulled before. */
  ghost predicate LoadedBeforeStored(s: State) {
    && (forall x :: x in s.store ==> 0 < s.store[x] <= s.clock)
    && (forall x :: x in s.records && x in s.store ==> s.records[x].loaded <= s.store[x])
    && (forall x :: x in s.records ==> s.records[x].loaded <= s.clock)
  }

  lemma StepNeverLoadsOlder(w: World, s: State, s': State, step: Step)
    requires LoadedBeforeStored(s) && Next(w, s, s', step)
    ensures LoadedBeforeStored(s') && NotOlder(s, s')
  {
  }

  lemma StepKeepsPayloads(w: World, s: State, s': State, step: Step)
    requires LoadedBeforeStored(s) && PayloadsLoaded(w, s) && Next(w, s, s', step)
    ensures PayloadsLoaded(w, s')
  {
  }

  lemma {:induction false} LoadedBeforeStoredAlways(w: World, states: seq<State>, steps: seq<Step>, k: nat)
    requires Run(w, states, steps) && k < |states|
    ensures LoadedBeforeStored(states[k]) && PayloadsLoaded(w, states[k])
    decreases k
  {
    hide Next;
    if k > 0 {
      LoadedBeforeStoredAlways(w, states, steps, k - 1);
      StepNeverLoadsOlder(w, states[k - 1], states[k], steps[k - 1]);
      StepKeepsPayloads(w, states[k - 1], states[k], steps[k - 1]);
    }
  }

  /** Over any run, with failed pulls and stale listings, no cached payload is ever replaced
      by an older version: at both ends every payload is the version recorded as loaded, and
      that version does not decrease. */
  lemma {:induction false} PayloadsNeverGetOlder(w: World, states: seq<State>, steps: seq<Step>, j: nat, k: nat)
    requires Run(w, states, steps) && j <= k < |states|
    ensures PayloadsLoaded(w, states[j]) && PayloadsLoaded(w, states[k])
    ensures NotOlder(states[j], states[k])
    decreases k
  {
    hide Next, PayloadsLoaded, LoadedBeforeStored;
    LoadedBeforeStoredAlways(w, states, steps, k);
    if j < k {
      PayloadsNeverGetOlder(w, states, steps, j, k - 1);
      LoadedBeforeStoredAlways(w, states, steps, k - 1);
      StepNeverLoadsOlder(w, states[k - 1], states[k], steps[k - 1]);
    }
  }

  /** Only the holder of the mutex is pulling. */
  ghost predicate PullersHold(s: State) {
    forall id :: id in s.calls && s.calls[id].Pulling? ==> s.mutex == HeldBy(id)
  }

  lemma {:induction false} PullersAlwaysHold(w: World, states: seq<State>, steps: seq<Step>, k: nat)
    requires Run(w, states, steps) && k < |states|
    ensures PullersHold(states[k])
    decreases k
  {
    hide Next;
    if k > 0 {
      PullersAlwaysHold(w, states, steps, k - 1);
      StepKeepsPullers(w, states[k - 1], states[k], steps[k - 1]);
    }
  }

  lemma StepKeepsPullers(w: World, s: State, s': State, step: Step)
    requires PullersHold(s) && Next(w, s, s', step)
    ensures PullersHold(s')
  {
  }

  /** Mutual exclusion: at most one call is pulling, namely the holder of the mutex. */
  lemma OnePullerAtATime(w: World, states: seq<State>, steps: seq<Step>, k: nat, a: CallId, b: CallId)
    requires Run(w, states, steps) && k < |states|
    requires a in states[k].calls && states[k].calls[a].Pulling?
    requires b in states[k].calls && states[k].calls[b].Pulling?
    ensures a == b
  {
    PullersAlwaysHold(w, states, steps, k);
  }
}
