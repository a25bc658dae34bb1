/** What calls return when the objects they have listed do not change while they are under
    way. Calls may overlap in any way. */
module CacheAtRest {
  import opened Tagging
  import opened CacheProtocol
  import opened CacheFreshness

  predicate Finished(c: Call) {
    c.Done? || c.Aborted?
  }

  /** An object changes only when no call under way has listed it. */
  ghost predicate AtRest(s: State, step: Step) {
    step.Upload? || step.Delete? ==>
      forall id :: id in s.calls && !Finished(s.calls[id]) ==> !Lists(s.calls[id].listing, step.name)
  }

  ghost predicate RunAtRest(w: World, states: seq<State>, steps: seq<Step>) {
    && Run(w, states, steps)
    && forall i :: 0 <= i < |steps| ==> AtRest(states[i], steps[i])
  }

  /** A payload lags behind its stamp exactly when the latest pull failed. */
  ghost predicate Settled(s: State) {
    forall x :: x in s.records ==> SettledRecord(s, x, s.records[x])
  }

  predicate SettledRecord(s: State, x: Name, r: Record) {
    && r.loaded <= r.recorded <= s.clock
    && (r.failed <==> r.loaded < r.recorded)
    && (x in s.store ==> r.recorded <= s.store[x])
  }

  predicate StillStored(listing: seq<ListedObject>, store: map<Name, nat>) {
    forall i :: 0 <= i < |listing| ==> listing[i].name in store && store[listing[i].name] == listing[i].version
  }

  /** An object is returned in the listed version exactly when its latest pull did not fail. */
  predicate ExactlyCurrent(listing: seq<ListedObject>, result: map<Name, Returned>) {
    forall i :: 0 <= i < |listing| && listing[i].name in result ==> CurrentUnlessFailed(listing[i], result[listing[i].name])
  }

  predicate CurrentUnlessFailed(o: ListedObject, r: Returned) {
    if r.pullFailed then r.version < o.version else r.version == o.version
  }

  ghost predicate SettledCall(s: State, c: Call) {
    match c
    case Listed(listing) => StillStored(listing, s.store)
    case Pulling(listing, next, result) => StillStored(listing, s.store) && ExactlyCurrent(listing, result)
    case Done(listing, result) => ExactlyCurrent(listing, result)
    case Aborted => true
  }

  ghost predicate AllSettled(s: State) {
    && Settled(s)
    && forall id :: id in s.calls ==> SettledCall(s, s.calls[id])
  }

  lemma PullOkStaysSettled(w: World, s: State, s': State, id: CallId)
    requires StampsIdentify(w) && Inv(w, s) && AllSettled(s) && Next(w, s, s', PullOk(id))
    ensures AllSettled(s')
  {
    PullOkRecord(w, s, s', id);
    var o, c, c' := Current(s, id), s.calls[id], s'.calls[id];
    assert CallCorrect(w, s, id) && SettledCall(s, c);
    assert s.store[o.name] == o.version;
    assert SettledRecord(s', o.name, s'.records[o.name]) && c'.result[o.name].version == s'.records[o.name].loaded
      && c'.result[o.name].pullFailed == s'.records[o.name].failed && s'.records[o.name].recorded == o.version by {
      if !NeedsPull(w, s, id) {
        assert RecordCorrect(w, s, o.name);
      }
    }
    hide Next, Inv, RecordCorrect;
    assert forall x :: x in s'.records && x != o.name ==> SettledRecord(s, x, s.records[x]);
    forall i | i in s'.calls
      ensures SettledCall(s', s'.calls[i])
    {
      if i != id {
        assert SettledCall(s, s.calls[i]);
      }
    }
  }

  lemma PullFailStaysSettled(w: World, s: State, s': State, id: CallId)
    requires Inv(w, s) && AllSettled(s) && Next(w, s, s', PullFail(id))
    ensures AllSettled(s')
  {
    var o := Current(s, id);
    assert CallCorrect(w, s, id) && SettledCall(s, s.calls[id]);
    assert s.store[o.name] == o.version;
    if o.name in s.records {
      assert RecordCorrect(w, s, o.name) && SettledRecord(s, o.name, s.records[o.name]);
      assert s.records[o.name].recorded < o.version;
    }
    assert forall x :: x in s'.records && x != o.name ==> SettledRecord(s, x, s.records[x]);
    forall i | i in s'.calls
      ensures SettledCall(s', s'.calls[i])
    {
      if i != id {
        assert SettledCall(s, s.calls[i]);
      }
    }
  }

  lemma StepStaysSettled(w: World, s: State, s': State, step: Step)
    requires StampsIdentify(w) && Inv(w, s) && AllSettled(s) && Next(w, s, s', step) && AtRest(s, step)
    ensures AllSettled(s')
  {
    match step
    case PullOk(id) => PullOkStaysSettled(w, s, s', id);
    case PullFail(id) => PullFailStaysSettled(w, s, s', id);
    case _ =>
      hide ExactlyCurrent;
      assert s'.records == s.records;
      forall x | x in s'.records
        ensures SettledRecord(s', x, s'.records[x])
      {
        assert SettledRecord(s, x, s.records[x]);
      }
      NewCallSettled(w, s, s', step);
  }

  lemma NewCallSettled(w: World, s: State, s': State, step: Step)
    requires Inv(w, s) && AllSettled(s) && Next(w, s, s', step) && AtRest(s, step)
    requires !step.PullOk? && !step.PullFail?
    ensures forall id :: id in s'.calls ==> SettledCall(s', s'.calls[id])
  {
    hide Settled, Inv;
    forall id | id in s'.calls
      ensures SettledCall(s', s'.calls[id])
    {
      if id in s.calls {
        assert SettledCall(s, s.calls[id]);
      }
    }
  }

  lemma {:induction false} SettledAlways(w: World, states: seq<State>, steps: seq<Step>, k: nat)
    requires StampsIdentify(w) && RunAtRest(w, states, steps) && k < |states|
    ensures AllSettled(states[k])
    decreases k
  {
    hide Inv, AllSettled, Next, AtRest;
    if k == 0 {
      assert AllSettled(INITIAL_STATE) by { NothingYet(); }
    } else {
      SettledAlways(w, states, steps, k - 1);
      InvAlways(w, states, steps, k - 1);
      StepStaysSettled(w, states[k - 1], states[k], steps[k - 1]);
    }
  }

  lemma NothingYet()
    ensures AllSettled(INITIAL_STATE)
  {
  }

  /** While the store is at rest during calls, the cache is behind exactly where the latest
      pull failed at the version that is still current. */
  lemma BehindExactlyWhenPoisoned(w: World, states: seq<State>, steps: seq<Step>, k: nat, o: ListedObject)
    requires StampsIdentify(w) && RunAtRest(w, states, steps) && k < |states|
    ensures Behind(states[k].records, o) <==> Poisoned(states[k].records, o)
  {
    SettledAlways(w, states, steps, k);
    if o.name in states[k].records {
      assert SettledRecord(states[k], o.name, states[k].records[o.name]);
    }
  }

  /** In such a run every finished call has returned exactly the listed versions, except for
      the objects whose latest pull had failed, and those are all older. */
  lemma CallsReturnTheListedVersions(w: World, states: seq<State>, steps: seq<Step>, k: nat, id: CallId)
    requires StampsIdentify(w) && RunAtRest(w, states, steps) && k < |states|
    requires id in states[k].calls && states[k].calls[id].Done?
    ensures
      var c := states[k].calls[id];
      forall i :: 0 <= i < |c.listing| ==>
        c.listing[i].name in c.result && CurrentUnlessFailed(c.listing[i], c.result[c.listing[i].name])
  {
    SettledAlways(w, states, steps, k);
    InvAlways(w, states, steps, k);
    assert CallCorrect(w, states[k], id) && SettledCall(states[k], states[k].calls[id]);
  }

  // ----- without failures -----

  ghost predicate NoneFailed(s: State) {
    && (forall x :: x in s.records ==> !s.records[x].failed)
    && (forall id :: id in s.calls ==> NoneFailedIn(s.calls[id]))
  }

  predicate NoneFailedIn(c: Call) {
    c.Pulling? || c.Done? ==> forall x :: x in c.result ==> !c.result[x].pullFailed
  }

  lemma {:induction false} NoneFailedAlways(w: World, states: seq<State>, steps: seq<Step>, k: nat)
    requires StampsIdentify(w) && Run(w, states, steps) && k < |states|
    requires forall i :: 0 <= i < |steps| ==> !steps[i].PullFail?
    ensures NoneFailed(states[k])
    decreases k
  {
    hide Next, Inv;
    if k > 0 {
      NoneFailedAlways(w, states, steps, k - 1);
      InvAlways(w, states, steps, k - 1);
      NoneFailedStep(w, states[k - 1], states[k], steps[k - 1]);
    }
  }

  lemma NoneFailedStep(w: World, s: State, s': State, step: Step)
    requires Inv(w, s) && Next(w, s, s', step) && NoneFailed(s) && !step.PullFail?
    ensures NoneFailed(s')
  {
    forall id | id in s'.calls
      ensures NoneFailedIn(s'.calls[id])
    {
      if id in s.calls {
        assert NoneFailedIn(s.calls[id]);
      }
      if step == PullOk(id) && !NeedsPull(w, s, id) {
        assert RecordCorrect(w, s, Current(s, id).name);
      }
    }
  }

  // ----- one undisturbed call in an arbitrary run -----

  predicate NoneNewer(listing: seq<ListedObject>, result: map<Name, Returned>) {
    forall i :: 0 <= i < |listing| && listing[i].name in result ==> result[listing[i].name].version <= listing[i].version
  }

  /** The call is under way with this listing, or has failed, or has returned, and has taken
      nothing newer than listed. */
  ghost predicate NothingNewer(s: State, id: CallId, listing: seq<ListedObject>) {
    id in s.calls &&
    match s.calls[id]
    case Listed(l) => l == listing
    case Pulling(l, _, result) => l == listing && NoneNewer(listing, result)
    case Done(l, result) => l == listing && NoneNewer(listing, result)
    case Aborted => true
  }

  lemma PullTakesNothingNewer(w: World, s: State, s': State, id: CallId, listing: seq<ListedObject>)
    requires StampsIdentify(w) && Inv(w, s) && LoadedBeforeStored(s) && Next(w, s, s', PullOk(id))
    requires NothingNewer(s, id, listing) && StillStored(listing, s.store)
    ensures NothingNewer(s', id, listing)
  {
    PullOkRecord(w, s, s', id);
    PullOkChanges(w, s, s', id);
    StepNeverLoadsOlder(w, s, s', PullOk(id));
    var o := Current(s, id);
    assert CallCorrect(w, s, id);
    assert s'.store[o.name] == o.version && s'.records[o.name].loaded <= o.version;
  }

  lemma OtherStepTakesNothing(w: World, s: State, s': State, step: Step, id: CallId, listing: seq<ListedObject>)
    requires Next(w, s, s', step) && NothingNewer(s, id, listing) && step != PullOk(id)
    ensures NothingNewer(s', id, listing)
  {
    assert NoneNewer(listing, map[]);
    hide NoneNewer, ListsStore;
  }

  lemma ListingTakesNothing(w: World, s: State, s': State, id: CallId, listing: seq<ListedObject>)
    requires Next(w, s, s', List(id, listing))
    ensures NothingNewer(s', id, listing)
  {
  }

  lemma StepTakesNothingNewer(w: World, s: State, s': State, step: Step, id: CallId, listing: seq<ListedObject>)
    requires StampsIdentify(w) && Inv(w, s) && LoadedBeforeStored(s) && Next(w, s, s', step)
    requires NothingNewer(s, id, listing) && StillStored(listing, s.store)
    ensures NothingNewer(s', id, listing)
  {
    hide StampsIdentify, Inv, LoadedBeforeStored, Next, NothingNewer, StillStored;
    if step == PullOk(id) {
      PullTakesNothingNewer(w, s, s', id, listing);
    } else {
      OtherStepTakesNothing(w, s, s', step, id, listing);
    }
  }

  /** The listed objects do not change between states a and k. */
  ghost predicate Undisturbed(states: seq<State>, a: nat, k: nat, listing: seq<ListedObject>) {
    k < |states| && forall j :: a < j < k ==> StillStored(listing, states[j].store)
  }

  lemma UndisturbedBefore(states: seq<State>, a: nat, k: nat, listing: seq<ListedObject>)
    requires Undisturbed(states, a, k + 1, listing) && a < k
    ensures Undisturbed(states, a, k, listing) && StillStored(listing, states[k].store)
  {
  }

  lemma StepOfRun(w: World, states: seq<State>, steps: seq<Step>, k: nat)
    requires Run(w, states, steps) && k < |steps|
    ensures |states| == |steps| + 1 && Next(w, states[k], states[k + 1], steps[k])
  {
    hide Next;
  }

  lemma {:induction false} UndisturbedCallTakesNothingNewer(w: World, states: seq<State>, steps: seq<Step>,
      a: nat, k: nat, id: CallId, listing: seq<ListedObject>)
    requires StampsIdentify(w) && Run(w, states, steps) && a < k < |states| && steps[a] == List(id, listing)
    requires Undisturbed(states, a, k, listing)
    ensures NothingNewer(states[k], id, listing)
    decreases k
  {
    hide StampsIdentify, PayloadsLoaded, Next, Inv, LoadedBeforeStored, NothingNewer, StillStored, Undisturbed;
    assert |states| == |steps| + 1;
    hide Run;
    var s, s', step := states[k - 1], states[k], steps[k - 1];
    StepOfRun(w, states, steps, k - 1);
    if k == a + 1 {
      ListingTakesNothing(w, s, s', id, listing);
    } else {
      UndisturbedBefore(states, a, k - 1, listing);
      UndisturbedCallTakesNothingNewer(w, states, steps, a, k - 1, id, listing);
      InvAlways(w, states, steps, k - 1);
      LoadedBeforeStoredAlways(w, states, steps, k - 1);
      StepTakesNothingNewer(w, s, s', step, id, listing);
    }
  }

  /** In any run: a call whose listed objects do not change from its listing to its return
      returns each of them in the listed version, unless its latest pull had failed, and never
      in a newer one. It returns what downloading everything at the time of the listing would
      when all versions are the listed ones and, if contents tell versions apart, only then. */
  lemma UndisturbedCallsDownloadAll(w: World, states: seq<State>, steps: seq<Step>,
      a: nat, k: nat, id: CallId, listing: seq<ListedObject>)
    requires StampsIdentify(w) && Run(w, states, steps) && a < k < |states| && steps[a] == List(id, listing)
    requires Undisturbed(states, a, k, listing)
    requires id in states[k].calls && states[k].calls[id].Done?
    ensures states[k].calls[id].listing == listing
    ensures
      var result := states[k].calls[id].result;
      && (forall i :: 0 <= i < |listing| ==> listing[i].name in result && NotNewerUnlessFailed(listing[i], result[listing[i].name]))
      && (AllListedVersions(listing, result) ==> PayloadsOf(result) == DownloadAll(w, states[a].store))
      && (ContentsIdentify(w) && PayloadsOf(result) == DownloadAll(w, states[a].store) ==> AllListedVersions(listing, result))
  {
    assert Next(w, states[a], states[a + 1], steps[a]) && ListsStore(listing, states[a].store);
    hide Next, Run, Undisturbed;
    UndisturbedCallTakesNothingNewer(w, states, steps, a, k, id, listing);
    InvAlways(w, states, steps, k);
    var c := states[k].calls[id];
    assert CallCorrect(w, states[k], id);
    FinishedResult(w, states[k], id);
    hide Inv, CallCorrect;
    NotNewer(w, listing, c.result);
    ResultAgainstDownloadAll(w, listing, c.result, states[a].store);
  }

  lemma FinishedResult(w: World, s: State, id: CallId)
    requires Inv(w, s) && id in s.calls && s.calls[id].Done?
    ensures ResultCorrect(w, s.calls[id].listing, |s.calls[id].listing|, s.calls[id].result)
    ensures forall i :: 0 <= i < |s.calls[id].listing| ==> 0 < s.calls[id].listing[i].version
  {
    assert CallCorrect(w, s, id);
  }

  lemma NotNewer(w: World, listing: seq<ListedObject>, result: map<Name, Returned>)
    requires ResultCorrect(w, listing, |listing|, result) && NoneNewer(listing, result)
    ensures forall i :: 0 <= i < |listing| ==>
      listing[i].name in result && NotNewerUnlessFailed(listing[i], result[listing[i].name])
  {
    forall i | 0 <= i < |listing|
      ensures listing[i].name in result && NotNewerUnlessFailed(listing[i], result[listing[i].name])
    {
      assert ReturnedCorrect(w, listing[i], result[listing[i].name]);
    }
  }

  predicate NotNewerUnlessFailed(o: ListedObject, r: Returned) {
    if r.pullFailed then r.version <= o.version else r.version == o.version
  }

  predicate AllListedVersions(listing: seq<ListedObject>, result: map<Name, Returned>) {
    forall i :: 0 <= i < |listing| ==> listing[i].name in result && result[listing[i].name].version == listing[i].version
  }

  /** So without failed pulls every undisturbed call returns what downloading everything
      returns, whatever other calls and other objects do. */
  lemma UndisturbedCallsWithoutFailures(w: World, states: seq<State>, steps: seq<Step>,
      a: nat, k: nat, id: CallId, listing: seq<ListedObject>)
    requires StampsIdentify(w) && Run(w, states, steps) && a < k < |states| && steps[a] == List(id, listing)
    requires Undisturbed(states, a, k, listing)
    requires forall i :: 0 <= i < |steps| ==> !steps[i].PullFail?
    requires id in states[k].calls && states[k].calls[id].Done?
    ensures PayloadsOf(states[k].calls[id].result) == DownloadAll(w, states[a].store)
  {
    hide Undisturbed, Run;
    UndisturbedCallsDownloadAll(w, states, steps, a, k, id, listing);
    NoneFailedAlways(w, states, steps, k);
    assert NoneFailedIn(states[k].calls[id]);
  }

  lemma ResultAgainstDownloadAll(w: World, listing: seq<ListedObject>, result: map<Name, Returned>, store: map<Name, nat>)
    requires ListsStore(listing, store) && ResultCorrect(w, listing, |listing|, result)
    requires forall i :: 0 <= i < |listing| ==> 0 < listing[i].version
    ensures AllListedVersions(listing, result) ==> PayloadsOf(result) == DownloadAll(w, store)
    ensures ContentsIdentify(w) && PayloadsOf(result) == DownloadAll(w, store) ==> AllListedVersions(listing, result)
  {
    hide TaggedReport, PayloadOf;
    var all := DownloadAll(w, store);
    forall x
      ensures x in store <==> x in result
    {
      if x in store {
        var i :| 0 <= i < |listing| && listing[i].name == x;
      }
    }
    forall i | 0 <= i < |listing|
      ensures listing[i].name in result && listing[i].name in all
      ensures PayloadsOf(result)[listing[i].name] == PayloadOf(w, listing[i].name, result[listing[i].name].version)
      ensures all[listing[i].name] == PayloadOf(w, listing[i].name, listing[i].version)
    {
      assert ReturnedCorrect(w, listing[i], result[listing[i].name]);
      StoredPayload(w, listing[i].name, listing[i].version);
    }
    if AllListedVersions(listing, result) {
      forall x | x in store
        ensures PayloadsOf(result)[x] == all[x]
      {
        var i :| 0 <= i < |listing| && listing[i].name == x;
      }
    }
  }
}
