/** Every call of the protocol, in every interleaving, is one execution of GetReports on the
    cache as it was when the call took the mutex. */
module CacheCalls {
  import D = Downloader
  import opened CacheProtocol
  import opened CacheFreshness

  /** The pulls succeed one after another, lead to this cache and give this result. */
  ghost predicate Executed(w: World, start: D.Cache, listing: seq<ListedObject>, pulls: seq<D.Pull>,
      objects: D.Cache, result: map<Name, Returned>)
  {
    && |pulls| == |listing|
    && D.AllSucceed(start, Infos(w, listing), pulls)
    && objects == D.AfterPulls(start, Infos(w, listing), pulls)
    && PayloadsOf(result) == D.Payloads(start, Infos(w, listing), pulls)
  }

  lemma {:induction false} OneMorePull(start: D.Cache, infos: seq<D.ObjectInfo>, pulls: seq<D.Pull>,
      info: D.ObjectInfo, pull: D.Pull)
    requires |pulls| == |infos| && D.AllSucceed(start, infos, pulls)
    ensures
      var mid := D.AfterPulls(start, infos, pulls);
      var after := D.AfterPull(mid, info, pull);
      && info.name in after
      && D.AllSucceed(start, infos + [info], pulls + [pull]) == D.Succeeds(mid, info, pull)
      && D.AfterPulls(start, infos + [info], pulls + [pull]) == after
      && D.Payloads(start, infos + [info], pulls + [pull])
        == D.Payloads(start, infos, pulls)[info.name := after[info.name].payload]
    decreases |infos|
  {
    hide D.AfterPull, D.AfterPulls, D.AllSucceed, D.Payloads, D.Succeeds;
    if infos == [] {
      assert infos + [info] == [info] && pulls + [pull] == [pull];
      D.NoMorePulls(start);
      SinglePull(start, info, pull);
    } else {
      var rest, more := infos[1..], pulls[1..];
      assert infos == [infos[0]] + rest && infos + [info] == [infos[0]] + (rest + [info]);
      assert pulls == [pulls[0]] + more && pulls + [pull] == [pulls[0]] + (more + [pull]);
      D.FirstPull(start, infos[0], pulls[0], rest, more);
      D.FirstPull(start, infos[0], pulls[0], rest + [info], more + [pull]);
      OneMorePull(D.AfterPull(start, infos[0], pulls[0]), rest, more, info, pull);
    }
  }

  lemma SinglePull(start: D.Cache, info: D.ObjectInfo, pull: D.Pull)
    ensures info.name in D.AfterPull(start, info, pull)
    ensures D.AllSucceed(start, [info], [pull]) == D.Succeeds(start, info, pull)
    ensures D.AfterPulls(start, [info], [pull]) == D.AfterPull(start, info, pull)
    ensures D.Payloads(start, [info], [pull]) == map[info.name := D.AfterPull(start, info, pull)[info.name].payload]
  {
    D.NextPull(start, [info], [pull], 0);
    assert [info][0..] == [info] && [pull][0..] == [pull];
    D.NoMorePulls(D.AfterPull(start, info, pull));
  }

  /** What the pull at the current object amounts to. */
  function PullFor(w: World, s: State, id: CallId): D.Pull
    requires AtObject(s, id)
  {
    if Current(s, id).name in s.store then D.Pulled(w.content(Current(s, id).name, s.store[Current(s, id).name]))
    else D.PullFailed
  }

  lemma PullOkIsAPull(w: World, s: State, s': State, id: CallId)
    requires Next(w, s, s', PullOk(id))
    ensures
      var o, c := Current(s, id), s.calls[id];
      && D.Succeeds(s.objects, Info(w, o), PullFor(w, s, id))
      && s'.objects == D.AfterPull(s.objects, Info(w, o), PullFor(w, s, id))
      && o.name in s'.objects && id in s'.calls && s'.calls[id].Pulling?
      && s'.calls[id].listing == c.listing && s'.calls[id].next == c.next + 1
      && PayloadsOf(s'.calls[id].result) == PayloadsOf(c.result)[o.name := s'.objects[o.name].payload]
  {
  }

  lemma NextObject(w: World, listing: seq<ListedObject>, next: nat)
    requires next < |listing|
    ensures listing[..next + 1] == listing[..next] + [listing[next]]
    ensures Infos(w, listing[..next + 1]) == Infos(w, listing[..next]) + [Info(w, listing[next])]
  {
  }

  lemma PullOkExecutes(w: World, s: State, s': State, id: CallId, start: D.Cache, pulls: seq<D.Pull>)
    requires Next(w, s, s', PullOk(id))
    requires Executed(w, start, s.calls[id].listing[..s.calls[id].next], pulls, s.objects, s.calls[id].result)
    ensures HoldsMutex(s', id) && AtObject(s, id)
    ensures Executed(w, start, s'.calls[id].listing[..s'.calls[id].next], pulls + [PullFor(w, s, id)], s'.objects, s'.calls[id].result)
  {
    PullOkIsAPull(w, s, s', id);
    var c := s.calls[id];
    assert s'.mutex == s.mutex;
    hide Next, D.AfterPull, D.AfterPulls, D.AllSucceed, D.Payloads, D.Succeeds, PullFor, Info;
    NextObject(w, c.listing, c.next);
    OneMorePull(start, Infos(w, c.listing[..c.next]), pulls, Info(w, c.listing[c.next]), PullFor(w, s, id));
  }

  /** Any other step of anyone leaves the cache and the call of the mutex holder alone. */
  lemma OtherStep(w: World, s: State, s': State, step: Step, id: CallId)
    requires Next(w, s, s', step) && HoldsMutex(s', id)
    requires step != PullOk(id) && step != Lock(id)
    ensures HoldsMutex(s, id) && s'.objects == s.objects && s'.calls[id] == s.calls[id]
  {
  }

  /** Nobody else holds the mutex between states l and k. */
  ghost predicate HeldThroughout(states: seq<State>, l: nat, k: nat, id: CallId) {
    l <= k < |states| && forall m :: l < m <= k ==> states[m].mutex == HeldBy(id)
  }

  lemma {:induction false} CallInProgress(w: World, states: seq<State>, steps: seq<Step>, k: nat, id: CallId)
    returns (l: nat, pulls: seq<D.Pull>)
    requires Run(w, states, steps) && k < |states| && HoldsMutex(states[k], id)
    ensures l < k && steps[l] == Lock(id) && HeldThroughout(states, l, k, id)
    ensures
      var c := states[k].calls[id];
      Executed(w, states[l].objects, c.listing[..c.next], pulls, states[k].objects, c.result)
    decreases k
  {
    hide Next, Executed;
    var step := steps[k - 1];
    if step == Lock(id) {
      l, pulls := k - 1, [];
      CallStarts(w, states[k - 1], states[k], id);
    } else if step == PullOk(id) {
      PullerHoldsMutex(w, states[k - 1], states[k], id);
      l, pulls := CallInProgress(w, states, steps, k - 1, id);
      PullOkExecutes(w, states[k - 1], states[k], id, states[l].objects, pulls);
      pulls := pulls + [PullFor(w, states[k - 1], id)];
    } else {
      OtherStep(w, states[k - 1], states[k], step, id);
      l, pulls := CallInProgress(w, states, steps, k - 1, id);
    }
  }

  lemma CallStarts(w: World, s: State, s': State, id: CallId)
    requires Next(w, s, s', Lock(id))
    ensures Executed(w, s.objects, s'.calls[id].listing[..s'.calls[id].next], [], s'.objects, s'.calls[id].result)
  {
    assert s'.calls[id].listing[..0] == [];
  }

  lemma PullerHoldsMutex(w: World, s: State, s': State, id: CallId)
    requires Next(w, s, s', PullOk(id)) || Next(w, s, s', PullFail(id)) || Next(w, s, s', Return(id))
    ensures HoldsMutex(s, id)
  {
  }

  /** A finished call has returned the payloads of one undivided execution of GetReports: it
      took the mutex, pulled all it had listed without a failure, and gave the mutex back. */
  lemma {:induction false} FinishedCallsAreAtomic(w: World, states: seq<State>, steps: seq<Step>, k: nat, id: CallId)
    returns (l: nat, r: nat, pulls: seq<D.Pull>)
    requires Run(w, states, steps) && k < |states|
    requires id in states[k].calls && states[k].calls[id].Done?
    ensures l < r < k && steps[l] == Lock(id) && steps[r] == Return(id) && HeldThroughout(states, l, r, id)
    ensures
      var c := states[k].calls[id];
      && Executed(w, states[l].objects, c.listing, pulls, states[r].objects, c.result)
      && states[r + 1].objects == states[r].objects
    decreases k
  {
    hide Next, Executed;
    if steps[k - 1] == Return(id) {
      r := k - 1;
      PullerHoldsMutex(w, states[r], states[k], id);
      l, pulls := CallInProgress(w, states, steps, r, id);
      CallReturns(w, states[r], states[k], id);
    } else {
      StillDone(w, states[k - 1], states[k], steps[k - 1], id);
      l, r, pulls := FinishedCallsAreAtomic(w, states, steps, k - 1, id);
    }
  }

  lemma CallReturns(w: World, s: State, s': State, id: CallId)
    requires Next(w, s, s', Return(id))
    ensures s'.objects == s.objects && s'.calls[id] == Done(s.calls[id].listing, s.calls[id].result)
    ensures s.calls[id].listing[..s.calls[id].next] == s.calls[id].listing
  {
  }

  lemma StillDone(w: World, s: State, s': State, step: Step, id: CallId)
    requires Next(w, s, s', step) && step != Return(id) && id in s'.calls && s'.calls[id].Done?
    ensures id in s.calls && s.calls[id] == s'.calls[id]
  {
  }

  /** A call that fails has the same effect on the cache as an execution of GetReports that fails. */
  lemma FailedCallsAreAtomic(w: World, states: seq<State>, steps: seq<Step>, k: nat, id: CallId)
    returns (l: nat, pulls: seq<D.Pull>)
    requires Run(w, states, steps) && k < |steps| && steps[k] == PullFail(id)
    ensures l < k && steps[l] == Lock(id) && HeldThroughout(states, l, k, id)
    ensures HoldsMutex(states[k], id)
    ensures
      var infos := Infos(w, states[k].calls[id].listing);
      && |pulls| == |infos|
      && !D.AllSucceed(states[l].objects, infos, pulls)
      && D.AfterPulls(states[l].objects, infos, pulls) == states[k + 1].objects
  {
    var s, s' := states[k], states[k + 1];
    PullFailIsAPull(w, s, s', id);
    hide Next;
    PullerHoldsMutex(w, s, s', id);
    var done;
    l, done := CallInProgress(w, states, steps, k, id);
    var c := s.calls[id];
    var infos, n := Infos(w, c.listing), c.next;
    pulls := done + seq(|infos| - n, i => D.PullFailed);
    assert pulls[..n] == done && pulls[n] == D.PullFailed;
    assert infos[..n] == Infos(w, c.listing[..n]) && infos[n] == Info(w, c.listing[n]);
    StopsAtFailure(states[l].objects, infos, pulls, n);
  }

  lemma PullFailIsAPull(w: World, s: State, s': State, id: CallId)
    requires Next(w, s, s', PullFail(id))
    ensures AtObject(s, id) && s'.objects == D.AfterPull(s.objects, Info(w, Current(s, id)), D.PullFailed)
    ensures !D.Succeeds(s.objects, Info(w, Current(s, id)), D.PullFailed)
  {
  }

  lemma {:induction false} StopsAtFailure(start: D.Cache, infos: seq<D.ObjectInfo>, pulls: seq<D.Pull>, n: nat)
    requires n < |infos| == |pulls| && D.AllSucceed(start, infos[..n], pulls[..n])
    requires !D.Succeeds(D.AfterPulls(start, infos[..n], pulls[..n]), infos[n], pulls[n])
    ensures !D.AllSucceed(start, infos, pulls)
    ensures D.AfterPulls(start, infos, pulls) == D.AfterPull(D.AfterPulls(start, infos[..n], pulls[..n]), infos[n], pulls[n])
    decreases n
  {
    hide D.AfterPull, D.Succeeds;
    if n > 0 {
      var after := D.AfterPull(start, infos[0], pulls[0]);
      assert infos[..n][0] == infos[0] && infos[..n][1..] == infos[1..][..n - 1];
      assert pulls[..n][0] == pulls[0] && pulls[..n][1..] == pulls[1..][..n - 1];
      StopsAtFailure(after, infos[1..], pulls[1..], n - 1);
    }
  }
}
