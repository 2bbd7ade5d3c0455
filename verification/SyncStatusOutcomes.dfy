/** How far a run of the status cache can get, and what the callers of a refused run are told. */
module SyncStatusOutcomes {
  import opened JsStrings
  import opened Model
  import opened SyncStatusCache
  import opened SyncStatusCacheFacts
  import opened SyncStatusCacheTheorems

  /** One turn of a run's life: granted or cancelled while queued, settled by its runner, failed with the reason of its refusal. */
  ghost predicate MovesOn(before: Phase, after: Phase) {
    || after == before
    || match before
       case Queued => after.Holding? || after == Refused(ClientDisconnected)
       case Holding => after.Finished?
       case Refused(failure) => after.Finished? && after.answer == Failed(failure)
       case Finished(_, _) => false
  }

  /** Only queued runs are cancelled. */
  ghost predicate Cancels(before: seq<Phase>, after: seq<Phase>) {
    && |after| == |before|
    && forall i | 0 <= i < |before| :: after[i] == before[i] || (before[i].Queued? && after[i] == Refused(ClientDisconnected))
  }

  lemma AbortCancels(s: State, r: RunId)
    requires Shape(s) && r < |s.runs|
    ensures Cancels(s.phases, Abort(s, r).phases)
  {
  }

  lemma {:induction false} CallbacksCancel(s: State, callbacks: seq<CallerId>)
    requires Shape(s) && Known(callbacks, |s.callers|)
    ensures Cancels(s.phases, DisconnectAll(s, callbacks).phases)
  {
    if callbacks != [] {
      var init, last := callbacks[..|callbacks| - 1], callbacks[|callbacks| - 1];
      CallbacksCancel(s, init);
      var t := DisconnectAll(s, init);
      AbortCancels(FinishCaller(t, last, Failed(ClientDisconnected)), t.callers[last].run);
    }
  }

  lemma SettleMovesOn(s: State, r: RunId, answer: Answer, expiresAt: int, i: RunId)
    requires Inv(s) && Enabled(s, Settle(r, answer, expiresAt)) && i < |s.runs|
    ensures i < |Step(s, Settle(r, answer, expiresAt)).phases|
    ensures MovesOn(s.phases[i], Step(s, Settle(r, answer, expiresAt)).phases[i])
  {
    SettledSlots(s, r, answer, expiresAt);
    if s.waiters != [] {
      HeadWaits(s);
    }
  }

  /** Every turn moves every run along these edges, or leaves it where it is. */
  lemma RunsMoveOn(s: State, a: Action, r: RunId)
    requires Inv(s) && Enabled(s, a) && r < |s.runs|
    ensures r < |Step(s, a).phases| && MovesOn(s.phases[r], Step(s, a).phases[r])
  {
    match a
    case Request(p, signal, now, waiterLimit) => RequestKeepsCallers(s, p, signal, now, waiterLimit);
    case Settle(i, answer, expiresAt) => SettleMovesOn(s, i, answer, expiresAt, r);
    case Refuse(i) =>
    case Answered(c) =>
    case HangUp(client) => CallbacksCancel(s.(gone := s.gone + {client}, hubs := s.hubs - {client}), if client in s.hubs then s.hubs[client] else []);
    case Drop(p) =>
      if p in s.inFlight {
        AbortCancels(Detached(s, p), s.inFlight[p]);
      }
  }

  lemma {:induction false} RefusedStaysRefused(s: State, actions: seq<Action>, t: State, r: RunId, failure: Failure)
    requires Inv(s) && Runs(s, actions, t) && r < |s.runs|
    requires s.phases[r] == Refused(failure) || (s.phases[r].Finished? && s.phases[r].answer == Failed(failure))
    ensures r < |t.phases|
    ensures t.phases[r] == Refused(failure) || (t.phases[r].Finished? && t.phases[r].answer == Failed(failure))
    decreases |actions|
  {
    if actions != [] {
      StepKeeps(s, actions[0]);
      RunsMoveOn(s, actions[0], r);
      RefusedStaysRefused(Step(s, actions[0]), actions[1..], t, r, failure);
    }
  }

  /**
   * A run that was refused a slot, because the queue was full or because it was aborted while it waited, never gets one:
   * in every continuation it fails with that very reason, and a caller whose client stayed connected is told it.
   */
  lemma RefusedCallersAreTold(s: State, actions: seq<Action>, t: State, r: RunId, c: CallerId)
    requires Reachable(s) && Reachable(t) && Runs(s, actions, t) && r < |s.runs| && s.phases[r].Refused?
    requires c < |t.callers| && t.callers[c].run == r && t.callers[c].answer.Some?
    requires t.callers[c].signal.Some? ==> t.callers[c].signal.value !in t.gone
    ensures t.callers[c].answer == Some(Failed(s.phases[r].failure))
  {
    ReachableHolds(s);
    RefusedStaysRefused(s, actions, t, r, s.phases[r].failure);
    ConnectedCallersGetTheirRunsAnswer(t, c);
  }

  /** The turn in which a refused run fails frees no slot, serves nobody, stores nothing and only takes it out of the flight. */
  lemma RefusalTouchesNoSlot(s: State, r: RunId)
    requires Enabled(s, Refuse(r))
    ensures var t, p := Step(s, Refuse(r)), s.runs[r].p;
            && t.activeRuns == s.activeRuns && t.waiters == s.waiters && t.cache == s.cache && t.callers == s.callers
            && t.phases == s.phases[r := Finished(Failed(s.phases[r].failure), r in s.aborted)]
            && t.inFlight == (if p in s.inFlight && s.inFlight[p] == r then s.inFlight - {p} else s.inFlight)
  {
  }

  // ---- Why a run was refused ----

  ghost predicate RefusalOk(s: State, r: RunId) {
    r < |s.phases| && s.phases[r].Refused? ==>
      s.phases[r].failure == QueueFull || (s.phases[r].failure == ClientDisconnected && r in s.aborted)
  }

  ghost predicate Refusals(s: State) {
    forall r :: RefusalOk(s, r)
  }

  lemma CallersOnlyCancelAborted(s: State, c: CallerId)
    requires Shape(s) && c < |s.callers| && Refusals(s)
    ensures Refusals(DisconnectCaller(s, c))
  {
    var t := DisconnectCaller(s, c);
    forall r ensures RefusalOk(t, r) {
      assert RefusalOk(s, r);
    }
  }

  lemma {:induction false} CallbacksOnlyCancelAborted(s: State, callbacks: seq<CallerId>)
    requires Shape(s) && Known(callbacks, |s.callers|) && Refusals(s)
    ensures Refusals(DisconnectAll(s, callbacks))
  {
    if callbacks != [] {
      CallbacksOnlyCancelAborted(s, callbacks[..|callbacks| - 1]);
      CallersOnlyCancelAborted(DisconnectAll(s, callbacks[..|callbacks| - 1]), callbacks[|callbacks| - 1]);
    }
  }

  lemma StartRefusesOnlyForTheQueue(s: State, p: ProjectId, background: bool, waiterLimit: nat)
    requires Inv(s)
    ensures var phase := StartRun(s, p, background, waiterLimit).phases[|s.runs|]; phase.Refused? ==> phase.failure == QueueFull
    ensures StartRun(s, p, background, waiterLimit).aborted == s.aborted
  {
    assert AbortsOk(s);
  }

  lemma RequestRefusesOnlyForTheQueue(s: State, p: ProjectId, signal: Option<SignalId>, now: int, waiterLimit: nat)
    requires Inv(s) && Refusals(s)
    ensures Refusals(Step(s, Request(p, signal, now, waiterLimit)))
  {
    var t := Step(s, Request(p, signal, now, waiterLimit));
    RequestKeepsCallers(s, p, signal, now, waiterLimit);
    RequestAbortsNothing(s, p, signal, now, waiterLimit);
    StartRefusesOnlyForTheQueue(s, p, p in s.cache, waiterLimit);
    forall r ensures RefusalOk(t, r) {
      assert RefusalOk(s, r);
    }
  }

  lemma RefusalsSame(s: State, t: State)
    requires Refusals(s) && t.phases == s.phases && t.aborted == s.aborted
    ensures Refusals(t)
  {
    forall r ensures RefusalOk(t, r) {
      assert RefusalOk(s, r);
    }
  }

  lemma SettleRefusesNobody(s: State, r: RunId, answer: Answer, expiresAt: int)
    requires Inv(s) && Refusals(s) && Enabled(s, Settle(r, answer, expiresAt))
    ensures Refusals(RunnerSettles(s, r, answer, expiresAt))
  {
    var t := RunnerSettles(s, r, answer, expiresAt);
    SettledSlots(s, r, answer, expiresAt);
    SettledTouches(s, r, answer, expiresAt);
    forall i ensures RefusalOk(t, i) {
      assert RefusalOk(s, i);
    }
  }

  lemma OneRunEnds(s: State, r: RunId)
    requires Refusals(s) && Enabled(s, Refuse(r))
    ensures Refusals(RefusalPropagates(s, r))
  {
    forall i ensures RefusalOk(RefusalPropagates(s, r), i) {
      assert RefusalOk(s, i);
    }
  }

  lemma InvalidationOnlyCancelsAborted(s: State, p: ProjectId)
    requires Shape(s) && Refusals(s)
    ensures Refusals(Invalidate(s, p))
  {
    forall r ensures RefusalOk(Invalidate(s, p), r) {
      assert RefusalOk(s, r);
    }
  }

  lemma RefusalsTurn(s: State, a: Action)
    requires Inv(s) && Refusals(s) && Enabled(s, a) && !a.Request?
    ensures Refusals(Turn(s, a))
  {
    match a
    case Settle(r, answer, expiresAt) => SettleRefusesNobody(s, r, answer, expiresAt);
    case Refuse(r) => OneRunEnds(s, r);
    case Answered(c) => RefusalsSame(s, Deliver(s, c));
    case HangUp(client) =>
      var dropped := s.(gone := s.gone + {client}, hubs := s.hubs - {client});
      RefusalsSame(s, dropped);
      CallbacksOnlyCancelAborted(dropped, if client in s.hubs then s.hubs[client] else []);
    case Drop(p) => InvalidationOnlyCancelsAborted(s, p);
  }

  lemma RefusalsNext(s: State, a: Action)
    requires Inv(s) && Refusals(s) && Enabled(s, a)
    ensures Refusals(Step(s, a))
  {
    if a.Request? {
      RequestRefusesOnlyForTheQueue(s, a.p, a.signal, a.now, a.waiterLimit);
    } else {
      RefusalsTurn(s, a);
      RefusalsSame(Turn(s, a), Step(s, a));
    }
  }

  lemma {:induction false} RefusalsOn(s: State, actions: seq<Action>, t: State)
    requires Inv(s) && Refusals(s) && Runs(s, actions, t)
    ensures Refusals(t)
    decreases |actions|
  {
    if actions != [] {
      StepKeeps(s, actions[0]);
      RefusalsNext(s, actions[0]);
      RefusalsOn(Step(s, actions[0]), actions[1..], t);
    }
  }

  /** A run is refused as disconnected only when it was aborted: a full queue is always told as such. */
  lemma OnlyAbortedRunsAreToldDisconnected(s: State, r: RunId)
    requires Reachable(s) && r < |s.phases| && s.phases[r].Refused?
    ensures s.phases[r].failure == QueueFull || (s.phases[r].failure == ClientDisconnected && r in s.aborted)
  {
    EmptyHolds();
    var actions: seq<Action> :| Runs(EMPTY, actions, s);
    RefusalsOn(EMPTY, actions, s);
    assert RefusalOk(s, r);
  }
}
