/** The promises of the status cache, over every run of its event loop. */
module SyncStatusCacheTheorems {
  import opened JsStrings
  import opened Model
  import opened SyncStatusCache
  import opened SyncStatusCacheFacts

  /** All but the clock. */
  ghost predicate Sound(s: State) {
    && Shape(s)
    && Slots(s.phases, s.activeRuns, s.waiters)
    && Flights(s)
    && Fresh(s)
    && Tokens(s)
    && HubsBut(s, [])
    && AbortsOk(s)
  }

  ghost predicate Inv(s: State) {
    Sound(s) && Clocked(s)
  }

  lemma EmptyHolds()
    ensures Inv(EMPTY)
  {
  }

  // ---- Requests ----

  lemma StartKeeps(s: State, p: ProjectId, waiterLimit: nat)
    requires Sound(s) && p !in s.inFlight
    ensures Sound(StartRun(s, p, p in s.cache, waiterLimit))
  {
    var t := StartRun(s, p, p in s.cache, waiterLimit);
    SlotsStart(s, p, p in s.cache, waiterLimit);
    AbortsSame(s, t);
    FlightsStart(s, p, waiterLimit);
    FreshStart(s, p, p in s.cache, waiterLimit);
    TokensStart(s, p, p in s.cache, waiterLimit);
    HubsSame(s, t, []);
  }

  lemma JoinKeeps(s: State, r: RunId, signal: Option<SignalId>)
    requires Sound(s) && r < |s.runs| && !s.runs[r].background && (signal.Some? ==> signal.value !in s.gone)
    ensures Sound(JoinRun(s, r, signal))
  {
    var t := Joined(s, r, signal);
    FlightsSame(s, t);
    FreshSame(s, t);
    TokensJoined(s, r, signal);
    HubsJoined(s, r, signal);
  }

  lemma TickKeeps(s: State)
    requires Sound(s)
    ensures Sound(s.(clock := s.clock + 1))
  {
    var t := s.(clock := s.clock + 1);
    FlightsSame(s, t);
    FreshSame(s, t);
    TokensSame(s, t);
    HubsSame(s, t, []);
  }

  lemma StartedRun(s: State, p: ProjectId, background: bool, waiterLimit: nat)
    requires Shape(s)
    ensures var t := StartRun(s, p, background, waiterLimit);
            && t.runs == s.runs + [Run(p, background, GenerationOf(s.generations, p), s.clock)]
            && t.generations == s.generations && t.invalidatedAt == s.invalidatedAt && t.clock == s.clock && t.gone == s.gone
  {
  }

  /** A request starts at most one run, of the current generation and at the current time. */
  ghost predicate Grows(s: State, t: State) {
    && t.generations == s.generations && t.invalidatedAt == s.invalidatedAt && t.clock == s.clock
    && (t.runs == s.runs || exists run: Run :: t.runs == s.runs + [run] && run.startedAt == s.clock && run.generation == GenerationOf(s.generations, run.p))
  }

  lemma StartGrows(s: State, p: ProjectId, background: bool, waiterLimit: nat)
    requires Shape(s)
    ensures Grows(s, StartRun(s, p, background, waiterLimit))
  {
    StartedRun(s, p, background, waiterLimit);
    var run := Run(p, background, GenerationOf(s.generations, p), s.clock);
    assert StartRun(s, p, background, waiterLimit).runs == s.runs + [run];
  }

  /** No cached value: the caller joins the run in flight, or starts one. */
  lemma GetJoins(s: State, p: ProjectId, signal: Option<SignalId>, now: int, waiterLimit: nat)
    requires Sound(s) && p !in s.cache && (signal.Some? ==> signal.value !in s.gone)
    ensures var t := Get(s, p, signal, now, waiterLimit).0; Sound(t) && Grows(s, t)
  {
    assert InFlightOk(s, p);
    if p in s.inFlight {
      JoinKeeps(s, s.inFlight[p], signal);
    } else {
      var started := StartRun(s, p, false, waiterLimit);
      StartKeeps(s, p, waiterLimit);
      StartedRun(s, p, false, waiterLimit);
      StartGrows(s, p, false, waiterLimit);
      JoinKeeps(started, |s.runs|, signal);
      assert Joined(started, |s.runs|, signal).runs == started.runs;
    }
  }

  lemma GetKeeps(s: State, p: ProjectId, signal: Option<SignalId>, now: int, waiterLimit: nat)
    requires Sound(s)
    ensures var t := Get(s, p, signal, now, waiterLimit).0; Sound(t) && Grows(s, t)
  {
    if signal.Some? && signal.value in s.gone {
    } else if p !in s.cache {
      GetJoins(s, p, signal, now, waiterLimit);
    } else if p !in s.inFlight {
      StartKeeps(s, p, waiterLimit);
      StartGrows(s, p, true, waiterLimit);
    }
  }

  lemma ClockedGrows(s: State, t: State, next: State)
    requires Clocked(s) && Grows(s, t) && next == t.(clock := s.clock + 1)
    ensures Clocked(next)
  {
    forall r ensures ClockOk(next, r) {
      assert ClockOk(s, r);
    }
  }

  lemma RequestKeeps(s: State, p: ProjectId, signal: Option<SignalId>, now: int, waiterLimit: nat)
    requires Inv(s)
    ensures Inv(Step(s, Request(p, signal, now, waiterLimit)))
  {
    var t := Get(s, p, signal, now, waiterLimit).0;
    GetKeeps(s, p, signal, now, waiterLimit);
    ClockedGrows(s, t, t.(clock := s.clock + 1));
    TickKeeps(t);
  }

  // ---- Runs that end ----

  /** What changes when a runner settles. */
  lemma SettledTouches(s: State, r: RunId, answer: Answer, expiresAt: int)
    requires Shape(s) && r < |s.runs|
    ensures var t := RunnerSettles(s, r, answer, expiresAt);
            t == s.(cache := WithCached(s, r, answer, expiresAt).cache, inFlight := Landed(s.inFlight, s.runs[r].p, r),
                    activeRuns := t.activeRuns, waiters := t.waiters, phases := t.phases)
  {
    ReleaseTouches(Ended(WithCached(s, r, answer, expiresAt), r, answer));
  }

  lemma SettledSlots(s: State, r: RunId, answer: Answer, expiresAt: int)
    requires Shape(s) && r < |s.runs| && s.phases[r].Holding? && Slots(s.phases, s.activeRuns, s.waiters)
    ensures var t := RunnerSettles(s, r, answer, expiresAt);
            && Slots(t.phases, t.activeRuns, t.waiters)
            && t.activeRuns + |t.waiters| == s.activeRuns + |s.waiters| - 1
            && (if s.waiters == [] then t.phases == s.phases[r := Finished(answer, r in s.aborted)] && t.waiters == []
                else t.phases == s.phases[r := Finished(answer, r in s.aborted)][s.waiters[0] := Holding] && t.waiters == s.waiters[1..])
  {
    SlotsRelease(WithCached(s, r, answer, expiresAt), r, Finished(answer, r in s.aborted));
  }

  lemma SettledPhases(s: State, r: RunId, answer: Answer, expiresAt: int)
    requires Shape(s) && r < |s.runs| && s.phases[r].Holding? && Slots(s.phases, s.activeRuns, s.waiters)
    ensures var t := RunnerSettles(s, r, answer, expiresAt);
            && |t.phases| == |s.phases| && t.phases[r] == Finished(answer, r in s.aborted)
            && SameFinished(s.phases[r := t.phases[r]], t.phases)
  {
    SettledSlots(s, r, answer, expiresAt);
    QueuedInHolds(s.phases);
    if s.waiters != [] {
      assert s.waiters[0] in s.waiters;
    }
  }

  lemma ReleaseTouches(s: State)
    requires Shape(s)
    ensures var t := ReleaseSlot(s); t == s.(activeRuns := t.activeRuns, waiters := t.waiters, phases := t.phases)
  {
  }

  lemma SettleKeeps(s: State, r: RunId, answer: Answer, expiresAt: int)
    requires Inv(s) && r < |s.runs| && s.phases[r].Holding?
    ensures Inv(Step(s, Settle(r, answer, expiresAt)))
  {
    var t := RunnerSettles(s, r, answer, expiresAt);
    SettledTouches(s, r, answer, expiresAt);
    SettledSlots(s, r, answer, expiresAt);
    SettledPhases(s, r, answer, expiresAt);
    CachedOnlyInFlight(s, r, answer, expiresAt);
    FlightsEnd(s, t, r);
    FreshEnd(s, t, r, answer, expiresAt);
    TokensSame(s, t);
    HubsSame(s, t, []);
    TickKeeps(t);
    ClockedGrows(s, t, Step(s, Settle(r, answer, expiresAt)));
  }

  /** Only the run in flight stores a value, and it leaves the flight in the same turn. */
  lemma CachedOnlyInFlight(s: State, r: RunId, answer: Answer, expiresAt: int)
    requires Shape(s) && Flights(s) && r < |s.runs| && !s.phases[r].Finished?
    ensures var keys, inFlight := WithCached(s, r, answer, expiresAt).cache.Keys, Landed(s.inFlight, s.runs[r].p, r);
            keys == s.cache.Keys || (inFlight != s.inFlight && keys == s.cache.Keys + {s.runs[r].p})
  {
    assert RunOk(s, r);
    if WithCached(s, r, answer, expiresAt) != s {
      assert s.runs[r].p in s.inFlight && s.runs[r].p !in Landed(s.inFlight, s.runs[r].p, r);
    }
  }

  lemma RefuseKeeps(s: State, r: RunId)
    requires Inv(s) && r < |s.runs| && s.phases[r].Refused?
    ensures Inv(Step(s, Refuse(r)))
  {
    var t := RefusalPropagates(s, r);
    SlotsRefuse(s, r);
    FlightsEnd(s, t, r);
    FreshEnd(s, t, r, Failed(s.phases[r].failure), 0);
    TokensSame(s, t);
    HubsSame(s, t, []);
    TickKeeps(t);
    ClockedGrows(s, t, Step(s, Refuse(r)));
  }

  // ---- Callers that leave ----

  lemma FinishTouches(s: State, c: CallerId, answer: Answer)
    requires Shape(s) && c < |s.callers|
    ensures var t := FinishCaller(s, c, answer); t == s.(callers := t.callers, tokens := t.tokens, hubs := t.hubs)
  {
  }

  lemma AnsweredKeeps(s: State, c: CallerId)
    requires Inv(s) && Enabled(s, Answered(c))
    ensures Inv(Step(s, Answered(c)))
  {
    var answer := s.phases[s.callers[c].run].answer;
    var t := FinishCaller(s, c, answer);
    FinishTouches(s, c, answer);
    FlightsSame(s, t);
    FreshSame(s, t);
    TokensFinish(s, c, answer);
    HubsFinish(s, c, answer, []);
    TickKeeps(t);
    ClockedGrows(s, t, Step(s, Answered(c)));
  }

  lemma HangUpKeeps(s: State, g: SignalId)
    requires Inv(s)
    ensures Inv(Step(s, HangUp(g)))
  {
    var dropped := s.(gone := s.gone + {g}, hubs := s.hubs - {g});
    var callbacks := if g in s.hubs then s.hubs[g] else [];
    var t := Disconnect(s, g);
    DisconnectAllDisconnects(dropped, callbacks);
    SlotsDisconnect(dropped, callbacks);
    FlightsSame(s, t);
    FreshSame(s, t);
    TokensSame(s, dropped);
    TokensDisconnect(dropped, callbacks);
    AbortsDisconnect(dropped, callbacks);
    HubsHangUp(s, g);
    TickKeeps(t);
    ClockedGrows(s, t, Step(s, HangUp(g)));
  }

  // ---- Invalidations ----

  lemma InvalidateKeepsSlots(s: State, p: ProjectId)
    requires Shape(s) && Slots(s.phases, s.activeRuns, s.waiters) && AbortsOk(s)
    ensures var t := Invalidate(s, p); Shape(t) && Slots(t.phases, t.activeRuns, t.waiters) && AbortsOk(t)
  {
    if p in s.inFlight {
      SlotsAbort(Detached(s, p), s.inFlight[p]);
      AbortsAbort(Detached(s, p), s.inFlight[p]);
    }
  }

  lemma DropKeeps(s: State, p: ProjectId)
    requires Inv(s)
    ensures Inv(Step(s, Drop(p)))
  {
    var t := Invalidate(s, p);
    InvalidateKeepsSlots(s, p);
    InvalidateTouches(s, p);
    FlightsInvalidated(s, t, p);
    FreshInvalidated(s, t, p);
    TokensSame(s, t);
    HubsSame(s, t, []);
    TickKeeps(t);
    ClockedInvalidated(s, Step(s, Drop(p)), p);
  }

  lemma ClockedInvalidated(s: State, t: State, p: ProjectId)
    requires Clocked(s) && Flights(s) && |s.runs| == |s.phases|
    requires t.runs == s.runs && t.clock == s.clock + 1
    requires t.generations == s.generations[p := GenerationOf(s.generations, p) + 1] && t.invalidatedAt == s.invalidatedAt[p := s.clock]
    ensures Clocked(t)
  {
    forall r ensures ClockOk(t, r) {
      assert ClockOk(s, r) && RunOk(s, r);
    }
  }

  // ---- Runs of the event loop ----

  lemma StepKeeps(s: State, a: Action)
    requires Inv(s) && Enabled(s, a)
    ensures Inv(Step(s, a))
  {
    match a
    case Request(p, signal, now, waiterLimit) => RequestKeeps(s, p, signal, now, waiterLimit);
    case Settle(r, answer, expiresAt) => SettleKeeps(s, r, answer, expiresAt);
    case Refuse(r) => RefuseKeeps(s, r);
    case Answered(c) => AnsweredKeeps(s, c);
    case HangUp(client) => HangUpKeeps(s, client);
    case Drop(p) => DropKeeps(s, p);
  }

  ghost predicate Runs(s: State, actions: seq<Action>, t: State)
    decreases |actions|
  {
    if actions == [] then s == t
    else Enabled(s, actions[0]) && Runs(Step(s, actions[0]), actions[1..], t)
  }

  lemma {:induction false} RunKeeps(s: State, actions: seq<Action>, t: State)
    requires Inv(s) && Runs(s, actions, t)
    ensures Inv(t)
    decreases |actions|
  {
    if actions != [] {
      StepKeeps(s, actions[0]);
      RunKeeps(Step(s, actions[0]), actions[1..], t);
    }
  }

  ghost predicate Reachable(s: State) {
    Shape(s) && exists actions: seq<Action> :: Runs(EMPTY, actions, s)
  }

  lemma ReachableHolds(s: State)
    requires Reachable(s)
    ensures Inv(s)
  {
    EmptyHolds();
    var actions: seq<Action> :| Runs(EMPTY, actions, s);
    RunKeeps(EMPTY, actions, s);
  }

  // ---- The slot scheduler ----

  ghost function Holders(phases: seq<Phase>): set<RunId> {
    set r: RunId | r < |phases| && phases[r].Holding?
  }

  lemma {:induction false} HoldersCounted(phases: seq<Phase>)
    ensures |Holders(phases)| == HoldingCount(phases)
  {
    if phases != [] {
      var last: RunId := |phases| - 1;
      var init := phases[..last];
      HoldersCounted(init);
      if phases[last].Holding? {
        assert Holders(phases) == Holders(init) + {last};
      } else {
        assert Holders(phases) == Holders(init);
      }
    }
  }

  /** The counter is the number of runs holding a slot, never above three; the queue holds exactly the waiting runs in order of arrival, and waits only while all slots are busy. */
  lemma SlotsAreExact(s: State)
    requires Reachable(s)
    ensures s.activeRuns == |Holders(s.phases)| <= MAX_CONCURRENT
    ensures forall r: RunId :: r in s.waiters <==> r < |s.phases| && s.phases[r].Queued?
    ensures Increasing(s.waiters)
    ensures s.waiters != [] ==> s.activeRuns == MAX_CONCURRENT
  {
    ReachableHolds(s);
    HoldersCounted(s.phases);
    QueuedInHolds(s.phases);
  }

  /** Every completion lowers active plus queued by exactly one, and its slot goes to the head of the queue. */
  lemma CompletionServesTheHead(s: State, r: RunId, answer: Answer, expiresAt: int)
    requires Reachable(s) && Enabled(s, Settle(r, answer, expiresAt))
    ensures var t := Step(s, Settle(r, answer, expiresAt));
            && t.activeRuns + |t.waiters| == s.activeRuns + |s.waiters| - 1
            && t.waiters == (if s.waiters == [] then [] else s.waiters[1..])
            && Holders(t.phases) == Holders(s.phases) - {r} + (if s.waiters == [] then {} else {s.waiters[0]})
  {
    ReachableHolds(s);
    SettledSlots(s, r, answer, expiresAt);
    HoldersSet(s.phases, r, Finished(answer, r in s.aborted));
    if s.waiters != [] {
      HeadWaits(s);
      HoldersSet(s.phases[r := Finished(answer, r in s.aborted)], s.waiters[0], Holding);
    }
  }

  lemma HeadWaits(s: State)
    requires Slots(s.phases, s.activeRuns, s.waiters) && s.waiters != []
    ensures s.waiters[0] < |s.phases| && s.phases[s.waiters[0]].Queued?
  {
    QueuedInHolds(s.phases);
    assert s.waiters[0] in s.waiters;
  }

  lemma HoldersSet(phases: seq<Phase>, r: RunId, phase: Phase)
    requires r < |phases|
    ensures Holders(phases[r := phase]) == Holders(phases) - {r} + (if phase.Holding? then {r} else {})
  {
  }

  /** With completions only, the queue drains from its front: after `n` of them the first `n` waiters were served. */
  lemma {:induction false} QueueDrainsInOrder(s: State, completions: seq<Action>, t: State)
    requires Inv(s) && Runs(s, completions, t) && forall a | a in completions :: a.Settle?
    ensures t.activeRuns + |t.waiters| == s.activeRuns + |s.waiters| - |completions|
    ensures t.waiters == if |completions| <= |s.waiters| then s.waiters[|completions|..] else []
    decreases |completions|
  {
    if completions != [] {
      var a := completions[0];
      assert a in completions;
      StepKeeps(s, a);
      SettledSlots(s, a.r, a.answer, a.expiresAt);
      QueueDrainsInOrder(Step(s, a), completions[1..], t);
    }
  }

  /** A started run gets a slot at once, waits at the end of the queue, or is refused when all slots are busy and the queue is full. */
  lemma StartedRunWaitsItsTurn(s: State, p: ProjectId, background: bool, waiterLimit: nat)
    requires Reachable(s)
    ensures var t, r := StartRun(s, p, background, waiterLimit), |s.runs|;
            && (t.phases[r].Holding? <==> s.activeRuns < MAX_CONCURRENT)
            && (t.phases[r] == Refused(QueueFull) <==> s.activeRuns == MAX_CONCURRENT && |s.waiters| >= waiterLimit)
            && (t.phases[r].Queued? <==> s.activeRuns == MAX_CONCURRENT && |s.waiters| < waiterLimit)
            && (t.phases[r].Queued? ==> t.waiters == s.waiters + [r])
            && (!t.phases[r].Queued? ==> t.waiters == s.waiters)
            && t.phases[..r] == s.phases
  {
    ReachableHolds(s);
  }

  // ---- Single flight ----

  /** A project has at most one unfinished run of its current generation: the one in flight, a background run iff a value is cached. */
  lemma SingleFlight(s: State, r: RunId)
    requires Reachable(s) && r < |s.runs|
    ensures var p := s.runs[r].p;
            && (!s.phases[r].Finished? && s.runs[r].generation == GenerationOf(s.generations, p) <==> p in s.inFlight && s.inFlight[p] == r)
            && (p in s.inFlight && s.inFlight[p] == r ==> (s.runs[r].background <==> p in s.cache))
  {
    ReachableHolds(s);
    assert RunOk(s, r) && InFlightOk(s, s.runs[r].p);
  }

  /** No caller ever waits for a background run. */
  lemma NoCallerJoinsABackgroundRun(s: State, c: CallerId)
    requires Reachable(s) && c < |s.callers|
    ensures !s.runs[s.callers[c].run].background
  {
    ReachableHolds(s);
    assert CallerOk(s, c);
  }

  /**
   * A connected request is answered at once exactly when a value is cached, however old; otherwise it waits for the one
   * run in flight. A stale value leaves a background run in flight.
   */
  lemma RequestsAreServed(s: State, p: ProjectId, signal: Option<SignalId>, now: int, waiterLimit: nat)
    requires Reachable(s) && (signal.Some? ==> signal.value !in s.gone)
    ensures var (t, reply) := Get(s, p, signal, now, waiterLimit);
            && (reply.Immediate? <==> p in s.cache)
            && (reply.Immediate? ==> reply.answer == Value(s.cache[p].status) && t.callers == s.callers
                                     && (s.cache[p].expiresAt <= now ==> p in t.inFlight))
            && (reply.Later? ==> reply.caller == |s.callers| < |t.callers| && t.callers[reply.caller].answer.None?
                                 && p in t.inFlight && t.callers[reply.caller].run == t.inFlight[p])
            && (p in s.inFlight || (p in s.cache && s.cache[p].expiresAt > now) ==> t.runs == s.runs)
            && |s.runs| <= |t.runs| <= |s.runs| + 1
            && (forall q | q != p :: (q in t.inFlight <==> q in s.inFlight) && (q in s.inFlight ==> t.inFlight[q] == s.inFlight[q]))
            && t.cache == s.cache
  {
    if p !in s.cache && p !in s.inFlight {
      StartedRun(s, p, false, waiterLimit);
    }
  }

  /** A request whose client is gone changes nothing. */
  lemma GoneClientsAreRefused(s: State, p: ProjectId, signal: SignalId, now: int, waiterLimit: nat)
    requires Reachable(s) && signal in s.gone
    ensures Get(s, p, Some(signal), now, waiterLimit) == (s, Immediate(Failed(ClientDisconnected)))
  {
  }

  /** No caller of a disconnected client is ever left waiting, and no run is kept going for one. */
  lemma GoneClientsWaitForNothing(s: State, c: CallerId)
    requires Reachable(s) && c < |s.callers| && s.callers[c].signal.Some? && s.callers[c].signal.value in s.gone
    ensures s.callers[c].answer.Some? && forall r | 0 <= r < |s.runs| :: c !in s.tokens[r]
  {
    ReachableHolds(s);
    assert SubscribedOk(s, c) && HubOk(s, s.callers[c].signal.value);
    forall r | 0 <= r < |s.runs| ensures c !in s.tokens[r] {
      assert TokensOk(s, r);
    }
  }

  /** A settled run stores its value exactly when it is still in flight and not aborted; a failure is never stored. */
  lemma OnlyTheRunInFlightIsCached(s: State, r: RunId, answer: Answer, expiresAt: int)
    requires Reachable(s) && Enabled(s, Settle(r, answer, expiresAt))
    ensures var t, p := Step(s, Settle(r, answer, expiresAt)), s.runs[r].p;
            && t.cache == (if answer.Value? && r !in s.aborted && p in s.inFlight && s.inFlight[p] == r
                           then s.cache[p := CacheEntry(expiresAt, answer.status, r)] else s.cache)
            && !(p in t.inFlight && t.inFlight[p] == r)
  {
    SingleFlight(s, r);
    SettledTouches(s, r, answer, expiresAt);
  }

  // ---- Invalidation ----

  /** Whatever overlapped, a cached value comes from a run that started after the last invalidation and was not aborted. */
  lemma CachedValuesAreFresh(s: State, p: ProjectId)
    requires Reachable(s) && p in s.cache
    ensures var r := s.cache[p].producer;
            && r < |s.runs| == |s.phases| && s.runs[r].p == p
            && s.phases[r] == Finished(Value(s.cache[p].status), false)
            && (p in s.invalidatedAt ==> s.invalidatedAt[p] < s.runs[r].startedAt)
  {
    ReachableHolds(s);
    assert EntryOk(s, p) && ClockOk(s, s.cache[p].producer);
  }

  /** An invalidation drops the value and detaches and aborts the run in flight. */
  lemma InvalidationDetaches(s: State, p: ProjectId)
    requires Reachable(s)
    ensures var t := Step(s, Drop(p));
            && p !in t.cache && p !in t.inFlight && t.invalidatedAt == s.invalidatedAt[p := s.clock]
            && (p in s.inFlight ==> s.inFlight[p] in t.aborted && !t.phases[s.inFlight[p]].Queued?)
            && (forall q | q != p :: (q in t.cache <==> q in s.cache) && (q in s.cache ==> t.cache[q] == s.cache[q]))
  {
    ReachableHolds(s);
    InvalidateTouches(s, p);
    DropKeeps(s, p);
  }

  lemma InvalidateTouches(s: State, p: ProjectId)
    requires Shape(s)
    ensures var t := Invalidate(s, p);
            && t.cache == s.cache - {p} && t.inFlight == s.inFlight - {p} && t.invalidatedAt == s.invalidatedAt[p := s.clock]
            && t.generations == s.generations[p := GenerationOf(s.generations, p) + 1]
            && t.runs == s.runs && t.callers == s.callers && t.tokens == s.tokens && t.hubs == s.hubs && t.gone == s.gone && t.clock == s.clock
            && t.aborted == s.aborted + (if p in s.inFlight then {s.inFlight[p]} else {})
            && SameFinished(s.phases, t.phases)
  {
    if p in s.inFlight {
      AbortTouches(Detached(s, p), s.inFlight[p]);
    } else {
      assert s.inFlight - {p} == s.inFlight;
    }
  }


  // ---- Callers ----

  /** The tokens of a run are exactly its unsettled callers. */
  lemma TokensAreTheUnsettledCallers(s: State, r: RunId, c: CallerId)
    requires Reachable(s) && r < |s.runs|
    ensures c in s.tokens[r] <==> c < |s.callers| && s.callers[c].run == r && s.callers[c].answer.None?
  {
    ReachableHolds(s);
    assert CallerOk(s, c) && TokensOk(s, r);
  }

  /** Who waits for a signal: the callers its hub calls back. */
  lemma HubHolds(s: State, g: SignalId, c: CallerId)
    requires Sound(s) && c < |s.callers|
    ensures (g in s.hubs && c in s.hubs[g]) <==> s.callers[c].signal == Some(g) && s.callers[c].answer.None?
  {
    assert HubOk(s, g) && SubscribedOk(s, c);
  }

  /** A disconnect answers the unsettled callers of that client with a 499, and no other caller. */
  lemma DisconnectAnswersOnlyItsCallers(s: State, g: SignalId, c: CallerId)
    requires Reachable(s) && c < |s.callers|
    ensures var t := Step(s, HangUp(g));
            && |t.callers| == |s.callers|
            && t.callers[c] == if s.callers[c].signal == Some(g) && s.callers[c].answer.None?
                               then s.callers[c].(answer := Some(Failed(ClientDisconnected))) else s.callers[c]
  {
    ReachableHolds(s);
    HubHolds(s, g, c);
    DisconnectAllDisconnects(s.(gone := s.gone + {g}, hubs := s.hubs - {g}), if g in s.hubs then s.hubs[g] else []);
  }

  /** A caller settles at most once. */
  lemma SettledCallersStaySettled(s: State, a: Action, c: CallerId)
    requires Reachable(s) && Enabled(s, a) && c < |s.callers| && s.callers[c].answer.Some?
    ensures c < |Step(s, a).callers| && Step(s, a).callers[c] == s.callers[c]
  {
    match a
    case Request(p, signal, now, waiterLimit) => RequestKeepsCallers(s, p, signal, now, waiterLimit);
    case Settle(r, answer, expiresAt) => SettledTouches(s, r, answer, expiresAt);
    case Refuse(r) =>
    case Answered(i) =>
    case HangUp(client) => DisconnectAnswersOnlyItsCallers(s, client, c);
    case Drop(p) => InvalidateTouches(s, p);
  }

  lemma RequestKeepsCallers(s: State, p: ProjectId, signal: Option<SignalId>, now: int, waiterLimit: nat)
    requires Shape(s)
    ensures var t := Get(s, p, signal, now, waiterLimit).0;
            && s.callers <= t.callers && s.phases <= t.phases && t.gone == s.gone
            && forall c | |s.callers| <= c < |t.callers| :: t.callers[c].answer.None?
  {
    if p !in s.inFlight {
      StartAdds(s, p, p in s.cache, waiterLimit);
    }
  }

  lemma StartAdds(s: State, p: ProjectId, background: bool, waiterLimit: nat)
    requires Shape(s)
    ensures var t := StartRun(s, p, background, waiterLimit); t.callers == s.callers && s.phases <= t.phases && t.gone == s.gone
  {
  }

  // ---- Who aborts a run ----

  lemma DisconnectOneAborts(s: State, c: CallerId, r: RunId)
    requires Shape(s) && Tokens(s) && c < |s.callers| && s.callers[c].answer.None? && r < |s.runs|
    ensures var t := DisconnectCaller(s, c);
            && t.tokens[r] == (if r == s.callers[c].run then s.tokens[r] - {c} else s.tokens[r])
            && (r in t.aborted <==> r in s.aborted || (r == s.callers[c].run && t.tokens[r] == {}))
  {
    assert CallerOk(s, c);
    AbortTouches(FinishCaller(s, c, Failed(ClientDisconnected)), s.callers[c].run);
  }

  ghost predicate Joins(s: State, callbacks: seq<CallerId>, r: RunId)
    requires Known(callbacks, |s.callers|)
  {
    exists i :: 0 <= i < |callbacks| && s.callers[callbacks[i]].run == r
  }

  /** A run is aborted by the callback that empties its token set. */
  lemma {:induction false} CallbacksAbort(s: State, callbacks: seq<CallerId>, r: RunId)
    requires Shape(s) && Tokens(s) && r < |s.runs| && Known(callbacks, |s.callers|) && Increasing(callbacks)
    requires forall i | 0 <= i < |callbacks| :: s.callers[callbacks[i]].answer.None?
    ensures var t := DisconnectAll(s, callbacks);
            r in t.aborted <==> r in s.aborted || (Joins(s, callbacks, r) && t.tokens[r] == {})
  {
    if callbacks != [] {
      var init, last := callbacks[..|callbacks| - 1], callbacks[|callbacks| - 1];
      assert callbacks == init + [last];
      CallbacksAbort(s, init, r);
      TokensDisconnect(s, init);
      DisconnectAllDisconnects(s, init);
      var u := DisconnectAll(s, init);
      assert last !in init;
      assert u.callers[last] == s.callers[last];
      DisconnectOneAborts(u, last, r);
      assert CallerOk(u, last);
      assert Joins(s, callbacks, r) <==> Joins(s, init, r) || s.callers[last].run == r by {
        assert callbacks[|init|] == last;
        assert forall i | 0 <= i < |init| :: callbacks[i] == init[i];
      }
    }
  }

  /** All the callers a run still has, at least one, gave up through the same client. */
  ghost predicate LosesItsLastCallers(s: State, g: SignalId, r: RunId)
    requires Shape(s) && r < |s.runs|
  {
    s.tokens[r] != {} && forall c | c in s.tokens[r] :: c < |s.callers| && s.callers[c].signal == Some(g)
  }

  /** After a disconnect a run keeps exactly the tokens of its callers with other clients. */
  lemma HangUpTokens(s: State, g: SignalId, r: RunId, c: CallerId)
    requires Sound(s) && r < |s.runs|
    ensures r < |Disconnect(s, g).tokens|
    ensures c in Disconnect(s, g).tokens[r] <==> c in s.tokens[r] && !(c < |s.callers| && s.callers[c].signal == Some(g))
  {
    var dropped := s.(gone := s.gone + {g}, hubs := s.hubs - {g});
    var callbacks := if g in s.hubs then s.hubs[g] else [];
    var t := Disconnect(s, g);
    TokensSame(s, dropped);
    TokensDisconnect(dropped, callbacks);
    DisconnectAllDisconnects(dropped, callbacks);
    assert CallerOk(s, c) && TokensOk(s, r) && CallerOk(t, c) && TokensOk(t, r);
    if c < |s.callers| {
      HubHolds(s, g, c);
    }
  }

  /** The hub of a signal calls back for a run exactly when some unsettled caller of the run has that signal. */
  lemma HubJoins(s: State, g: SignalId, r: RunId)
    requires Sound(s) && r < |s.runs| && g in s.hubs
    ensures Joins(s, s.hubs[g], r) <==> exists c :: c in s.tokens[r] && c < |s.callers| && s.callers[c].signal == Some(g)
  {
    var callbacks := s.hubs[g];
    if Joins(s, callbacks, r) {
      var i :| 0 <= i < |callbacks| && s.callers[callbacks[i]].run == r;
      assert callbacks[i] in callbacks;
      HubHolds(s, g, callbacks[i]);
      assert CallerOk(s, callbacks[i]);
    }
    if c :| c in s.tokens[r] && c < |s.callers| && s.callers[c].signal == Some(g) {
      assert TokensOk(s, r);
      HubHolds(s, g, c);
      var i :| 0 <= i < |callbacks| && callbacks[i] == c;
      assert Joins(s, callbacks, r);
    }
  }

  lemma HangUpAborts(s: State, g: SignalId, r: RunId)
    requires Sound(s) && r < |s.runs|
    ensures r in Disconnect(s, g).aborted <==> r in s.aborted || LosesItsLastCallers(s, g, r)
  {
    var t := Disconnect(s, g);
    HangUpTokensEmpty(s, g, r);
    if g in s.hubs {
      HangUpCallbacks(s, g, r);
      HubJoins(s, g, r);
    } else if s.tokens[r] != {} {
      var c :| c in s.tokens[r];
      NoHubNoCaller(s, g, r, c);
    }
  }

  lemma NoHubNoCaller(s: State, g: SignalId, r: RunId, c: CallerId)
    requires Sound(s) && r < |s.runs| && g !in s.hubs && c in s.tokens[r]
    ensures c < |s.callers| && s.callers[c].signal != Some(g)
  {
    assert TokensOk(s, r);
    HubHolds(s, g, c);
  }

  lemma HangUpTokensEmpty(s: State, g: SignalId, r: RunId)
    requires Sound(s) && r < |s.runs|
    ensures r < |Disconnect(s, g).tokens|
    ensures Disconnect(s, g).tokens[r] == {} <==> forall c | c in s.tokens[r] :: c < |s.callers| && s.callers[c].signal == Some(g)
  {
    forall c: CallerId
      ensures r < |Disconnect(s, g).tokens|
      ensures c in Disconnect(s, g).tokens[r] <==> c in s.tokens[r] && !(c < |s.callers| && s.callers[c].signal == Some(g))
    {
      HangUpTokens(s, g, r, c);
    }
  }

  lemma HangUpCallbacks(s: State, g: SignalId, r: RunId)
    requires Sound(s) && r < |s.runs| && g in s.hubs && r < |Disconnect(s, g).tokens|
    ensures var t := Disconnect(s, g); r in t.aborted <==> r in s.aborted || (Joins(s, s.hubs[g], r) && t.tokens[r] == {})
  {
    var dropped := s.(gone := s.gone + {g}, hubs := s.hubs - {g});
    TokensSame(s, dropped);
    assert HubOk(s, g);
    assert forall i | 0 <= i < |s.hubs[g]| :: s.hubs[g][i] in s.hubs[g];
    CallbacksAbort(dropped, s.hubs[g], r);
    assert Joins(dropped, s.hubs[g], r) == Joins(s, s.hubs[g], r);
  }

  /**
   * A run is aborted exactly by an invalidation while it is in flight, or by the disconnect of the client through which
   * its last unsettled callers came. Nothing else aborts a run.
   */
  lemma AbortedOnlyByInvalidationOrLastDisconnect(s: State, a: Action, r: RunId)
    requires Reachable(s) && Enabled(s, a) && r < |s.runs| && r !in s.aborted
    ensures r in Step(s, a).aborted <==>
              || (a.Drop? && a.p in s.inFlight && s.inFlight[a.p] == r)
              || (a.HangUp? && LosesItsLastCallers(s, a.client, r))
  {
    ReachableHolds(s);
    if a.HangUp? {
      HangUpAborts(s, a.client, r);
    } else if a.Drop? {
      InvalidateTouches(s, a.p);
    } else {
      OtherTurnsAbortNothing(s, a);
    }
  }

  lemma OtherTurnsAbortNothing(s: State, a: Action)
    requires Sound(s) && Enabled(s, a) && !a.HangUp? && !a.Drop?
    ensures Turn(s, a).aborted == s.aborted
  {
    match a
    case Request(p, signal, now, waiterLimit) => RequestAbortsNothing(s, p, signal, now, waiterLimit);
    case Settle(r, answer, expiresAt) => SettledTouches(s, r, answer, expiresAt);
    case Refuse(r) =>
    case Answered(c) =>
  }

  lemma RequestAbortsNothing(s: State, p: ProjectId, signal: Option<SignalId>, now: int, waiterLimit: nat)
    requires Shape(s)
    ensures Get(s, p, signal, now, waiterLimit).0.aborted == s.aborted
  {
  }

  // ---- What callers are told ----

  /** A settled caller has the answer of its run, or a 499 because its own client disconnected. */
  ghost predicate AnswerOk(s: State, c: CallerId)
    requires Shape(s)
  {
    c < |s.callers| && s.callers[c].answer.Some? ==>
      || (s.phases[s.callers[c].run].Finished? && s.callers[c].answer.value == s.phases[s.callers[c].run].answer)
      || (s.callers[c].answer.value == Failed(ClientDisconnected) && s.callers[c].signal.Some? && s.callers[c].signal.value in s.gone)
  }

  ghost predicate Answers(s: State) {
    Shape(s) && forall c :: AnswerOk(s, c)
  }

  lemma AnswersGrow(s: State, t: State)
    requires Answers(s) && Shape(t) && |t.callers| >= |s.callers| && t.gone >= s.gone && |t.phases| >= |s.phases|
    requires forall r | 0 <= r < |s.phases| && s.phases[r].Finished? :: t.phases[r] == s.phases[r]
    requires forall c | 0 <= c < |s.callers| :: t.callers[c] == s.callers[c]
    requires forall c | |s.callers| <= c < |t.callers| :: t.callers[c].answer.None?
    ensures Answers(t)
  {
    forall c ensures AnswerOk(t, c) {
      assert AnswerOk(s, c);
    }
  }

  lemma AnswersHangUp(s: State, g: SignalId)
    requires Inv(s) && Answers(s)
    ensures Answers(Disconnect(s, g))
  {
    var t := Disconnect(s, g);
    var dropped := s.(gone := s.gone + {g}, hubs := s.hubs - {g});
    var callbacks := if g in s.hubs then s.hubs[g] else [];
    DisconnectAllDisconnects(dropped, callbacks);
    forall c: CallerId ensures AnswerOk(t, c) {
      assert AnswerOk(s, c);
      if c < |s.callers| {
        HubHolds(s, g, c);
      }
    }
  }

  lemma AnswersAnswered(s: State, c: CallerId)
    requires Inv(s) && Answers(s) && Enabled(s, Answered(c))
    ensures Answers(Deliver(s, c))
  {
    var t := Deliver(s, c);
    forall i: CallerId ensures AnswerOk(t, i) {
      assert AnswerOk(s, i);
    }
  }

  lemma AnswersRequest(s: State, p: ProjectId, signal: Option<SignalId>, now: int, waiterLimit: nat)
    requires Inv(s) && Answers(s)
    ensures Answers(Get(s, p, signal, now, waiterLimit).0)
  {
    GetKeeps(s, p, signal, now, waiterLimit);
    RequestKeepsCallers(s, p, signal, now, waiterLimit);
    AnswersGrow(s, Get(s, p, signal, now, waiterLimit).0);
  }

  lemma AnswersSettle(s: State, r: RunId, answer: Answer, expiresAt: int)
    requires Inv(s) && Answers(s) && Enabled(s, Settle(r, answer, expiresAt))
    ensures Answers(RunnerSettles(s, r, answer, expiresAt))
  {
    SettledTouches(s, r, answer, expiresAt);
    SettledPhases(s, r, answer, expiresAt);
    var t := RunnerSettles(s, r, answer, expiresAt);
    AnswersGrow(s, t);
  }

  lemma AnswersDrop(s: State, p: ProjectId)
    requires Inv(s) && Answers(s)
    ensures Answers(Invalidate(s, p))
  {
    InvalidateTouches(s, p);
    InvalidateKeepsSlots(s, p);
    AnswersGrow(s, Invalidate(s, p));
  }

  lemma AnswersStep(s: State, a: Action)
    requires Inv(s) && Answers(s) && Enabled(s, a)
    ensures Answers(Step(s, a))
  {
    AnswersTurn(s, a);
    AnswersGrow(Turn(s, a), Step(s, a));
  }

  lemma AnswersTurn(s: State, a: Action)
    requires Inv(s) && Answers(s) && Enabled(s, a)
    ensures Answers(Turn(s, a))
  {
    match a
    case Request(p, signal, now, waiterLimit) => AnswersRequest(s, p, signal, now, waiterLimit);
    case Settle(r, answer, expiresAt) => AnswersSettle(s, r, answer, expiresAt);
    case Refuse(r) => AnswersGrow(s, RefusalPropagates(s, r));
    case Answered(c) => AnswersAnswered(s, c);
    case HangUp(client) => AnswersHangUp(s, client);
    case Drop(p) => AnswersDrop(s, p);
  }

  lemma {:induction false} AnswersRun(s: State, actions: seq<Action>, t: State)
    requires Inv(s) && Answers(s) && Runs(s, actions, t)
    ensures Answers(t)
    decreases |actions|
  {
    if actions != [] {
      StepKeeps(s, actions[0]);
      AnswersStep(s, actions[0]);
      AnswersRun(Step(s, actions[0]), actions[1..], t);
    }
  }

  /** A caller whose client stays connected gets exactly the answer of its run. */
  lemma ConnectedCallersGetTheirRunsAnswer(s: State, c: CallerId)
    requires Reachable(s) && c < |s.callers| && s.callers[c].answer.Some?
    requires s.callers[c].signal.Some? ==> s.callers[c].signal.value !in s.gone
    ensures s.phases[s.callers[c].run].Finished? && s.callers[c].answer == Some(s.phases[s.callers[c].run].answer)
  {
    EmptyHolds();
    var actions: seq<Action> :| Runs(EMPTY, actions, s);
    AnswersRun(EMPTY, actions, s);
    assert AnswerOk(s, c);
  }
}
