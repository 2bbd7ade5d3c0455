/**
 * The status cache (`SyncStatusCache.ts`): stale-while-revalidate, one run per project, three slots with a bounded queue,
 * reference-counted callers, invalidation by generation. Every function is one synchronous piece of the module, between
 * two turns of the event loop; callbacks that re-enter it are part of the piece that triggers them.
 */
module SyncStatusCache {
  import opened JsStrings
  import opened Model

  const MAX_CONCURRENT := 3

  type RunId = nat
  type CallerId = nat
  type SignalId = nat

  /** The status a run computes. */
  type Status = JsString

  datatype Failure = ClientDisconnected | QueueFull | RunnerFailed

  datatype Answer = Value(status: Status) | Failed(failure: Failure)

  /** What never changes of a run; `startedAt` records the moment `startRun` read the generation. */
  datatype Run = Run(p: ProjectId, background: bool, generation: nat, startedAt: nat)

  /**
   * How far the run's async function got: waiting for a slot, holding one, refused one and about to fail, or settled
   * (`aborted` records whether its controller was aborted at that moment).
   */
  datatype Phase = Queued | Holding | Refused(failure: Failure) | Finished(answer: Answer, aborted: bool)

  /** A request that joined a run; `answer` once its promise settled. */
  datatype Caller = Caller(run: RunId, signal: Option<SignalId>, answer: Option<Answer>)

  /** `producer` records the run that stored the entry. */
  datatype CacheEntry = CacheEntry(expiresAt: int, status: Status, producer: RunId)

  /**
   * `aborted` are the runs whose controller is aborted, `tokens` the token set of each run, `hubs` the callbacks
   * subscribed on each request signal, `gone` the aborted signals. `clock` and `invalidatedAt` record the history.
   */
  datatype State = State(
    cache: map<ProjectId, CacheEntry>,
    inFlight: map<ProjectId, RunId>,
    generations: map<ProjectId, nat>,
    activeRuns: nat,
    waiters: seq<RunId>,
    runs: seq<Run>,
    phases: seq<Phase>,
    aborted: set<RunId>,
    tokens: seq<set<CallerId>>,
    callers: seq<Caller>,
    hubs: map<SignalId, seq<CallerId>>,
    gone: set<SignalId>,
    clock: nat,
    invalidatedAt: map<ProjectId, nat>)

  const EMPTY := State(map[], map[], map[], 0, [], [], [], {}, [], [], map[], {}, 0, map[])

  /** What the types of the module's objects grant: ids name runs and callers that exist. */
  ghost predicate Shape(s: State) {
    && |s.runs| == |s.phases| == |s.tokens|
    && Known(s.waiters, |s.runs|)
    && (forall p | p in s.inFlight :: s.inFlight[p] < |s.runs|)
    && (forall i | 0 <= i < |s.callers| :: s.callers[i].run < |s.runs|)
    && (forall g | g in s.hubs :: Known(s.hubs[g], |s.callers|))
  }

  ghost predicate Known(ids: seq<nat>, count: nat) {
    forall i | 0 <= i < |ids| :: ids[i] < count
  }

  function GenerationOf(generations: map<ProjectId, nat>, p: ProjectId): nat {
    if p in generations then generations[p] else 0
  }

  /** `splice` of the first occurrence. */
  function Without(q: seq<nat>, x: nat): (r: seq<nat>)
    ensures forall i | 0 <= i < |r| :: r[i] in q
  {
    if q == [] then [] else if q[0] == x then q[1..] else [q[0]] + Without(q[1..], x)
  }

  // ---- Slots ----

  /** The slot counter, the queue and the phase of a run that asks for a slot. */
  function AcquireSlot(activeRuns: nat, waiters: seq<RunId>, r: RunId, aborted: bool, waiterLimit: nat): (nat, seq<RunId>, Phase) {
    if aborted then (activeRuns, waiters, Refused(ClientDisconnected))
    else if activeRuns < MAX_CONCURRENT then (activeRuns + 1, waiters, Holding)
    else if |waiters| >= waiterLimit then (activeRuns, waiters, Refused(QueueFull))
    else (activeRuns, waiters + [r], Queued)
  }

  function Grant(s: State, w: RunId): State
    requires w < |s.phases|
  {
    if s.phases[w].Queued? then s.(phases := s.phases[w := Holding], activeRuns := s.activeRuns + 1) else s
  }

  function ReleaseSlot(s: State): (next: State)
    requires Shape(s)
    ensures Shape(next) && next.runs == s.runs
  {
    var freed := s.(activeRuns := if s.activeRuns > 0 then s.activeRuns - 1 else 0);
    if s.waiters == [] then freed else Grant(freed.(waiters := s.waiters[1..]), s.waiters[0])
  }

  function CancelWaiter(s: State, r: RunId): (next: State)
    requires Shape(s) && r < |s.runs|
    ensures Shape(next)
  {
    if s.phases[r].Queued? then s.(waiters := Without(s.waiters, r), phases := s.phases[r := Refused(ClientDisconnected)]) else s
  }

  /** `controller.abort()`: a queued run leaves the queue at once. */
  function Abort(s: State, r: RunId): (next: State)
    requires Shape(s) && r < |s.runs|
    ensures Shape(next) && next.callers == s.callers && next.runs == s.runs
  {
    if r in s.aborted then s else CancelWaiter(s.(aborted := s.aborted + {r}), r)
  }

  // ---- Runs ----

  function StartRun(s: State, p: ProjectId, background: bool, waiterLimit: nat): (next: State)
    requires Shape(s)
    ensures Shape(next) && |next.runs| == |s.runs| + 1
  {
    var r := |s.runs|;
    var (activeRuns, waiters, phase) := AcquireSlot(s.activeRuns, s.waiters, r, r in s.aborted, waiterLimit);
    s.(activeRuns := activeRuns, waiters := waiters, phases := s.phases + [phase],
       runs := s.runs + [Run(p, background, GenerationOf(s.generations, p), s.clock)],
       tokens := s.tokens + [{}], inFlight := s.inFlight[p := r])
  }

  /** The identity check of the `finally` block. */
  function Landed(inFlight: map<ProjectId, RunId>, p: ProjectId, r: RunId): map<ProjectId, RunId> {
    if p in inFlight && inFlight[p] == r then inFlight - {p} else inFlight
  }

  function WithCached(s: State, r: RunId, answer: Answer, expiresAt: int): (next: State)
    requires Shape(s) && r < |s.runs|
    ensures Shape(next) && next.runs == s.runs
  {
    var p := s.runs[r].p;
    if answer.Value? && r !in s.aborted && s.runs[r].generation == GenerationOf(s.generations, p) then
      s.(cache := s.cache[p := CacheEntry(expiresAt, answer.status, r)])
    else s
  }

  function Ended(s: State, r: RunId, answer: Answer): (next: State)
    requires Shape(s) && r < |s.runs|
    ensures Shape(next) && next.runs == s.runs
  {
    s.(phases := s.phases[r := Finished(answer, r in s.aborted)])
  }

  function Land(s: State, r: RunId): (next: State)
    requires Shape(s) && r < |s.runs|
    ensures Shape(next)
  {
    s.(inFlight := Landed(s.inFlight, s.runs[r].p, r))
  }

  /** The runner settled: cache the value if it may be, free the slot, land. */
  function RunnerSettles(s: State, r: RunId, answer: Answer, expiresAt: int): State
    requires Shape(s) && r < |s.runs|
  {
    Land(ReleaseSlot(Ended(WithCached(s, r, answer, expiresAt), r, answer)), r)
  }

  /** A refused run fails without a slot. */
  function RefusalPropagates(s: State, r: RunId): State
    requires Shape(s) && r < |s.runs| && s.phases[r].Refused?
  {
    Land(Ended(s, r, Failed(s.phases[r].failure)), r)
  }

  // ---- Callers ----

  function Unsubscribed(hubs: map<SignalId, seq<CallerId>>, signal: Option<SignalId>, c: CallerId): map<SignalId, seq<CallerId>> {
    if signal.None? || signal.value !in hubs then hubs
    else
      var callbacks := Without(hubs[signal.value], c);
      if callbacks == [] then hubs - {signal.value} else hubs[signal.value := callbacks]
  }

  /** `finish`: settles a caller once. */
  function FinishCaller(s: State, c: CallerId, answer: Answer): (next: State)
    requires Shape(s) && c < |s.callers|
    ensures Shape(next) && |next.callers| == |s.callers| && next.runs == s.runs
  {
    var caller := s.callers[c];
    if caller.answer.Some? then s
    else
      s.(callers := s.callers[c := caller.(answer := Some(answer))],
         tokens := s.tokens[caller.run := s.tokens[caller.run] - {c}],
         hubs := Unsubscribed(s.hubs, caller.signal, c))
  }

  /** The callback a caller subscribed on its request signal. */
  function DisconnectCaller(s: State, c: CallerId): (next: State)
    requires Shape(s) && c < |s.callers|
    ensures Shape(next) && |next.callers| == |s.callers| && next.runs == s.runs
  {
    var r := s.callers[c].run;
    var finished := FinishCaller(s, c, Failed(ClientDisconnected));
    if finished.tokens[r] == {} && !s.runs[r].background then Abort(finished, r) else finished
  }

  function Subscribed(hubs: map<SignalId, seq<CallerId>>, signal: SignalId, c: CallerId): map<SignalId, seq<CallerId>> {
    hubs[signal := (if signal in hubs then hubs[signal] else []) + [c]]
  }

  /** The new caller of a run has the next id. */
  function Joined(s: State, r: RunId, signal: Option<SignalId>): (next: State)
    requires Shape(s) && r < |s.runs|
    ensures Shape(next)
  {
    var c := |s.callers|;
    s.(callers := s.callers + [Caller(r, signal, None)],
       tokens := s.tokens[r := s.tokens[r] + {c}],
       hubs := if signal.Some? && signal.value !in s.gone then Subscribed(s.hubs, signal.value, c) else s.hubs)
  }

  /** Subscribing on a signal that is already aborted calls back at once. */
  function JoinRun(s: State, r: RunId, signal: Option<SignalId>): State
    requires Shape(s) && r < |s.runs|
  {
    var joined := Joined(s, r, signal);
    if signal.Some? && signal.value in s.gone then DisconnectCaller(joined, |s.callers|) else joined
  }

  // ---- Entry points ----

  /** What a request gets: an answer at once, or the caller that will be answered. */
  datatype Reply = Immediate(answer: Answer) | Later(caller: CallerId)

  function Get(s: State, p: ProjectId, signal: Option<SignalId>, now: int, waiterLimit: nat): (State, Reply)
    requires Shape(s)
  {
    if signal.Some? && signal.value in s.gone then (s, Immediate(Failed(ClientDisconnected)))
    else if p in s.cache && s.cache[p].expiresAt > now then (s, Immediate(Value(s.cache[p].status)))
    else if p in s.cache then
      (if p in s.inFlight then s else StartRun(s, p, true, waiterLimit), Immediate(Value(s.cache[p].status)))
    else if p in s.inFlight then (JoinRun(s, s.inFlight[p], signal), Later(|s.callers|))
    else (JoinRun(StartRun(s, p, false, waiterLimit), |s.runs|, signal), Later(|s.callers|))
  }

  function Dropped(s: State, p: ProjectId): (next: State)
    requires Shape(s)
    ensures Shape(next) && next.inFlight == s.inFlight && next.runs == s.runs
  {
    s.(cache := s.cache - {p}, generations := s.generations[p := GenerationOf(s.generations, p) + 1],
       invalidatedAt := s.invalidatedAt[p := s.clock])
  }

  function Detached(s: State, p: ProjectId): (next: State)
    requires Shape(s)
    ensures Shape(next) && next.runs == s.runs
  {
    Dropped(s, p).(inFlight := s.inFlight - {p})
  }

  function Invalidate(s: State, p: ProjectId): State
    requires Shape(s)
  {
    if p in s.inFlight then Abort(Detached(s, p), s.inFlight[p]) else Dropped(s, p)
  }

  /** The callbacks of a signal, called in order. */
  function DisconnectAll(s: State, callbacks: seq<CallerId>): (next: State)
    requires Shape(s) && Known(callbacks, |s.callers|)
    ensures Shape(next) && |next.callers| == |s.callers| && next.runs == s.runs
  {
    if callbacks == [] then s
    else
      var init, last := callbacks[..|callbacks| - 1], callbacks[|callbacks| - 1];
      DisconnectCaller(DisconnectAll(s, init), last)
  }

  lemma DisconnectAllStep(s: State, callbacks: seq<CallerId>, i: nat)
    requires Shape(s) && Known(callbacks, |s.callers|) && i < |callbacks|
    ensures Known(callbacks[..i], |s.callers|) && Known(callbacks[..i + 1], |s.callers|)
    ensures DisconnectAll(s, callbacks[..i + 1]) == DisconnectCaller(DisconnectAll(s, callbacks[..i]), callbacks[i])
  {
    assert callbacks[..i + 1][..i] == callbacks[..i];
  }

  /** A request signal aborts: its hub is dropped, then every callback runs. */
  function Disconnect(s: State, signal: SignalId): State
    requires Shape(s)
  {
    var dropped := s.(gone := s.gone + {signal}, hubs := s.hubs - {signal});
    DisconnectAll(dropped, if signal in s.hubs then s.hubs[signal] else [])
  }

  /** The promise of a caller's run settled, and its reaction runs. */
  function Deliver(s: State, c: CallerId): State
    requires Shape(s) && c < |s.callers| && s.phases[s.callers[c].run].Finished?
  {
    FinishCaller(s, c, s.phases[s.callers[c].run].answer)
  }

  // ---- Turns of the event loop ----

  datatype Action =
    | Request(p: ProjectId, signal: Option<SignalId>, now: int, waiterLimit: nat)
    | Settle(r: RunId, answer: Answer, expiresAt: int)
    | Refuse(r: RunId)
    | Answered(c: CallerId)
    | HangUp(client: SignalId)
    | Drop(p: ProjectId)

  ghost predicate Enabled(s: State, a: Action) {
    && Shape(s)
    && match a
       case Request(p, signal, now, waiterLimit) => true
       case Settle(r, answer, expiresAt) => r < |s.runs| && s.phases[r].Holding?
       case Refuse(r) => r < |s.runs| && s.phases[r].Refused?
       case Answered(c) => c < |s.callers| && s.phases[s.callers[c].run].Finished?
       case HangUp(client) => true
       case Drop(p) => true
  }

  ghost function Turn(s: State, a: Action): State
    requires Enabled(s, a)
  {
    match a
    case Request(p, signal, now, waiterLimit) => Get(s, p, signal, now, waiterLimit).0
    case Settle(r, answer, expiresAt) => RunnerSettles(s, r, answer, expiresAt)
    case Refuse(r) => RefusalPropagates(s, r)
    case Answered(c) => Deliver(s, c)
    case HangUp(client) => Disconnect(s, client)
    case Drop(p) => Invalidate(s, p)
  }

  /** One turn, and the clock moves on. */
  ghost function Step(s: State, a: Action): State
    requires Enabled(s, a)
  {
    Turn(s, a).(clock := s.clock + 1)
  }

  // ---- The module's state, updated in place ----

  class StatusCache {
    var cache: map<ProjectId, CacheEntry>
    var inFlight: map<ProjectId, RunId>
    var generations: map<ProjectId, nat>
    var activeRuns: nat
    var waiters: seq<RunId>
    var runs: seq<Run>
    var phases: seq<Phase>
    var aborted: set<RunId>
    var tokens: seq<set<CallerId>>
    var callers: seq<Caller>
    var hubs: map<SignalId, seq<CallerId>>
    var gone: set<SignalId>
    var clock: nat
    var invalidatedAt: map<ProjectId, nat>

    function Now(): State reads this {
      State(cache, inFlight, generations, activeRuns, waiters, runs, phases, aborted, tokens, callers, hubs, gone, clock, invalidatedAt)
    }

    constructor ()
      ensures Now() == EMPTY
    {
      cache, inFlight, generations, activeRuns, waiters := map[], map[], map[], 0, [];
      runs, phases, aborted, tokens, callers, hubs, gone := [], [], {}, [], [], map[], {};
      clock, invalidatedAt := 0, map[];
    }

    method TakeSlot(r: RunId, waiterLimit: nat) returns (phase: Phase)
      modifies this`activeRuns, this`waiters
      ensures (activeRuns, waiters, phase) == AcquireSlot(old(activeRuns), old(waiters), r, r in aborted, waiterLimit)
    {
      if r in aborted {
        return Refused(ClientDisconnected);
      }
      if activeRuns < MAX_CONCURRENT {
        activeRuns := activeRuns + 1;
        return Holding;
      }
      if |waiters| >= waiterLimit {
        return Refused(QueueFull);
      }
      waiters := waiters + [r];
      return Queued;
    }

    method FreeSlot()
      requires Shape(Now())
      modifies this`activeRuns, this`waiters, this`phases
      ensures Now() == old(ReleaseSlot(Now()))
    {
      if activeRuns > 0 {
        activeRuns := activeRuns - 1;
      }
      if |waiters| > 0 {
        var next := waiters[0];
        waiters := waiters[1..];
        if phases[next].Queued? {
          phases := phases[next := Holding];
          activeRuns := activeRuns + 1;
        }
      }
    }

    method AbortRun(r: RunId)
      requires Shape(Now()) && r < |runs|
      modifies this`aborted, this`waiters, this`phases
      ensures Now() == old(Abort(Now(), r))
    {
      if r in aborted {
        return;
      }
      aborted := aborted + {r};
      if phases[r].Queued? {
        waiters := Without(waiters, r);
        phases := phases[r := Refused(ClientDisconnected)];
      }
    }

    method Start(p: ProjectId, background: bool, waiterLimit: nat) returns (r: RunId)
      requires Shape(Now())
      modifies this
      ensures r == |old(runs)| && Now() == old(StartRun(Now(), p, background, waiterLimit))
    {
      r := |runs|;
      runs := runs + [Run(p, background, GenerationOf(generations, p), clock)];
      tokens := tokens + [{}];
      var phase := TakeSlot(r, waiterLimit);
      phases := phases + [phase];
      inFlight := inFlight[p := r];
    }

    /** Never an aborted run, nor one invalidated while in flight. */
    method CacheValue(r: RunId, answer: Answer, expiresAt: int)
      requires Shape(Now()) && r < |runs|
      modifies this`cache
      ensures Now() == old(WithCached(Now(), r, answer, expiresAt))
    {
      var p := runs[r].p;
      if answer.Value? && r !in aborted && runs[r].generation == GenerationOf(generations, p) {
        cache := cache[p := CacheEntry(expiresAt, answer.status, r)];
      }
    }

    method End(r: RunId, answer: Answer)
      requires Shape(Now()) && r < |runs|
      modifies this`phases
      ensures Now() == old(Ended(Now(), r, answer))
    {
      phases := phases[r := Finished(answer, r in aborted)];
    }

    method RunLands(r: RunId)
      requires Shape(Now()) && r < |runs|
      modifies this`inFlight
      ensures Now() == old(Land(Now(), r))
    {
      var p := runs[r].p;
      if p in inFlight && inFlight[p] == r {
        inFlight := inFlight - {p};
      }
    }

    /** The run's function resumes with what its runner returned or threw. */
    method RunnerSettled(r: RunId, answer: Answer, expiresAt: int)
      requires Enabled(Now(), Settle(r, answer, expiresAt))
      modifies this
      ensures Now() == old(Step(Now(), Settle(r, answer, expiresAt)))
    {
      ghost var before := Now();
      CacheValue(r, answer, expiresAt);
      End(r, answer);
      FreeSlot();
      RunLands(r);
      assert Now() == RunnerSettles(before, r, answer, expiresAt);
      clock := clock + 1;
    }

    /** The run's function resumes with the error of a slot it never got. */
    method SlotRefused(r: RunId)
      requires Enabled(Now(), Refuse(r))
      modifies this
      ensures Now() == old(Step(Now(), Refuse(r)))
    {
      End(r, Failed(phases[r].failure));
      RunLands(r);
      clock := clock + 1;
    }

    method Unsubscribe(signal: Option<SignalId>, c: CallerId)
      modifies this`hubs
      ensures hubs == Unsubscribed(old(hubs), signal, c)
    {
      if signal.Some? && signal.value in hubs {
        var callbacks := Without(hubs[signal.value], c);
        if |callbacks| == 0 {
          hubs := hubs - {signal.value};
        } else {
          hubs := hubs[signal.value := callbacks];
        }
      }
    }

    method Finish(c: CallerId, answer: Answer)
      requires Shape(Now()) && c < |callers|
      modifies this`callers, this`tokens, this`hubs
      ensures Now() == old(FinishCaller(Now(), c, answer))
    {
      var caller := callers[c];
      if caller.answer.Some? {
        return;
      }
      Unsubscribe(caller.signal, c);
      callers := callers[c := caller.(answer := Some(answer))];
      tokens := tokens[caller.run := tokens[caller.run] - {c}];
    }

    method CallerDisconnected(c: CallerId)
      requires Shape(Now()) && c < |callers|
      modifies this`callers, this`tokens, this`hubs, this`aborted, this`waiters, this`phases
      ensures Now() == old(DisconnectCaller(Now(), c))
    {
      var r := callers[c].run;
      Finish(c, Failed(ClientDisconnected));
      if tokens[r] == {} && !runs[r].background {
        AbortRun(r);
      }
    }

    method Join(r: RunId, signal: Option<SignalId>) returns (c: CallerId)
      requires Shape(Now()) && r < |runs|
      modifies this
      ensures c == |old(callers)| && Now() == old(JoinRun(Now(), r, signal))
    {
      c := |callers|;
      tokens := tokens[r := tokens[r] + {c}];
      callers := callers + [Caller(r, signal, None)];
      if signal.Some? {
        if signal.value in gone {
          CallerDisconnected(c);
        } else {
          hubs := Subscribed(hubs, signal.value, c);
        }
      }
    }

    method StatusGet(p: ProjectId, signal: Option<SignalId>, now: int, waiterLimit: nat) returns (reply: Reply)
      requires Shape(Now())
      modifies this
      ensures Now() == old(Step(Now(), Request(p, signal, now, waiterLimit)))
      ensures reply == old(Get(Now(), p, signal, now, waiterLimit).1)
    {
      if signal.Some? && signal.value in gone {
        reply := Immediate(Failed(ClientDisconnected));
      } else if p in cache && cache[p].expiresAt > now {
        reply := Immediate(Value(cache[p].status));
      } else if p in cache {
        if p !in inFlight {
          var background := Start(p, true, waiterLimit);
        }
        reply := Immediate(Value(cache[p].status));
      } else {
        var r;
        if p in inFlight {
          r := inFlight[p];
        } else {
          r := Start(p, false, waiterLimit);
        }
        var c := Join(r, signal);
        reply := Later(c);
      }
      clock := clock + 1;
    }

    method DropValue(p: ProjectId)
      requires Shape(Now())
      modifies this`cache, this`generations, this`invalidatedAt
      ensures Now() == old(Dropped(Now(), p))
    {
      cache := cache - {p};
      generations := generations[p := GenerationOf(generations, p) + 1];
      invalidatedAt := invalidatedAt[p := clock];
    }

    method StatusInvalidate(p: ProjectId)
      requires Shape(Now())
      modifies this
      ensures Now() == old(Step(Now(), Drop(p)))
    {
      DropValue(p);
      if p in inFlight {
        var r := inFlight[p];
        inFlight := inFlight - {p};
        AbortRun(r);
      }
      clock := clock + 1;
    }

    /** The native abort listener of a request signal. */
    method SignalAborted(signal: SignalId)
      requires Shape(Now())
      modifies this
      ensures Now() == old(Step(Now(), HangUp(signal)))
    {
      var callbacks: seq<CallerId> := [];
      if signal in hubs {
        callbacks := hubs[signal];
      }
      gone := gone + {signal};
      hubs := hubs - {signal};
      CallBack(callbacks);
      clock := clock + 1;
    }

    method CallBack(callbacks: seq<CallerId>)
      requires Shape(Now()) && Known(callbacks, |callers|)
      modifies this`callers, this`tokens, this`hubs, this`aborted, this`waiters, this`phases
      ensures Now() == old(DisconnectAll(Now(), callbacks))
    {
      ghost var before := Now();
      for i := 0 to |callbacks|
        invariant Now() == DisconnectAll(before, callbacks[..i])
      {
        DisconnectAllStep(before, callbacks, i);
        CallerDisconnected(callbacks[i]);
      }
      assert callbacks[..|callbacks|] == callbacks;
    }

    /** The reaction of a caller to its run's promise. */
    method RunSettled(c: CallerId)
      requires Enabled(Now(), Answered(c))
      modifies this
      ensures Now() == old(Step(Now(), Answered(c)))
    {
      Finish(c, phases[callers[c].run].answer);
      clock := clock + 1;
    }
  }
}
