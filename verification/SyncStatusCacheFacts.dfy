/** What every turn of the status cache keeps. */
module SyncStatusCacheFacts {
  import opened JsStrings
  import opened Model
  import opened SyncStatusCache

  // ---- The slot scheduler ----

  function HoldingCount(phases: seq<Phase>): nat {
    if phases == [] then 0 else HoldingCount(phases[..|phases| - 1]) + (if phases[|phases| - 1].Holding? then 1 else 0)
  }

  /** The runs waiting for a slot, in order of arrival. */
  function QueuedIn(phases: seq<Phase>): seq<RunId> {
    if phases == [] then []
    else if phases[|phases| - 1].Queued? then QueuedIn(phases[..|phases| - 1]) + [|phases| - 1]
    else QueuedIn(phases[..|phases| - 1])
  }

  lemma {:induction false} QueuedInHolds(phases: seq<Phase>)
    ensures forall r: RunId :: r in QueuedIn(phases) <==> r < |phases| && phases[r].Queued?
    ensures forall i, j | 0 <= i < j < |QueuedIn(phases)| :: QueuedIn(phases)[i] < QueuedIn(phases)[j]
  {
    if phases != [] {
      var last: RunId := |phases| - 1;
      QueuedInHolds(phases[..last]);
      var earlier := QueuedIn(phases[..last]);
      assert forall i | 0 <= i < |earlier| :: earlier[i] in earlier && earlier[i] < last;
      if phases[last].Queued? {
        assert QueuedIn(phases) == earlier + [last];
      } else {
        assert QueuedIn(phases) == earlier;
      }
    }
  }

  /** The counter counts the slot holders, the queue is exactly the waiting runs in order, and nobody waits for a free slot. */
  ghost predicate Slots(phases: seq<Phase>, activeRuns: nat, waiters: seq<RunId>) {
    && activeRuns == HoldingCount(phases) <= MAX_CONCURRENT
    && waiters == QueuedIn(phases)
    && (waiters != [] ==> activeRuns == MAX_CONCURRENT)
  }

  lemma {:induction false} CountSet(phases: seq<Phase>, r: RunId, phase: Phase)
    requires r < |phases|
    ensures HoldingCount(phases[r := phase])
         == HoldingCount(phases) - (if phases[r].Holding? then 1 else 0) + (if phase.Holding? then 1 else 0)
  {
    var last := |phases| - 1;
    if r < last {
      CountSet(phases[..last], r, phase);
      assert phases[r := phase][..last] == phases[..last][r := phase];
    } else {
      assert phases[r := phase][..last] == phases[..last];
    }
  }

  lemma {:induction false} WithoutAppended(q: seq<RunId>, x: RunId, r: RunId)
    ensures Without(q + [x], r) == if r in q then Without(q, r) + [x] else if x == r then q else q + [x]
  {
    if q == [] {
      assert q + [x] == [x] && [x][1..] == [];
    } else {
      assert (q + [x])[1..] == q[1..] + [x];
      WithoutAppended(q[1..], x, r);
    }
  }

  lemma QueuedAppend(phases: seq<Phase>, phase: Phase)
    ensures QueuedIn(phases + [phase]) == if phase.Queued? then QueuedIn(phases) + [|phases|] else QueuedIn(phases)
  {
    assert (phases + [phase])[..|phases|] == phases;
  }

  lemma {:induction false} QueuedSet(phases: seq<Phase>, r: RunId, phase: Phase)
    requires r < |phases| && !phase.Queued?
    ensures QueuedIn(phases[r := phase]) == Without(QueuedIn(phases), r)
  {
    var init, last := phases[..|phases| - 1], phases[|phases| - 1];
    assert phases == init + [last];
    QueuedAppend(init, last);
    WithoutAppended(QueuedIn(init), |init|, r);
    if r !in QueuedIn(init) {
      AbsentStays(QueuedIn(init), r);
    }
    if r < |init| {
      QueuedSet(init, r, phase);
      assert phases[r := phase] == init[r := phase] + [last];
      QueuedAppend(init[r := phase], last);
    } else {
      assert phases[r := phase] == init + [phase];
      QueuedAppend(init, phase);
      QueuedInHolds(init);
    }
  }

  lemma {:induction false} AbsentStays(q: seq<RunId>, r: RunId)
    requires r !in q
    ensures Without(q, r) == q
  {
    if q != [] {
      AbsentStays(q[1..], r);
    }
  }

  lemma SlotsStart(s: State, p: ProjectId, background: bool, waiterLimit: nat)
    requires Shape(s) && Slots(s.phases, s.activeRuns, s.waiters)
    ensures var t := StartRun(s, p, background, waiterLimit); Slots(t.phases, t.activeRuns, t.waiters)
  {
    var t := StartRun(s, p, background, waiterLimit);
    assert t.phases[..|s.phases|] == s.phases;
  }

  lemma SlotsAbort(s: State, r: RunId)
    requires Shape(s) && r < |s.runs| && Slots(s.phases, s.activeRuns, s.waiters)
    ensures var t := Abort(s, r); Slots(t.phases, t.activeRuns, t.waiters)
  {
    CountSet(s.phases, r, Refused(ClientDisconnected));
    QueuedSet(s.phases, r, Refused(ClientDisconnected));
    QueuedInHolds(s.phases);
  }

  lemma SlotsRefuse(s: State, r: RunId)
    requires Shape(s) && r < |s.runs| && s.phases[r].Refused? && Slots(s.phases, s.activeRuns, s.waiters)
    ensures var t := RefusalPropagates(s, r); Slots(t.phases, t.activeRuns, t.waiters)
  {
    var ended := Finished(Failed(s.phases[r].failure), r in s.aborted);
    CountSet(s.phases, r, ended);
    QueuedSet(s.phases, r, ended);
    QueuedInHolds(s.phases);
    AbsentStays(s.waiters, r);
  }

  /** A completion hands its slot to the head of the queue, or frees it: active plus queued is one less. */
  lemma SlotsRelease(s: State, r: RunId, ended: Phase)
    requires Shape(s) && r < |s.runs| && s.phases[r].Holding? && ended.Finished? && Slots(s.phases, s.activeRuns, s.waiters)
    ensures var t := ReleaseSlot(s.(phases := s.phases[r := ended]));
            && Slots(t.phases, t.activeRuns, t.waiters)
            && t.activeRuns + |t.waiters| == s.activeRuns + |s.waiters| - 1
            && (if s.waiters == [] then t.phases == s.phases[r := ended] && t.waiters == []
                else t.phases == s.phases[r := ended][s.waiters[0] := Holding] && t.waiters == s.waiters[1..])
  {
    CountSet(s.phases, r, ended);
    QueuedSet(s.phases, r, ended);
    QueuedInHolds(s.phases);
    AbsentStays(s.waiters, r);
    if s.waiters != [] {
      var w := s.waiters[0];
      assert w in s.waiters;
      CountSet(s.phases[r := ended], w, Holding);
      QueuedSet(s.phases[r := ended], w, Holding);
    }
  }

  // ---- Single flight ----

  ghost predicate InFlightOk(s: State, p: ProjectId) {
    p in s.inFlight ==>
      && s.inFlight[p] < |s.runs| == |s.phases|
      && s.runs[s.inFlight[p]].p == p && !s.phases[s.inFlight[p]].Finished?
      && s.runs[s.inFlight[p]].generation == GenerationOf(s.generations, p)
      && (s.runs[s.inFlight[p]].background <==> p in s.cache)
  }

  ghost predicate RunOk(s: State, r: RunId) {
    r < |s.runs| == |s.phases| ==>
      && s.runs[r].generation <= GenerationOf(s.generations, s.runs[r].p)
      && (!s.phases[r].Finished? && s.runs[r].generation == GenerationOf(s.generations, s.runs[r].p) ==>
            s.runs[r].p in s.inFlight && s.inFlight[s.runs[r].p] == r)
  }

  /** The in-flight entry of a project is its one unfinished run of the current generation, in the background iff a value is cached. */
  ghost predicate Flights(s: State) {
    (forall p :: InFlightOk(s, p)) && (forall r :: RunOk(s, r))
  }

  /** The same runs, settled with the same answers. */
  ghost predicate SameFinished(a: seq<Phase>, b: seq<Phase>) {
    |a| == |b| && forall i | 0 <= i < |a| && (a[i].Finished? || b[i].Finished?) :: a[i] == b[i]
  }

  /** What `Flights` depends on did not change. */
  ghost predicate SameFlights(s: State, t: State) {
    && t.runs == s.runs && t.inFlight == s.inFlight && t.generations == s.generations && t.cache == s.cache
    && SameFinished(s.phases, t.phases)
  }

  lemma FlightsSame(s: State, t: State)
    requires Flights(s) && SameFlights(s, t)
    ensures Flights(t)
  {
    forall p ensures InFlightOk(t, p) {
      assert InFlightOk(s, p);
    }
    forall r ensures RunOk(t, r) {
      assert RunOk(s, r);
    }
  }

  lemma FlightsStart(s: State, p: ProjectId, waiterLimit: nat)
    requires Shape(s) && Flights(s) && p !in s.inFlight
    ensures Flights(StartRun(s, p, p in s.cache, waiterLimit))
  {
    var t := StartRun(s, p, p in s.cache, waiterLimit);
    forall q ensures InFlightOk(t, q) {
      assert InFlightOk(s, q);
    }
    forall r ensures RunOk(t, r) {
      assert RunOk(s, r);
    }
  }

  /** A run that ended is no longer in flight. */
  lemma FlightsEnd(s: State, t: State, r: RunId)
    requires Shape(s) && Flights(s) && r < |s.runs| && !s.phases[r].Finished?
    requires t.runs == s.runs && t.generations == s.generations && t.inFlight == Landed(s.inFlight, s.runs[r].p, r)
    requires |t.phases| == |s.phases| && t.phases[r].Finished? && SameFinished(s.phases[r := t.phases[r]], t.phases)
    requires t.cache.Keys == s.cache.Keys || (t.inFlight != s.inFlight && t.cache.Keys == s.cache.Keys + {s.runs[r].p})
    ensures Flights(t)
  {
    forall q ensures InFlightOk(t, q) {
      assert InFlightOk(s, q);
    }
    forall i ensures RunOk(t, i) {
      assert RunOk(s, i) && RunOk(s, r);
    }
  }

  lemma FlightsInvalidated(s: State, t: State, p: ProjectId)
    requires Shape(s) && Flights(s)
    requires t.runs == s.runs && SameFinished(s.phases, t.phases) && t.inFlight == s.inFlight - {p} && t.cache == s.cache - {p}
    requires t.generations == s.generations[p := GenerationOf(s.generations, p) + 1]
    ensures Flights(t)
  {
    forall q ensures InFlightOk(t, q) {
      assert InFlightOk(s, q);
    }
    forall r ensures RunOk(t, r) {
      assert RunOk(s, r);
    }
  }

  // ---- Fresh values ----

  /** A cached value is the answer of a run of the current generation that was not aborted when it settled. */
  ghost predicate EntryOk(s: State, p: ProjectId) {
    p in s.cache ==>
      var r := s.cache[p].producer;
      && r < |s.runs| == |s.phases| && s.runs[r].p == p && s.runs[r].generation == GenerationOf(s.generations, p)
      && s.phases[r] == Finished(Value(s.cache[p].status), false)
  }

  ghost predicate Fresh(s: State) {
    forall p :: EntryOk(s, p)
  }

  /** A run has the current generation of its project exactly when it started after the last invalidation. */
  ghost predicate ClockOk(s: State, r: RunId) {
    r < |s.runs| ==>
      && s.runs[r].startedAt < s.clock
      && (s.runs[r].generation == GenerationOf(s.generations, s.runs[r].p) <==> StartedSince(s, r))
  }

  ghost predicate StartedSince(s: State, r: RunId)
    requires r < |s.runs|
  {
    s.runs[r].p in s.invalidatedAt ==> s.invalidatedAt[s.runs[r].p] < s.runs[r].startedAt
  }

  ghost predicate Clocked(s: State) {
    (forall p | p in s.invalidatedAt :: s.invalidatedAt[p] < s.clock) && forall r :: ClockOk(s, r)
  }

  lemma FreshSame(s: State, t: State)
    requires Fresh(s) && t.runs == s.runs && t.generations == s.generations && t.cache == s.cache && SameFinished(s.phases, t.phases)
    ensures Fresh(t)
  {
    forall p ensures EntryOk(t, p) {
      assert EntryOk(s, p);
    }
  }

  lemma FreshStart(s: State, p: ProjectId, background: bool, waiterLimit: nat)
    requires Shape(s) && Fresh(s)
    ensures Fresh(StartRun(s, p, background, waiterLimit))
  {
    var t := StartRun(s, p, background, waiterLimit);
    forall q ensures EntryOk(t, q) {
      assert EntryOk(s, q);
    }
  }

  lemma FreshInvalidated(s: State, t: State, p: ProjectId)
    requires Fresh(s) && t.runs == s.runs && SameFinished(s.phases, t.phases) && t.cache == s.cache - {p}
    requires forall q | q != p :: GenerationOf(t.generations, q) == GenerationOf(s.generations, q)
    ensures Fresh(t)
  {
    forall q ensures EntryOk(t, q) {
      assert EntryOk(s, q);
    }
  }

  lemma FreshEnd(s: State, t: State, r: RunId, answer: Answer, expiresAt: int)
    requires Shape(s) && Fresh(s) && r < |s.runs| && !s.phases[r].Finished?
    requires t.runs == s.runs && t.generations == s.generations && t.cache == WithCached(s, r, answer, expiresAt).cache
    requires SameFinished(s.phases[r := Finished(answer, r in s.aborted)], t.phases)
    ensures Fresh(t)
  {
    assert t.phases[r] == Finished(answer, r in s.aborted);
    forall q ensures EntryOk(t, q) {
      assert EntryOk(s, q);
    }
  }

  // ---- Callers and their tokens ----

  ghost predicate CallerOk(s: State, c: CallerId) {
    c < |s.callers| ==>
      && s.callers[c].run < |s.runs| == |s.tokens| && !s.runs[s.callers[c].run].background
      && (s.callers[c].answer.None? ==> c in s.tokens[s.callers[c].run])
  }

  ghost predicate TokensOk(s: State, r: RunId) {
    r < |s.tokens| ==> forall c | c in s.tokens[r] :: c < |s.callers| && s.callers[c].run == r && s.callers[c].answer.None?
  }

  /** The token set of a run is exactly its unsettled callers, and no caller joined a background run. */
  ghost predicate Tokens(s: State) {
    (forall c :: CallerOk(s, c)) && forall r :: TokensOk(s, r)
  }

  lemma TokensSame(s: State, t: State)
    requires Tokens(s) && t.runs == s.runs && t.callers == s.callers && t.tokens == s.tokens
    ensures Tokens(t)
  {
    forall c ensures CallerOk(t, c) {
      assert CallerOk(s, c);
    }
    forall r ensures TokensOk(t, r) {
      assert TokensOk(s, r);
    }
  }

  lemma TokensStart(s: State, p: ProjectId, background: bool, waiterLimit: nat)
    requires Shape(s) && Tokens(s)
    ensures Tokens(StartRun(s, p, background, waiterLimit))
  {
    var t := StartRun(s, p, background, waiterLimit);
    forall c ensures CallerOk(t, c) {
      assert CallerOk(s, c);
    }
    forall r ensures TokensOk(t, r) {
      assert TokensOk(s, r);
    }
  }

  lemma TokensJoined(s: State, r: RunId, signal: Option<SignalId>)
    requires Shape(s) && Tokens(s) && r < |s.runs| && !s.runs[r].background
    ensures Tokens(Joined(s, r, signal))
  {
    var t := Joined(s, r, signal);
    forall c ensures CallerOk(t, c) {
      assert CallerOk(s, c);
    }
    forall i ensures TokensOk(t, i) {
      assert TokensOk(s, i);
    }
  }

  lemma TokensFinish(s: State, c: CallerId, answer: Answer)
    requires Shape(s) && Tokens(s) && c < |s.callers|
    ensures Tokens(FinishCaller(s, c, answer))
  {
    var t := FinishCaller(s, c, answer);
    forall i ensures CallerOk(t, i) {
      assert CallerOk(s, i);
    }
    forall r ensures TokensOk(t, r) {
      assert TokensOk(s, r);
    }
  }

  // ---- Hubs ----

  ghost predicate Increasing(q: seq<nat>) {
    forall i, j | 0 <= i < j < |q| :: q[i] < q[j]
  }

  ghost predicate HubOk(s: State, g: SignalId) {
    g in s.hubs ==>
      && g !in s.gone && s.hubs[g] != [] && Increasing(s.hubs[g])
      && forall c | c in s.hubs[g] :: c < |s.callers| && s.callers[c].signal == Some(g) && s.callers[c].answer.None?
  }

  ghost predicate SubscribedOk(s: State, c: CallerId) {
    c < |s.callers| && s.callers[c].answer.None? && s.callers[c].signal.Some? ==>
      s.callers[c].signal.value in s.hubs && c in s.hubs[s.callers[c].signal.value]
  }

  /** Every hub holds exactly the unsettled callers of its signal, those of `pending` aside. */
  ghost predicate HubsBut(s: State, pending: seq<CallerId>) {
    (forall g :: HubOk(s, g)) && forall c | c !in pending :: SubscribedOk(s, c)
  }

  lemma {:induction false} WithoutSplices(q: seq<nat>, x: nat) returns (i: nat)
    requires x in q
    ensures i < |q| && q[i] == x && Without(q, x) == q[..i] + q[i + 1..]
  {
    if q[0] == x {
      i := 0;
    } else {
      i := WithoutSplices(q[1..], x);
      i := i + 1;
      assert q[..i] == [q[0]] + q[1..][..i - 1];
    }
  }

  lemma SplicedIncreasing(q: seq<nat>, i: nat)
    requires Increasing(q) && i < |q|
    ensures Increasing(q[..i] + q[i + 1..])
  {
    var r := q[..i] + q[i + 1..];
    assert forall k | 0 <= k < |r| :: r[k] == if k < i then q[k] else q[k + 1];
  }

  lemma SplicedMembers(q: seq<nat>, i: nat, y: nat)
    requires Increasing(q) && i < |q|
    ensures y in q[..i] + q[i + 1..] <==> y in q && y != q[i]
  {
    assert q == q[..i] + [q[i]] + q[i + 1..];
    var rest := q[i + 1..];
    assert forall k | 0 <= k < |rest| :: rest[k] == q[i + 1 + k];
  }

  lemma WithoutIncreasing(q: seq<nat>, x: nat)
    requires Increasing(q) && x in q
    ensures Increasing(Without(q, x))
    ensures forall y: nat :: y in Without(q, x) <==> y in q && y != x
  {
    var i := WithoutSplices(q, x);
    SplicedIncreasing(q, i);
    forall y: nat ensures y in Without(q, x) <==> y in q && y != x {
      SplicedMembers(q, i, y);
    }
  }

  lemma HubsSame(s: State, t: State, pending: seq<CallerId>)
    requires HubsBut(s, pending) && t.callers == s.callers && t.hubs == s.hubs && t.gone == s.gone
    ensures HubsBut(t, pending)
  {
    forall g ensures HubOk(t, g) {
      assert HubOk(s, g);
    }
    forall c | c !in pending ensures SubscribedOk(t, c) {
      assert SubscribedOk(s, c);
    }
  }

  lemma HubsJoined(s: State, r: RunId, signal: Option<SignalId>)
    requires Shape(s) && HubsBut(s, []) && r < |s.runs| && (signal.Some? ==> signal.value !in s.gone)
    ensures HubsBut(Joined(s, r, signal), [])
  {
    var t := Joined(s, r, signal);
    forall g ensures HubOk(t, g) {
      assert HubOk(s, g);
    }
    forall c ensures SubscribedOk(t, c) {
      assert SubscribedOk(s, c);
      if signal.Some? && c == |s.callers| {
        assert t.hubs[signal.value][|t.hubs[signal.value]| - 1] == c;
      }
    }
  }

  lemma UnsubscribedHub(s: State, c: CallerId, g: SignalId)
    requires c < |s.callers| && g in s.hubs && HubOk(s, g) && s.callers[c].signal == Some(g) && c in s.hubs[g]
    ensures var hubs := Unsubscribed(s.hubs, Some(g), c);
            && (g in hubs ==> hubs[g] != [] && Increasing(hubs[g]))
            && (forall i: CallerId :: g in hubs && i in hubs[g] <==> i in s.hubs[g] && i != c)
            && forall h | h != g :: (h in hubs <==> h in s.hubs) && (h in hubs ==> hubs[h] == s.hubs[h])
  {
    WithoutIncreasing(s.hubs[g], c);
    assert forall i | 0 <= i < |Without(s.hubs[g], c)| :: Without(s.hubs[g], c)[i] in Without(s.hubs[g], c);
  }

  lemma HubsFinish(s: State, c: CallerId, answer: Answer, pending: seq<CallerId>)
    requires Shape(s) && HubsBut(s, pending) && c < |s.callers|
    ensures HubsBut(FinishCaller(s, c, answer), pending)
  {
    var t := FinishCaller(s, c, answer);
    var signal := s.callers[c].signal;
    if s.callers[c].answer.None? {
      if signal.Some? && signal.value in s.hubs && c in s.hubs[signal.value] {
        HubsFinishSubscribed(s, c, answer, pending, signal.value);
      } else {
        if signal.Some? && signal.value in s.hubs {
          assert HubOk(s, signal.value);
          AbsentStays(s.hubs[signal.value], c);
        }
        HubsFinishUnsubscribed(s, t, c, pending);
      }
    }
  }

  /** A caller without a hub leaves the hubs as they are. */
  lemma HubsFinishUnsubscribed(s: State, t: State, c: CallerId, pending: seq<CallerId>)
    requires HubsBut(s, pending) && c < |s.callers| == |t.callers| && s.callers[c].answer.None? && t.callers[c].answer.Some?
    requires s.callers[c].signal.Some? && s.callers[c].signal.value in s.hubs ==> c !in s.hubs[s.callers[c].signal.value]
    requires t.hubs == s.hubs && t.gone == s.gone && forall i: CallerId | i < |s.callers| && i != c :: t.callers[i] == s.callers[i]
    ensures HubsBut(t, pending)
  {
    forall g ensures HubOk(t, g) {
      assert HubOk(s, g);
    }
    forall i | i !in pending ensures SubscribedOk(t, i) {
      assert SubscribedOk(s, i);
    }
  }

  lemma HubsFinishSubscribed(s: State, c: CallerId, answer: Answer, pending: seq<CallerId>, g: SignalId)
    requires Shape(s) && HubsBut(s, pending) && c < |s.callers| && s.callers[c].answer.None?
    requires s.callers[c].signal == Some(g) && g in s.hubs && c in s.hubs[g]
    ensures HubsBut(FinishCaller(s, c, answer), pending)
  {
    var t := FinishCaller(s, c, answer);
    assert HubOk(s, g);
    UnsubscribedHub(s, c, g);
    forall h ensures HubOk(t, h) {
      assert HubOk(s, h);
    }
    forall i | i !in pending ensures SubscribedOk(t, i) {
      assert SubscribedOk(s, i);
    }
  }

  lemma HubsDropped(s: State, g: SignalId)
    requires HubsBut(s, [])
    ensures HubsBut(s.(gone := s.gone + {g}, hubs := s.hubs - {g}), if g in s.hubs then s.hubs[g] else [])
  {
    var t := s.(gone := s.gone + {g}, hubs := s.hubs - {g});
    var pending := if g in s.hubs then s.hubs[g] else [];
    forall h ensures HubOk(t, h) {
      assert HubOk(s, h);
    }
    forall c | c !in pending ensures SubscribedOk(t, c) {
      assert SubscribedOk(s, c);
    }
  }

  // ---- Aborts and disconnects ----

  /** An abort touches the controller and, for a queued run, the queue. */
  lemma AbortTouches(s: State, r: RunId)
    requires Shape(s) && r < |s.runs|
    ensures var t := Abort(s, r);
            && t == s.(aborted := s.aborted + {r}, waiters := t.waiters, phases := t.phases)
            && SameFinished(s.phases, t.phases)
  {
  }

  /** The answer of a caller once the callbacks of a signal ran. */
  function AnswerAfter(s: State, callbacks: seq<CallerId>, c: CallerId): Option<Answer>
    requires c < |s.callers|
  {
    if c in callbacks && s.callers[c].answer.None? then Some(Failed(ClientDisconnected)) else s.callers[c].answer
  }

  ghost predicate Disconnected(s: State, callbacks: seq<CallerId>, t: State) {
    && t == s.(callers := t.callers, tokens := t.tokens, hubs := t.hubs, aborted := t.aborted, waiters := t.waiters, phases := t.phases)
    && SameFinished(s.phases, t.phases)
    && |t.callers| == |s.callers|
    && forall c: CallerId | c < |s.callers| :: t.callers[c] == s.callers[c].(answer := AnswerAfter(s, callbacks, c))
  }

  lemma FinishDisconnects(s: State, c: CallerId)
    requires Shape(s) && c < |s.callers|
    ensures Disconnected(s, [c], FinishCaller(s, c, Failed(ClientDisconnected)))
  {
  }

  lemma DisconnectOne(s: State, c: CallerId)
    requires Shape(s) && c < |s.callers|
    ensures Disconnected(s, [c], DisconnectCaller(s, c))
  {
    FinishDisconnects(s, c);
    AbortTouches(FinishCaller(s, c, Failed(ClientDisconnected)), s.callers[c].run);
  }

  lemma {:induction false} DisconnectAllDisconnects(s: State, callbacks: seq<CallerId>)
    requires Shape(s) && Known(callbacks, |s.callers|)
    ensures Disconnected(s, callbacks, DisconnectAll(s, callbacks))
  {
    if callbacks != [] {
      var init, last := callbacks[..|callbacks| - 1], callbacks[|callbacks| - 1];
      DisconnectAllDisconnects(s, init);
      DisconnectOne(DisconnectAll(s, init), last);
      assert callbacks == init + [last];
    }
  }

  lemma {:induction false} SlotsDisconnect(s: State, callbacks: seq<CallerId>)
    requires Shape(s) && Known(callbacks, |s.callers|) && Slots(s.phases, s.activeRuns, s.waiters)
    ensures var t := DisconnectAll(s, callbacks); Slots(t.phases, t.activeRuns, t.waiters)
  {
    if callbacks != [] {
      var init, last := callbacks[..|callbacks| - 1], callbacks[|callbacks| - 1];
      SlotsDisconnect(s, init);
      var t := DisconnectAll(s, init);
      SlotsAbort(FinishCaller(t, last, Failed(ClientDisconnected)), t.callers[last].run);
    }
  }

  lemma TokensDisconnectOne(s: State, c: CallerId)
    requires Shape(s) && Tokens(s) && c < |s.callers|
    ensures Tokens(DisconnectCaller(s, c))
  {
    TokensFinish(s, c, Failed(ClientDisconnected));
    var finished := FinishCaller(s, c, Failed(ClientDisconnected));
    AbortTouches(finished, s.callers[c].run);
    TokensSame(finished, Abort(finished, s.callers[c].run));
  }

  lemma {:induction false} TokensDisconnect(s: State, callbacks: seq<CallerId>)
    requires Shape(s) && Tokens(s) && Known(callbacks, |s.callers|)
    ensures Tokens(DisconnectAll(s, callbacks))
  {
    if callbacks != [] {
      TokensDisconnect(s, callbacks[..|callbacks| - 1]);
      TokensDisconnectOne(DisconnectAll(s, callbacks[..|callbacks| - 1]), callbacks[|callbacks| - 1]);
    }
  }

  lemma HubsDisconnectOne(s: State, c: CallerId, pending: seq<CallerId>)
    requires Shape(s) && HubsBut(s, pending) && c < |s.callers|
    ensures HubsBut(DisconnectCaller(s, c), pending)
  {
    HubsFinish(s, c, Failed(ClientDisconnected), pending);
    var finished := FinishCaller(s, c, Failed(ClientDisconnected));
    AbortTouches(finished, s.callers[c].run);
    HubsSame(finished, Abort(finished, s.callers[c].run), pending);
  }

  lemma {:induction false} HubsDisconnect(s: State, callbacks: seq<CallerId>, pending: seq<CallerId>)
    requires Shape(s) && HubsBut(s, pending) && Known(callbacks, |s.callers|)
    ensures HubsBut(DisconnectAll(s, callbacks), pending)
  {
    if callbacks != [] {
      HubsDisconnect(s, callbacks[..|callbacks| - 1], pending);
      HubsDisconnectOne(DisconnectAll(s, callbacks[..|callbacks| - 1]), callbacks[|callbacks| - 1], pending);
    }
  }

  lemma HubsSettled(s: State, pending: seq<CallerId>)
    requires HubsBut(s, pending) && forall c | c in pending :: c < |s.callers| && s.callers[c].answer.Some?
    ensures HubsBut(s, [])
  {
    forall c ensures SubscribedOk(s, c) {
      if c !in pending {
        assert SubscribedOk(s, c);
      }
    }
  }

  lemma HubsHangUp(s: State, g: SignalId)
    requires Shape(s) && HubsBut(s, [])
    ensures HubsBut(Disconnect(s, g), [])
  {
    var dropped := s.(gone := s.gone + {g}, hubs := s.hubs - {g});
    var callbacks := if g in s.hubs then s.hubs[g] else [];
    HubsDropped(s, g);
    HubsDisconnect(dropped, callbacks, callbacks);
    DisconnectAllDisconnects(dropped, callbacks);
    forall c | c in callbacks ensures c < |s.callers| {
      assert HubOk(s, g);
    }
    HubsSettled(Disconnect(s, g), callbacks);
  }

  /** An aborted run does not wait for a slot. */
  ghost predicate AbortsOk(s: State) {
    forall r | r in s.aborted :: r < |s.phases| && !s.phases[r].Queued?
  }

  lemma AbortsAbort(s: State, r: RunId)
    requires Shape(s) && r < |s.runs| && AbortsOk(s)
    ensures AbortsOk(Abort(s, r))
  {
  }

  lemma AbortsSame(s: State, t: State)
    requires AbortsOk(s) && t.aborted == s.aborted && |t.phases| >= |s.phases|
    requires forall r | 0 <= r < |s.phases| && t.phases[r].Queued? :: s.phases[r].Queued?
    ensures AbortsOk(t)
  {
  }

  lemma {:induction false} AbortsDisconnect(s: State, callbacks: seq<CallerId>)
    requires Shape(s) && Known(callbacks, |s.callers|) && AbortsOk(s)
    ensures AbortsOk(DisconnectAll(s, callbacks))
  {
    if callbacks != [] {
      var init, last := callbacks[..|callbacks| - 1], callbacks[|callbacks| - 1];
      AbortsDisconnect(s, init);
      var t := DisconnectAll(s, init);
      AbortsAbort(FinishCaller(t, last, Failed(ClientDisconnected)), t.callers[last].run);
    }
  }
}
