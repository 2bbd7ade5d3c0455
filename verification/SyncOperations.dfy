/** What one operation does from its request to its commit, whatever else happens in between. */
module SyncOperations {
  import opened JsStrings
  import opened Model
  import opened SecretNames
  import opened SecretsHash
  import opened SecretsData
  import opened SecretsDataFacts
  import opened SecretsRoutes
  import opened SecretsRoutesFacts
  import opened Difference
  import opened Snapshots
  import opened SyncService
  import opened SyncServiceFacts
  import opened SyncProtocol
  import opened SyncInvariant
  import opened SyncTheorems
  import opened SyncRaces

  // ---- Runs that carry an operation along ----

  /** A run during which the operation stays in flight. */
  ghost predicate Carries(s: State, actions: seq<Action>, t: State, o: OpId)
    decreases |actions|
  {
    && o in s.ops
    && if actions == [] then s == t
       else Enabled(s, actions[0]) && Carries(Step(s, actions[0]), actions[1..], t, o)
  }

  /** A step of this operation, not of another one nor of a route or a foreign writer. */
  ghost predicate IsOf(a: Action, o: OpId) {
    !a.Create? && !a.Update? && !a.MergeKey? && !a.Remove? && !a.RemoveProject? && !a.Foreign? && a.o == o
  }

  lemma OthersLeaveIt(s: State, a: Action, o: OpId)
    requires Enabled(s, a) && o in s.ops && !IsOf(a, o)
    ensures o in Step(s, a).ops && Step(s, a).ops[o] == s.ops[o]
  {
    if a.Finish? && s.ops[a.o].goal.Confirm? {
      assert Step(s, a) == Confirmed(s, a.o, s.ops[a.o], s.ops[a.o].goal.token.value, a.ids);
    }
  }

  lemma {:induction false} CarriesKeeps(s: State, actions: seq<Action>, t: State, o: OpId)
    requires Inv(s) && Carries(s, actions, t, o)
    ensures Inv(t) && o in t.ops
    decreases |actions|
  {
    if actions != [] {
      StepKeeps(s, actions[0]);
      CarriesKeeps(Step(s, actions[0]), actions[1..], t, o);
    }
  }

  // ---- The request of a pull, restore or discard ----

  /** The token sent by the client stays; one that was not sent may be filled in. */
  ghost predicate SameGoal(goal: Goal, now: Goal) {
    now == goal || (goal == Confirm(None) && now.Confirm? && now.token.Some?)
  }

  /** The operation is one of `p` on this target, with this goal. */
  ghost predicate Serves(op: Operation, p: ProjectId, target: Target, goal: Goal) {
    (op.Started? || op.Located? || op.Fetched?) && op.p == p && op.target == target && SameGoal(goal, op.goal)
  }

  lemma ServesNext(s: State, a: Action, o: OpId, p: ProjectId, target: Target, goal: Goal)
    requires Enabled(s, a) && o in s.ops && Serves(s.ops[o], p, target, goal) && o in Step(s, a).ops
    ensures Serves(Step(s, a).ops[o], p, target, goal)
  {
    if !IsOf(a, o) {
      OthersLeaveIt(s, a, o);
    }
  }

  lemma {:induction false} ServesOn(s: State, actions: seq<Action>, t: State, o: OpId, p: ProjectId, target: Target, goal: Goal)
    requires Carries(s, actions, t, o) && Serves(s.ops[o], p, target, goal)
    ensures o in t.ops && Serves(t.ops[o], p, target, goal)
    decreases |actions|
  {
    if actions != [] {
      ServesNext(s, actions[0], o, p, target, goal);
      ServesOn(Step(s, actions[0]), actions[1..], t, o, p, target, goal);
    }
  }

  /** The snapshot that a target names in a listing. */
  ghost predicate Named(target: Target, listing: seq<Snapshot>, x: Snapshot) {
    match target
    case Latest => IsNewest(x, listing)
    case LatestPinned(id) => IsNewest(x, listing) && x.id == id
    case Pinned(id) => x in listing && x.id == id
    case LastSynchronized => false
  }

  /** The operation goes on exactly when its target names a listed snapshot, and on that one. */
  lemma LocateTakesTheNamed(s: State, o: OpId, listing: seq<Snapshot>)
    requires Enabled(s, Locate(o, listing))
    ensures var op, t := s.ops[o], Step(s, Locate(o, listing));
            && (o in t.ops <==> exists x :: Named(op.target, listing, x))
            && (o in t.ops ==> t.ops[o].Located? && Named(op.target, listing, t.ops[o].snapshot))
            && t.db == s.db && t.repos == s.repos && t.log == s.log && t.previews == s.previews
  {
    var op := s.ops[o];
    forall x ensures SelectTarget(op.target, listing) == Ok(x) <==> Named(op.target, listing, x) {
      TargetIsSelectedIff(op.target, listing, x);
    }
    if SelectTarget(op.target, listing).Ok? {
      assert Named(op.target, listing, SelectTarget(op.target, listing).value);
    }
  }

  /** Some listing of the run, seen by this operation, in which its target names the snapshot. */
  ghost predicate NamedInRun(actions: seq<Action>, o: OpId, target: Target, x: Snapshot) {
    exists i :: 0 <= i < |actions| && actions[i].Locate? && actions[i].o == o && Named(target, actions[i].listing, x)
  }

  lemma NamedLater(actions: seq<Action>, o: OpId, target: Target, x: Snapshot)
    requires actions != [] && NamedInRun(actions[1..], o, target, x)
    ensures NamedInRun(actions, o, target, x)
  {
    var rest := actions[1..];
    var i :| 0 <= i < |rest| && rest[i].Locate? && rest[i].o == o && Named(target, rest[i].listing, x);
    assert actions[i + 1] == rest[i];
  }

  ghost predicate HasSnapshot(op: Operation) {
    op.Located? || op.Fetched?
  }

  lemma SnapshotStays(s: State, a: Action, o: OpId)
    requires Enabled(s, a) && o in s.ops && HasSnapshot(s.ops[o]) && o in Step(s, a).ops
    ensures HasSnapshot(Step(s, a).ops[o]) && Step(s, a).ops[o].snapshot == s.ops[o].snapshot
  {
    if !IsOf(a, o) {
      OthersLeaveIt(s, a, o);
    }
  }

  lemma {:induction false} SnapshotStaysOn(s: State, actions: seq<Action>, t: State, o: OpId)
    requires Carries(s, actions, t, o) && HasSnapshot(s.ops[o])
    ensures o in t.ops && HasSnapshot(t.ops[o]) && t.ops[o].snapshot == s.ops[o].snapshot
    decreases |actions|
  {
    if actions != [] {
      SnapshotStays(s, actions[0], o);
      SnapshotStaysOn(Step(s, actions[0]), actions[1..], t, o);
    }
  }

  lemma OnlyLocateLocates(s: State, a: Action, o: OpId)
    requires Enabled(s, a) && o in s.ops && s.ops[o].Started? && o in Step(s, a).ops
    ensures Step(s, a).ops[o].Started? || (a.Locate? && a.o == o)
  {
    if !IsOf(a, o) {
      OthersLeaveIt(s, a, o);
    }
  }

  /** The snapshot an operation holds is one its target named in a listing the operation saw. */
  lemma {:induction false} LocatedOnTheNamed(s: State, actions: seq<Action>, t: State, o: OpId, p: ProjectId, target: Target, goal: Goal)
    requires Carries(s, actions, t, o) && s.ops[o].Started? && Serves(s.ops[o], p, target, goal)
    requires o in t.ops && HasSnapshot(t.ops[o])
    ensures NamedInRun(actions, o, target, t.ops[o].snapshot)
    decreases |actions|
  {
    if actions != [] {
      var a, next := actions[0], Step(s, actions[0]);
      OnlyLocateLocates(s, a, o);
      ServesNext(s, a, o, p, target, goal);
      if next.ops[o].Started? {
        LocatedOnTheNamed(next, actions[1..], t, o, p, target, goal);
        NamedLater(actions, o, target, t.ops[o].snapshot);
      } else {
        LocateTakesTheNamed(s, o, a.listing);
        SnapshotStaysOn(next, actions[1..], t, o);
      }
    }
  }

  /** The row an operation sees when it starts: the one stored, or the one its request carried when the project is gone. */
  ghost function RowAt(s: State, o: OpId): Project
    requires o in s.ops && (s.ops[o].Queued? || s.ops[o].PushQueued?)
  {
    if s.ops[o].p in s.db.projects then s.db.projects[s.ops[o].p] else s.ops[o].row
  }

  /**
   * A pull, a restore or a preview of one that was submitted with this target: from its start, whatever snapshot it is
   * located on or fetched from is one the target named in a listing it saw. So a pull takes a snapshot newer than every
   * other one of that listing, and a confirmed pull only the pinned one.
   */
  lemma OperationsTakeTheNamedSnapshot(s: State, o: OpId, actions: seq<Action>, t: State)
    requires Enabled(s, Start(o)) && !s.ops[o].target.LastSynchronized?
    requires Carries(Step(s, Start(o)), actions, t, o)
    ensures o in t.ops && Serves(t.ops[o], s.ops[o].p, s.ops[o].target, s.ops[o].goal)
    ensures HasSnapshot(t.ops[o]) ==> NamedInRun(actions, o, s.ops[o].target, t.ops[o].snapshot)
  {
    var op, started := s.ops[o], Step(s, Start(o));
    ServesOn(started, actions, t, o, op.p, op.target, op.goal);
    if HasSnapshot(t.ops[o]) {
      LocatedOnTheNamed(started, actions, t, o, op.p, op.target, op.goal);
    }
  }

  /**
   * A discard and its preview: the operation ends at its start exactly when no sync id is recorded; otherwise it uses the
   * snapshot with the id recorded at that moment and no other.
   */
  lemma DiscardsUseTheRecordedSnapshot(s: State, o: OpId, actions: seq<Action>, t: State)
    requires Enabled(s, Start(o)) && s.ops[o].target.LastSynchronized?
    ensures o in Step(s, Start(o)).ops <==> RowAt(s, o).lastSyncSnapshotId.Some?
    ensures Carries(Step(s, Start(o)), actions, t, o) ==>
              && RowAt(s, o).lastSyncSnapshotId.Some? && o in t.ops
              && Serves(t.ops[o], s.ops[o].p, Pinned(RowAt(s, o).lastSyncSnapshotId.value), s.ops[o].goal)
              && (HasSnapshot(t.ops[o]) ==> t.ops[o].snapshot.id == RowAt(s, o).lastSyncSnapshotId.value)
  {
    var op, started := s.ops[o], Step(s, Start(o));
    if Carries(started, actions, t, o) {
      var target := Pinned(RowAt(s, o).lastSyncSnapshotId.value);
      ServesOn(started, actions, t, o, op.p, target, op.goal);
      if HasSnapshot(t.ops[o]) {
        LocatedOnTheNamed(started, actions, t, o, op.p, target, op.goal);
      }
    }
  }

  /** A request is queued as it was made, with the row stored at that moment. */
  lemma RequestsAreQueuedAsMade(s: State, o: OpId, p: ProjectId, target: Target, goal: Goal)
    requires Enabled(s, Submit(o, p, target, goal))
    ensures var t := Step(s, Submit(o, p, target, goal));
            && Enabled(t, Start(o)) && t.ops[o].p == p && t.ops[o].target == target && t.ops[o].goal == goal
            && RowAt(t, o) == s.db.projects[p] == t.ops[o].row
  {
  }

  // ---- How it ends ----

  /** What a completed preview shows: the content stored at that moment and the one read from its snapshot, compared. */
  ghost predicate Shows(s: State, op: Operation, v: PreviewResult)
    requires op.Fetched?
  {
    && v.p == op.p && v.snapshotId == op.snapshot.id
    && v.current == Stored(s.db, op.p) && SnapshotContent(op.snapshot.files) == Ok(v.incoming)
    && v.contentHash == ComputeSecretsHash(v.current)
    && WellFormed(v.current) && WellFormed(v.incoming)
    && ListsSecrets(v.difference, ContentOf(v.current), ContentOf(v.incoming))
  }

  /** A preview answers from what is stored when it compares, and changes nothing. */
  lemma PreviewShowsWhatIsStored(s: State, o: OpId, ids: seq<SecretId>)
    requires Inv(s) && Enabled(s, Finish(o, ids)) && s.ops[o].goal.Preview?
    ensures var t := Step(s, Finish(o, ids));
            && t.db == s.db && t.repos == s.repos && t.log == s.log && t.ops == s.ops - {o}
            && |t.previews| == |s.previews| + 1 && t.previews[..|s.previews|] == s.previews
            && Shows(s, s.ops[o], t.previews[|s.previews|])
  {
    var op := s.ops[o];
    FetchedAreValid(s, op);
    StoredIsWellFormed(s.db, op.p);
    SecretsAreListed(Previewed(s, op).difference, ContentOf(Stored(s.db, op.p)), ContentOf(op.secrets));
  }

  /** A commit of an apply says which snapshot it stored, over what and with what result. */
  ghost predicate RecordsApply(s: State, op: Operation, t: State, c: Commit)
    requires op.Fetched?
  {
    && c.Applied? && c.p == op.p && c.snapshotId == op.snapshot.id
    && c.before == Stored(s.db, op.p) && c.after == Stored(t.db, op.p) && SnapshotContent(op.snapshot.files) == Ok(c.after)
    && op.p in t.db.projects && t.db.projects[op.p].lastSyncSnapshotId == Some(op.snapshot.id)
    && t.db.projects[op.p].lastSyncSnapshotTime == op.snapshot.time
  }

  /** A confirmation either changes nothing, or stores the snapshot it holds and records its id and time. */
  lemma ConfirmationStoresItsSnapshot(s: State, o: OpId, ids: seq<SecretId>)
    requires Inv(s) && Enabled(s, Finish(o, ids)) && s.ops[o].goal.Confirm?
    ensures var t := Step(s, Finish(o, ids));
            && t.repos == s.repos && t.previews == s.previews && t.ops == s.ops - {o}
            && (if t.log == s.log then t.db == s.db
                else && |t.log| == |s.log| + 1 && t.log[..|s.log|] == s.log
                     && OthersUntouched(s.db, t.db, s.ops[o].p) && RecordsApply(s, s.ops[o], t, t.log[|s.log|]))
  {
    var op := s.ops[o];
    var token := op.goal.token.value;
    FetchedAreValid(s, op);
    ApplyReplacesContent(s.db, op.p, token, op.secrets, ids, op.snapshot.id, op.snapshot.time);
    assert Step(s, Finish(o, ids)) == Confirmed(s, o, op, token, ids);
  }

  /** The end of an operation of `p`: whatever it previewed, or stored and recorded, is the snapshot with this id. */
  ghost predicate EndsOn(t: State, u: State, p: ProjectId, id: SnapshotId) {
    && (u.previews == t.previews
        || (|u.previews| == |t.previews| + 1 && u.previews[..|t.previews|] == t.previews && u.previews[|t.previews|].snapshotId == id))
    && (if u.log == t.log then u.db == t.db
        else && |u.log| == |t.log| + 1 && u.log[..|t.log|] == t.log && u.log[|t.log|].Applied? && u.log[|t.log|].p == p
             && u.log[|t.log|].snapshotId == id
             && p in u.db.projects && u.db.projects[p].lastSyncSnapshotId == Some(id))
  }

  lemma EndsOnItsSnapshot(t: State, o: OpId, ids: seq<SecretId>)
    requires Inv(t) && Enabled(t, Finish(o, ids))
    ensures EndsOn(t, Step(t, Finish(o, ids)), t.ops[o].p, t.ops[o].snapshot.id)
  {
    if t.ops[o].goal.Preview? {
      PreviewShowsWhatIsStored(t, o, ids);
    } else {
      ConfirmationStoresItsSnapshot(t, o, ids);
    }
  }

  /**
   * A discard from its start to its end: what it previews, or stores and records, is the snapshot with the id recorded when
   * it started.
   */
  lemma DiscardRestoresTheRecordedSnapshot(s: State, o: OpId, actions: seq<Action>, t: State, ids: seq<SecretId>)
    requires Inv(s) && Enabled(s, Start(o)) && s.ops[o].target.LastSynchronized?
    requires Carries(Step(s, Start(o)), actions, t, o) && Enabled(t, Finish(o, ids))
    ensures RowAt(s, o).lastSyncSnapshotId.Some?
    ensures EndsOn(t, Step(t, Finish(o, ids)), s.ops[o].p, RowAt(s, o).lastSyncSnapshotId.value)
  {
    StepKeeps(s, Start(o));
    CarriesKeeps(Step(s, Start(o)), actions, t, o);
    DiscardsUseTheRecordedSnapshot(s, o, actions, t);
    EndsOnItsSnapshot(t, o, ids);
  }

  // ---- A confirmation without a token ----

  lemma TokenStays(s: State, actions: seq<Action>, t: State, o: OpId, token: Digest)
    requires Carries(s, actions, t, o) && s.ops[o].Started? && s.ops[o].goal == Confirm(Some(token))
    ensures o in t.ops && (t.ops[o].Started? || HasSnapshot(t.ops[o])) && t.ops[o].goal == Confirm(Some(token)) && t.ops[o].p == s.ops[o].p
  {
    ServesOn(s, actions, t, o, s.ops[o].p, s.ops[o].target, s.ops[o].goal);
  }

  /**
   * A client that sends no token is protected from the moment the operation captures one: it commits exactly when the
   * stored content is still the one of that moment.
   */
  lemma CapturedTokenProtects(s: State, o: OpId, actions: seq<Action>, t: State, ids: seq<SecretId>)
    requires Reachable(t) && Inv(s) && Enabled(s, CaptureToken(o))
    requires Carries(Step(s, CaptureToken(o)), actions, t, o) && Enabled(t, Finish(o, ids))
    ensures var p, u := s.ops[o].p, Step(t, Finish(o, ids));
            && WellFormed(Stored(s.db, p)) && WellFormed(Stored(t.db, p))
            && (u.log != t.log <==> p in t.db.projects && ContentOf(Stored(t.db, p)) == ContentOf(Stored(s.db, p)))
            && (u.log == t.log ==> u.db == t.db)
  {
    StoredIsWellFormed(s.db, s.ops[o].p);
    TokenStays(Step(s, CaptureToken(o)), actions, t, o, ComputeSecretsHash(Stored(s.db, s.ops[o].p)));
    ConfirmationReplacesOnlyTheExpectedContent(t, o, ids, Stored(s.db, s.ops[o].p));
  }

  // ---- Pushes ----

  /** A push of `p` that observed this sync id, from its start on. */
  ghost predicate Pushes(op: Operation, p: ProjectId, observed: Option<SnapshotId>) {
    (op.PushStarted? || op.PushRead? || op.PushChecked? || op.PushBackedUp? || op.PushResolved?) && op.p == p && op.observed == observed
  }

  lemma PushesNext(s: State, a: Action, o: OpId, p: ProjectId, observed: Option<SnapshotId>)
    requires Enabled(s, a) && o in s.ops && Pushes(s.ops[o], p, observed) && o in Step(s, a).ops
    ensures Pushes(Step(s, a).ops[o], p, observed)
  {
    if !IsOf(a, o) {
      OthersLeaveIt(s, a, o);
    }
  }

  lemma {:induction false} PushesOn(s: State, actions: seq<Action>, t: State, o: OpId, p: ProjectId, observed: Option<SnapshotId>)
    requires Carries(s, actions, t, o) && Pushes(s.ops[o], p, observed)
    ensures o in t.ops && Pushes(t.ops[o], p, observed)
    decreases |actions|
  {
    if actions != [] {
      PushesNext(s, actions[0], o, p, observed);
      PushesOn(Step(s, actions[0]), actions[1..], t, o, p, observed);
    }
  }

  /**
   * A push commits exactly when the project still exists and records the sync id that was recorded when the push started:
   * between the two, no other synchronization of the project may have moved it.
   */
  lemma PushCommitsOnTheIdAtItsStart(s: State, o: OpId, actions: seq<Action>, t: State)
    requires Reachable(t) && Enabled(s, StartPush(o)) && Carries(Step(s, StartPush(o)), actions, t, o) && Enabled(t, FinishPush(o))
    ensures var p, u := s.ops[o].p, Step(t, FinishPush(o));
            && (u.log != t.log <==> p in t.db.projects && t.db.projects[p].lastSyncSnapshotId == RowAt(s, o).lastSyncSnapshotId)
            && (u.log == t.log ==> u.db == t.db)
  {
    PushesOn(Step(s, StartPush(o)), actions, t, o, s.ops[o].p, RowAt(s, o).lastSyncSnapshotId);
    PushCommitsOnWhatItObserved(t, o, 0);
  }

  /** From its read on, a push holds these secrets. */
  ghost predicate Holding(op: Operation, p: ProjectId, secrets: seq<Secret>) {
    (op.PushRead? || op.PushChecked? || op.PushBackedUp? || op.PushResolved?) && op.p == p && op.secrets == secrets
  }

  lemma HoldingNext(s: State, a: Action, o: OpId, p: ProjectId, secrets: seq<Secret>)
    requires Enabled(s, a) && o in s.ops && Holding(s.ops[o], p, secrets) && o in Step(s, a).ops
    ensures Holding(Step(s, a).ops[o], p, secrets)
  {
    if !IsOf(a, o) {
      OthersLeaveIt(s, a, o);
    }
  }

  lemma {:induction false} HoldingOn(s: State, actions: seq<Action>, t: State, o: OpId, p: ProjectId, secrets: seq<Secret>)
    requires Carries(s, actions, t, o) && Holding(s.ops[o], p, secrets)
    ensures o in t.ops && Holding(t.ops[o], p, secrets)
    decreases |actions|
  {
    if actions != [] {
      HoldingNext(s, actions[0], o, p, secrets);
      HoldingOn(Step(s, actions[0]), actions[1..], t, o, p, secrets);
    }
  }

  /**
   * What a push backs up is what was stored when it read, whatever is edited meanwhile: its own snapshot reads back as
   * exactly those secrets, and a commit makes them the baseline.
   */
  lemma PushBacksUpWhatItRead(s: State, o: OpId, actions: seq<Action>, t: State)
    requires Inv(s) && Enabled(s, ReadPush(o)) && Carries(Step(s, ReadPush(o)), actions, t, o)
    requires o in t.ops && (t.ops[o].PushBackedUp? || t.ops[o].PushResolved?)
    ensures var p := s.ops[o].p;
            p in t.repos && t.ops[o].p == p
            && exists x :: x in t.repos[p] && x.id == t.ops[o].own && SnapshotContent(x.files) == Ok(Stored(s.db, p))
  {
    StepKeeps(s, ReadPush(o));
    CarriesKeeps(Step(s, ReadPush(o)), actions, t, o);
    HoldingOn(Step(s, ReadPush(o)), actions, t, o, s.ops[o].p, Stored(s.db, s.ops[o].p));
    assert OpOk(t.repos, t.ops[o]);
  }

  /** Nothing is newer than what the push observed. */
  ghost predicate NoConflict(observed: Option<SnapshotId>, listing: seq<Snapshot>) {
    listing == [] || exists m :: IsNewest(m, listing) && observed == Some(m.id)
  }

  /**
   * After its listing a push is still in flight exactly when the listing is empty, or the snapshot it observed is listed
   * and newer than every other one; it then knows exactly the ids listed. Nothing is backed up before that.
   */
  lemma PushStopsAtANewerSnapshot(s: State, o: OpId, listing: seq<Snapshot>)
    requires Enabled(s, CheckPush(o, listing))
    ensures var op, t := s.ops[o], Step(s, CheckPush(o, listing));
            && (o in t.ops <==> NoConflict(op.observed, listing))
            && (o in t.ops ==> t.ops[o].PushChecked? && forall id :: id in t.ops[o].known <==> exists x :: x in listing && x.id == id)
            && t.db == s.db && t.repos == s.repos && t.log == s.log && t.previews == s.previews
  {
    PushGoesOnIff(s.ops[o].observed, listing);
  }

  ghost predicate CheckedInRun(actions: seq<Action>, o: OpId, observed: Option<SnapshotId>) {
    exists i :: 0 <= i < |actions| && actions[i].CheckPush? && actions[i].o == o && NoConflict(observed, actions[i].listing)
  }

  lemma CheckedLater(actions: seq<Action>, o: OpId, observed: Option<SnapshotId>)
    requires actions != [] && CheckedInRun(actions[1..], o, observed)
    ensures CheckedInRun(actions, o, observed)
  {
    var rest := actions[1..];
    var i :| 0 <= i < |rest| && rest[i].CheckPush? && rest[i].o == o && NoConflict(observed, rest[i].listing);
    assert actions[i + 1] == rest[i];
  }

  lemma OnlyCheckGoesOn(s: State, a: Action, o: OpId)
    requires Enabled(s, a) && o in s.ops && (s.ops[o].PushStarted? || s.ops[o].PushRead?) && o in Step(s, a).ops
    ensures Step(s, a).ops[o].PushStarted? || Step(s, a).ops[o].PushRead? || (a.CheckPush? && a.o == o)
  {
    if !IsOf(a, o) {
      OthersLeaveIt(s, a, o);
    }
  }

  /** A push that went beyond its check saw a listing without a newer snapshot than the one recorded when it started. */
  lemma {:induction false} PushesAreChecked(s: State, actions: seq<Action>, t: State, o: OpId, p: ProjectId, observed: Option<SnapshotId>)
    requires Carries(s, actions, t, o) && Pushes(s.ops[o], p, observed) && (s.ops[o].PushStarted? || s.ops[o].PushRead?)
    requires o in t.ops && (t.ops[o].PushChecked? || t.ops[o].PushBackedUp? || t.ops[o].PushResolved?)
    ensures CheckedInRun(actions, o, observed)
    decreases |actions|
  {
    if actions != [] {
      var a, next := actions[0], Step(s, actions[0]);
      OnlyCheckGoesOn(s, a, o);
      PushesNext(s, a, o, p, observed);
      if next.ops[o].PushStarted? || next.ops[o].PushRead? {
        PushesAreChecked(next, actions[1..], t, o, p, observed);
        CheckedLater(actions, o, observed);
      } else {
        PushStopsAtANewerSnapshot(s, o, a.listing);
      }
    }
  }

  /** No push backs anything up over a snapshot newer than the one recorded when it started, in the listing it saw. */
  lemma PushesNeverOverwriteANewerSnapshot(s: State, o: OpId, actions: seq<Action>, t: State)
    requires Enabled(s, StartPush(o)) && Carries(Step(s, StartPush(o)), actions, t, o)
    requires o in t.ops && (t.ops[o].PushBackedUp? || t.ops[o].PushResolved?)
    ensures CheckedInRun(actions, o, RowAt(s, o).lastSyncSnapshotId)
  {
    PushesAreChecked(Step(s, StartPush(o)), actions, t, o, s.ops[o].p, RowAt(s, o).lastSyncSnapshotId);
  }

  /** A commit of a push says what it pushed, on which sync id and over which content. */
  ghost predicate RecordsPush(s: State, op: Operation, t: State, c: Commit)
    requires op.PushResolved?
  {
    && c == Pushed(op.p, op.recorded.id, op.observed, op.own, op.secrets, Stored(s.db, op.p))
    && op.p in t.db.projects
    && t.db.projects[op.p] == Project(Some(op.recorded.id), op.recorded.time, Some(ComputeSecretsHash(op.secrets)), Some(ComputeSecretsHash(Stored(s.db, op.p))))
  }

  /** The end of a push either changes nothing, or records the snapshot it resolved with its time, and touches no secret. */
  lemma PushRecordsItsSnapshot(s: State, o: OpId)
    requires Inv(s) && Enabled(s, FinishPush(o))
    ensures var t := Step(s, FinishPush(o));
            && t.repos == s.repos && t.previews == s.previews && t.ops == s.ops - {o} && t.db.secrets == s.db.secrets
            && (if t.log == s.log then t.db == s.db
                else && |t.log| == |s.log| + 1 && t.log[..|s.log|] == s.log
                     && OthersUntouched(s.db, t.db, s.ops[o].p) && RecordsPush(s, s.ops[o], t, t.log[|s.log|]))
  {
    var op := s.ops[o];
    FinalizeRecordsPush(s.db, op.p, op.observed, op.recorded.id, op.recorded.time, ComputeSecretsHash(op.secrets));
    assert Step(s, FinishPush(o)) == Finalized(s, o, op);
  }

  // ---- The recorded time ----

  /** The recorded time of a project is the time of the recorded snapshot. */
  ghost predicate TimeOk(s: State, p: ProjectId) {
    p in s.db.projects && s.db.projects[p].lastSyncSnapshotId.Some? ==>
      p in s.repos && exists x :: x in s.repos[p] && Some(x.id) == s.db.projects[p].lastSyncSnapshotId && x.time == s.db.projects[p].lastSyncSnapshotTime
  }

  lemma TimeGrows(s: State, t: State, p: ProjectId)
    requires TimeOk(s, p) && Grows(s.repos, t.repos)
    requires p in t.db.projects ==>
               && p in s.db.projects && t.db.projects[p].lastSyncSnapshotId == s.db.projects[p].lastSyncSnapshotId
               && t.db.projects[p].lastSyncSnapshotTime == s.db.projects[p].lastSyncSnapshotTime
    ensures TimeOk(t, p)
  {
    if p in t.db.projects && t.db.projects[p].lastSyncSnapshotId.Some? {
      var x :| x in s.repos[p] && Some(x.id) == s.db.projects[p].lastSyncSnapshotId && x.time == s.db.projects[p].lastSyncSnapshotTime;
      assert x in t.repos[p];
    }
  }

  lemma RouteKeepsColumns(s: State, a: Action)
    requires Inv(s) && Enabled(s, a) && IsRouteAction(a)
    ensures SameColumns(s.db, Step(s, a).db)
  {
    match a
    case Create(p, id, name, data) => CreateEvolves(s.db, s.rows, p, id, name, data);
    case Update(p, id, newName, newData, version) => UpdateKeepsColumns(s, p, id, newName, newData, version);
    case MergeKey(p, id, key, value) => MergeEvolves(s.db, s.rows, p, id, key, value);
    case Remove(p, id) => RemoveEvolves(s.db, s.rows, p, id);
    case RemoveProject(p) => RemoveProjectEvolves(s.db, s.rows, p);
  }

  lemma UpdateKeepsColumns(s: State, p: ProjectId, id: SecretId, newName: Option<JsString>, newData: Option<Data>, version: nat)
    requires Inv(s) && (newData.Some? ==> UniqueKeys(newData.value))
    ensures SameColumns(s.db, UpdateSection(s.db, p, id, newName, newData, version).0)
  {
    if version < 1 || (newName.None? && newData.None?) || p !in s.db.projects || Find(RowsOf(s.db.secrets, p), id).None? {
      UpdateMisses(s.db, p, id, newName, newData, version);
    } else {
      UpdateEvolves(s.db, s.rows, Find(RowsOf(s.db.secrets, p), id).value, newName, newData, version);
    }
  }

  lemma RecordsTime(t: State, p: ProjectId, x: Snapshot)
    requires p in t.repos && x in t.repos[p] && p in t.db.projects
    requires t.db.projects[p].lastSyncSnapshotId == Some(x.id) && t.db.projects[p].lastSyncSnapshotTime == x.time
    ensures TimeOk(t, p)
  {
  }

  lemma ConfirmKeepsTime(s: State, o: OpId, ids: seq<SecretId>, p: ProjectId)
    requires Inv(s) && Enabled(s, Finish(o, ids)) && s.ops[o].goal.Confirm? && TimeOk(s, p)
    ensures TimeOk(Step(s, Finish(o, ids)), p)
  {
    var t := Step(s, Finish(o, ids));
    ConfirmationStoresItsSnapshot(s, o, ids);
    assert OpOk(s.repos, s.ops[o]);
    if t.log != s.log && p == s.ops[o].p {
      RecordsTime(t, p, s.ops[o].snapshot);
    } else {
      TimeGrows(s, t, p);
    }
  }

  lemma FinishPushKeepsTime(s: State, o: OpId, p: ProjectId)
    requires Inv(s) && Enabled(s, FinishPush(o)) && TimeOk(s, p)
    ensures TimeOk(Step(s, FinishPush(o)), p)
  {
    var t := Step(s, FinishPush(o));
    PushRecordsItsSnapshot(s, o);
    assert OpOk(s.repos, s.ops[o]);
    if t.log != s.log && p == s.ops[o].p {
      RecordsTime(t, p, s.ops[o].recorded);
    } else {
      TimeGrows(s, t, p);
    }
  }

  lemma TimeNext(s: State, a: Action, p: ProjectId)
    requires Inv(s) && Enabled(s, a) && TimeOk(s, p)
    ensures TimeOk(Step(s, a), p)
  {
    if a.FinishPush? {
      FinishPushKeepsTime(s, a.o, p);
    } else if a.Finish? && s.ops[a.o].goal.Confirm? {
      ConfirmKeepsTime(s, a.o, a.ids, p);
    } else {
      StepKeepsRepos(s, a);
      if IsRouteAction(a) {
        RouteKeepsColumns(s, a);
      } else {
        ReadingKeepsTables(s, a);
      }
      TimeGrows(s, Step(s, a), p);
    }
  }

  lemma {:induction false} TimeOn(s: State, actions: seq<Action>, t: State, p: ProjectId)
    requires Inv(s) && Runs(s, actions, t) && TimeOk(s, p)
    ensures TimeOk(t, p)
    decreases |actions|
  {
    if actions != [] {
      StepKeeps(s, actions[0]);
      TimeNext(s, actions[0], p);
      TimeOn(Step(s, actions[0]), actions[1..], t, p);
    }
  }

  /** In every reachable state the recorded id and time are those of one snapshot of the repository. */
  lemma RecordedTimeIsTheSnapshots(s: State, p: ProjectId)
    requires Reachable(s)
    ensures TimeOk(s, p)
  {
    var s0: State, actions: seq<Action> :| Init(s0) && Runs(s0, actions, s);
    InitHolds(s0);
    TimeOn(s0, actions, s, p);
  }

  // ---- What every step leaves alone ----

  /**
   * The log, the previews and the operations grow and shrink by what the step is about: only the operation of the step
   * moves, only a confirmation or the end of a push commits, and only those and the routes write the tables.
   */
  lemma StepsMindTheirBusiness(s: State, a: Action, o: OpId)
    requires Enabled(s, a)
    ensures !IsOf(a, o) ==> (o in s.ops <==> o in Step(s, a).ops) && (o in s.ops ==> Step(s, a).ops[o] == s.ops[o])
    ensures a.Abandon? && a.o == o ==> o !in Step(s, a).ops && Step(s, a).db == s.db && Step(s, a).log == s.log && Step(s, a).repos == s.repos
    ensures !IsRouteAction(a) && !a.FinishPush? && !(a.Finish? && s.ops[a.o].goal.Confirm?) ==> Step(s, a).db == s.db && Step(s, a).log == s.log
    ensures !a.Foreign? && !a.BackUp? ==> Step(s, a).repos == s.repos
  {
    if a.Finish? && s.ops[a.o].goal.Confirm? {
      assert Step(s, a) == Confirmed(s, a.o, s.ops[a.o], s.ops[a.o].goal.token.value, a.ids);
    }
  }

  // ---- The routes, as steps ----

  /** Only the tables differ. */
  ghost predicate OnlyWrites(s: State, t: State) {
    t.repos == s.repos && t.ops == s.ops && t.previews == s.previews && t.log == s.log
  }

  /** One project's content became this, and the other projects are as before. */
  ghost predicate ContentBecomes(before: Db, after: Db, p: ProjectId, c: Content) {
    EditedOnly(before, after, p) && WellFormed(Stored(after, p)) && ContentOf(Stored(after, p)) == c
  }

  lemma CreateCommits(s: State, p: ProjectId, id: SecretId, name: JsString, data: Data)
    requires Inv(s) && Enabled(s, Create(p, id, name, data)) && WellFormed(Stored(s.db, p))
    ensures var t := Step(s, Create(p, id, name, data));
            && OnlyWrites(s, t) && WellFormed(Stored(t.db, p))
            && (if CreateOutcome(s.db, p, name, data) == Done then
                  ContentBecomes(s.db, t.db, p, ContentOf(Stored(s.db, p))[name := MapOf(data)])
                else t.db == s.db)
  {
    assert [id][0] in [id];
    CreateAddsOneSecret(s.db, p, id, name, data);
  }

  lemma UpdateCommits(s: State, stored: SecretRow, newName: Option<JsString>, newData: Option<Data>, version: nat)
    requires Inv(s) && stored in s.db.secrets && WellFormed(Stored(s.db, stored.projectId))
    requires Enabled(s, Update(stored.projectId, stored.id, newName, newData, version))
    ensures var t := Step(s, Update(stored.projectId, stored.id, newName, newData, version));
            var name, data := if newName.Some? then newName.value else stored.name, if newData.Some? then newData.value else stored.data;
            && OnlyWrites(s, t) && UniqueKeys(data)
            && (if version >= 1 && (newName.Some? || newData.Some?) && UpdateOutcome(s.db, stored, name, data, version) == Done
                then EditsOneSecret(s.db, t.db, stored, name, data) else t.db == s.db)
  {
    assert RowOk(stored);
    if version >= 1 && (newName.Some? || newData.Some?) {
      UpdateChangesOneSecret(s.db, stored, newName, newData, version);
    } else {
      UpdateMisses(s.db, stored.projectId, stored.id, newName, newData, version);
    }
  }

  lemma MergeBecomes(db: Db, stored: SecretRow, key: JsString, value: JsString)
    requires Consistent(db) && stored in db.secrets && WellFormed(Stored(db, stored.projectId)) && key != []
    ensures var c := ContentOf(Stored(db, stored.projectId));
            && stored.name in c
            && ContentBecomes(db, MergeSection(db, stored.projectId, stored.id, key, value, Quiet(db)).0, stored.projectId,
                              c[stored.name := c[stored.name][key := value]])
  {
    MergeChangesOneKey(db, stored, key, value);
  }

  lemma RemoveBecomes(db: Db, stored: SecretRow)
    requires Consistent(db) && stored in db.secrets && WellFormed(Stored(db, stored.projectId))
    ensures ContentBecomes(db, DeleteSection(db, stored.projectId, stored.id).0, stored.projectId,
                           ContentOf(Stored(db, stored.projectId)) - {stored.name})
  {
    DeleteRemovesOneSecret(db, stored.projectId, stored.id);
    assert stored in RowsOf(db.secrets, stored.projectId);
  }

  /** The step changes the content of one project into this, and nothing else. */
  ghost predicate Commits(s: State, a: Action, p: ProjectId, c: Content) {
    Enabled(s, a) && OnlyWrites(s, Step(s, a)) && ContentBecomes(s.db, Step(s, a).db, p, c)
  }

  lemma SectionCommits(s: State, a: Action, db: Db, p: ProjectId, c: Content)
    requires Enabled(s, a) && Step(s, a) == WithDb(s, db) && ContentBecomes(s.db, db, p, c)
    ensures Commits(s, a, p, c)
  {
  }

  lemma MergeIsItsSection(s: State, p: ProjectId, id: SecretId, key: JsString, value: JsString)
    ensures Step(s, MergeKey(p, id, key, value)) == WithDb(s, MergeSection(s.db, p, id, key, value, Quiet(s.db)).0)
  {
  }

  lemma RemoveIsItsSection(s: State, p: ProjectId, id: SecretId)
    ensures Step(s, Remove(p, id)) == WithDb(s, DeleteSection(s.db, p, id).0)
  {
  }

  lemma MergeCommits(s: State, stored: SecretRow, key: JsString, value: JsString)
    requires Inv(s) && stored in s.db.secrets && WellFormed(Stored(s.db, stored.projectId)) && key != []
    ensures var c := ContentOf(Stored(s.db, stored.projectId));
            stored.name in c
            && Commits(s, MergeKey(stored.projectId, stored.id, key, value), stored.projectId, c[stored.name := c[stored.name][key := value]])
  {
    var p, c := stored.projectId, ContentOf(Stored(s.db, stored.projectId));
    MergeBecomes(s.db, stored, key, value);
    MergeIsItsSection(s, p, stored.id, key, value);
    SectionCommits(s, MergeKey(p, stored.id, key, value), MergeSection(s.db, p, stored.id, key, value, Quiet(s.db)).0, p,
                   c[stored.name := c[stored.name][key := value]]);
  }

  lemma RemoveCommits(s: State, stored: SecretRow)
    requires Inv(s) && stored in s.db.secrets && WellFormed(Stored(s.db, stored.projectId))
    ensures Commits(s, Remove(stored.projectId, stored.id), stored.projectId, ContentOf(Stored(s.db, stored.projectId)) - {stored.name})
  {
    var p := stored.projectId;
    RemoveBecomes(s.db, stored);
    RemoveIsItsSection(s, p, stored.id);
    SectionCommits(s, Remove(p, stored.id), DeleteSection(s.db, p, stored.id).0, p, ContentOf(Stored(s.db, p)) - {stored.name});
  }

  lemma RemoveProjectCommits(s: State, p: ProjectId)
    requires Inv(s)
    ensures var t := Step(s, RemoveProject(p));
            OnlyWrites(s, t) && p !in t.db.projects && Stored(t.db, p) == [] && OthersUntouched(s.db, t.db, p)
  {
    DeleteRemovesProject(s.db, p);
  }

  /** A route that names no secret of the project changes nothing. */
  lemma RoutesMissUnlisted(s: State, a: Action)
    requires Inv(s) && Enabled(s, a) && (a.Update? || a.MergeKey? || a.Remove?)
    requires forall r | r in s.db.secrets && r.projectId == a.p :: r.id != a.id
    ensures OnlyWrites(s, Step(s, a)) && Step(s, a).db == s.db
  {
    match a
    case Update(p, id, newName, newData, version) => UpdateMisses(s.db, p, id, newName, newData, version);
    case MergeKey(p, id, key, value) => MergeMisses(s.db, p, id, key, value);
    case Remove(p, id) => DeleteRemovesOneSecret(s.db, p, id);
  }
}
