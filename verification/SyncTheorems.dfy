/** The promises of the synchronization protocol, over every run from completed project creations. */
module SyncTheorems {
  import opened JsStrings
  import opened Model
  import opened SecretsHash
  import opened SecretsData
  import opened SecretsDataFacts
  import opened SecretsRoutes
  import opened SecretsRoutesFacts
  import opened Difference
  import opened Snapshots
  import opened SyncService
  import opened SyncServiceFacts
  import opened SyncProtocol
  import opened SyncInvariant

  ghost predicate Reachable(s: State) {
    exists s0: State, actions: seq<Action> :: Init(s0) && Runs(s0, actions, s)
  }

  lemma ReachableHolds(s: State)
    requires Reachable(s)
    ensures Inv(s)
  {
    var s0: State, actions: seq<Action> :| Init(s0) && Runs(s0, actions, s);
    InitHolds(s0);
    RunKeeps(s0, actions, s);
  }

  // ---- Committed states ----

  /**
   * In every reachable state the stored current hash is the hash of the stored secrets, names are unique in each
   * project, and a project that does not exist has no secret.
   */
  lemma CommittedStatesAreConsistent(s: State, p: ProjectId)
    requires Reachable(s)
    ensures WellFormed(Stored(s.db, p))
    ensures p in s.db.projects ==> s.db.projects[p].currentContentHash == Some(ComputeSecretsHash(Stored(s.db, p)))
    ensures p !in s.db.projects ==> Stored(s.db, p) == []
  {
    ReachableHolds(s);
    StoredIsWellFormed(s.db, p);
    if p !in s.db.projects {
      NoRowsWithoutProject(s.db, p);
    }
  }

  ghost predicate IsRouteAction(a: Action) {
    a.Create? || a.Update? || a.MergeKey? || a.Remove? || a.RemoveProject?
  }

  lemma RouteCreatesNoProject(s: State, a: Action)
    requires Inv(s) && Enabled(s, a) && IsRouteAction(a)
    ensures Step(s, a).db.projects.Keys <= s.db.projects.Keys
  {
    match a
    case Create(p, id, name, data) => CreateEvolves(s.db, s.rows, p, id, name, data);
    case Update(p, id, newName, newData, version) => UpdateCreatesNoProject(s.db, p, id, newName, newData, version);
    case MergeKey(p, id, key, value) => MergeEvolves(s.db, s.rows, p, id, key, value);
    case Remove(p, id) => RemoveEvolves(s.db, s.rows, p, id);
    case RemoveProject(p) => RemoveProjectEvolves(s.db, s.rows, p);
  }

  lemma FinishPushCreatesNoProject(s: State, o: OpId)
    requires Enabled(s, FinishPush(o))
    ensures Step(s, FinishPush(o)).db.projects.Keys <= s.db.projects.Keys
  {
    var op := s.ops[o];
    var section := FinalizeSection(s.db, op.p, op.observed, op.recorded.id, op.recorded.time, ComputeSecretsHash(op.secrets));
    assert section.0.projects.Keys <= s.db.projects.Keys;
  }

  /** Only write sections touch the tables. */
  lemma ReadingKeepsTables(s: State, a: Action)
    requires Enabled(s, a) && !IsRouteAction(a) && !a.FinishPush?
    requires a.Finish? ==> s.ops[a.o].goal.Preview?
    ensures Step(s, a).db == s.db
  {
  }

  lemma StepCreatesNoProject(s: State, a: Action)
    requires Inv(s) && Enabled(s, a)
    ensures Step(s, a).db.projects.Keys <= s.db.projects.Keys
  {
    if IsRouteAction(a) {
      RouteCreatesNoProject(s, a);
    } else if a.FinishPush? {
      FinishPushCreatesNoProject(s, a.o);
    } else if a.Finish? && s.ops[a.o].goal.Confirm? {
      ConfirmCreatesNoProject(s, a.o, a.ids);
    } else {
      ReadingKeepsTables(s, a);
    }
  }

  lemma UpdateCreatesNoProject(db: Db, p: ProjectId, id: SecretId, newName: Option<JsString>, newData: Option<Data>, version: nat)
    ensures UpdateSection(db, p, id, newName, newData, version).0.projects.Keys == db.projects.Keys
  {
    var list := RowsOf(db.secrets, p);
    if Find(list, id).Some? {
      UpdateListedCreatesNoProject(db, list, Find(list, id).value, NewBody(Find(list, id).value, newName, newData), version);
    }
  }

  lemma UpdateListedCreatesNoProject(db: Db, list: seq<SecretRow>, stored: SecretRow, row: SecretRow, version: nat)
    ensures UpdateListed(db, list, stored, row, version).0.projects.Keys == db.projects.Keys
  {
    WriteCreatesNoProject(db, list, row, version);
  }

  lemma WriteCreatesNoProject(db: Db, list: seq<SecretRow>, row: SecretRow, version: nat)
    ensures WriteRow(db, list, row, version).0.projects.Keys == db.projects.Keys
  {
    HashedWriteCreatesNoProject(db, row, version, ComputeSecretsHash(Bodies(Edited(list, row.id, row.name, row.data))));
  }

  lemma HashedWriteCreatesNoProject(db: Db, row: SecretRow, version: nat, hash: Digest)
    ensures WriteWithHash(db, row, version, hash).0.projects.Keys == db.projects.Keys
  {
  }

  lemma ConfirmCreatesNoProject(s: State, o: OpId, ids: seq<SecretId>)
    requires Inv(s) && Enabled(s, Finish(o, ids)) && s.ops[o].goal.Confirm?
    ensures Step(s, Finish(o, ids)).db.projects.Keys <= s.db.projects.Keys
  {
    FetchedAreValid(s, s.ops[o]);
    ConfirmedCreatesNoProject(s, o, s.ops[o], s.ops[o].goal.token.value, ids);
  }

  lemma ConfirmedCreatesNoProject(s: State, o: OpId, op: Operation, expected: Digest, ids: seq<SecretId>)
    requires Consistent(s.db) && op.Fetched? && ValidSecrets(op.secrets) && |ids| == |op.secrets| && UnusedIds(s.db, ids)
    ensures Confirmed(s, o, op, expected, ids).db.projects.Keys <= s.db.projects.Keys
  {
    ApplyReplacesContent(s.db, op.p, expected, op.secrets, ids, op.snapshot.id, op.snapshot.time);
  }

  /** A deleted project is never resurrected, whatever was still in flight: no row and no secret of it comes back. */
  lemma {:induction false} DeletedProjectsStayDeleted(s: State, actions: seq<Action>, t: State, p: ProjectId)
    requires Inv(s) && Runs(s, actions, t) && p !in s.db.projects
    ensures p !in t.db.projects && Stored(t.db, p) == []
    decreases |actions|
  {
    if actions == [] {
      NoRowsWithoutProject(s.db, p);
    } else {
      StepKeeps(s, actions[0]);
      StepCreatesNoProject(s, actions[0]);
      DeletedProjectsStayDeleted(Step(s, actions[0]), actions[1..], t, p);
    }
  }

  // ---- What is previewed is what is applied ----

  /**
   * A confirmed pull or restore that carries the snapshot id and the content hash of a preview commits exactly when the
   * project exists and its stored content is still the one the preview read. It then stores exactly the secrets the
   * preview showed as incoming, so the change made is the previewed difference; otherwise the tables do not change.
   */
  lemma PreviewedIsApplied(s: State, v: PreviewResult, o: OpId, ids: seq<SecretId>)
    requires Reachable(s) && v in s.previews
    requires Enabled(s, Finish(o, ids)) && s.ops[o].goal == Confirm(Some(v.contentHash))
    requires s.ops[o].p == v.p && s.ops[o].target in {LatestPinned(v.snapshotId), Pinned(v.snapshotId)}
    ensures var t := Step(s, Finish(o, ids));
            && WellFormed(v.current) && WellFormed(v.incoming) && WellFormed(Stored(s.db, v.p)) && WellFormed(Stored(t.db, v.p))
            && (t.log != s.log <==> v.p in s.db.projects && ContentOf(Stored(s.db, v.p)) == ContentOf(v.current))
            && (t.log != s.log ==>
              && Stored(t.db, v.p) == v.incoming
              && DiffOf(ContentOf(Stored(s.db, v.p)), ContentOf(Stored(t.db, v.p))) == v.difference)
            && (t.log == s.log ==> t.db == s.db)
  {
    ReachableHolds(s);
    var op := s.ops[o];
    FetchedAreValid(s, op);
    ApplyReplacesContent(s.db, op.p, v.contentHash, op.secrets, ids, op.snapshot.id, op.snapshot.time);
    SameSnapshotSameContent(s, v, op);
    StoredIsWellFormed(s.db, v.p);
    HashIdentifiesContent(Stored(s.db, v.p), v.current);
    var (db, error) := ApplySection(s.db, op.p, v.contentHash, RowsFor(op.p, op.secrets, ids), op.snapshot.id, op.snapshot.time);
    if error.None? {
      assert Step(s, Finish(o, ids)).log == s.log + [Applied(op.p, op.snapshot.id, v.contentHash, Stored(s.db, op.p), Stored(db, op.p))];
    }
  }

  lemma PreviewIsRecorded(s: State, v: PreviewResult)
    requires HistoryOk(s) && v in s.previews
    ensures PreviewOk(s.repos, v)
  {
    var i :| 0 <= i < |s.previews| && s.previews[i] == v;
    assert PreviewOk(s.repos, s.previews[i]);
  }

  lemma SameSnapshotSameContent(s: State, v: PreviewResult, op: Operation)
    requires ReposOk(s) && HistoryOk(s) && v in s.previews && op.Fetched? && OpOk(s.repos, op) && op.p == v.p
    requires op.target in {LatestPinned(v.snapshotId), Pinned(v.snapshotId)}
    ensures op.secrets == v.incoming && WellFormed(v.current) && WellFormed(v.incoming)
    ensures v.difference == DiffOf(ContentOf(v.current), ContentOf(v.incoming))
  {
    PreviewIsRecorded(s, v);
    FetchedIsPinned(s.repos, op, v.snapshotId);
    SameIdSameSecrets(s.repos[v.p], v, op);
  }

  lemma FetchedIsPinned(repos: map<ProjectId, seq<Snapshot>>, op: Operation, id: SnapshotId)
    requires op.Fetched? && OpOk(repos, op) && op.target in {LatestPinned(id), Pinned(id)}
    ensures op.snapshot in repos[op.p] && op.snapshot.id == id && SnapshotContent(op.snapshot.files) == Ok(op.secrets)
  {
  }

  lemma SameIdSameSecrets(repo: seq<Snapshot>, v: PreviewResult, op: Operation)
    requires Snapshots.UniqueIds(repo) && Holds(repo, v.snapshotId, v.incoming)
    requires op.Fetched? && op.snapshot in repo && op.snapshot.id == v.snapshotId && SnapshotContent(op.snapshot.files) == Ok(op.secrets)
    ensures op.secrets == v.incoming
  {
    var x :| x in repo && x.id == v.snapshotId && SnapshotContent(x.files) == Ok(v.incoming);
    SameSnapshotId(repo, x, op.snapshot);
  }

  lemma SameSnapshotId(repo: seq<Snapshot>, x: Snapshot, y: Snapshot)
    requires Snapshots.UniqueIds(repo) && x in repo && y in repo && x.id == y.id
    ensures x == y
  {
  }

  // ---- The local-changes flag ----

  /** Whether the recorded snapshot is certainly the one holding what was synchronized. */
  predicate RecordedItsOwn(c: Commit) {
    c.Applied? || c.snapshotId == c.own
  }

  /** The flag is exact about the content last synchronized, whatever edits, pulls and pushes overlapped. */
  lemma FlagComparesWithSyncedContent(s: State, p: ProjectId, secretCount: nat)
    requires Reachable(s) && p in s.db.projects && LastCommit(s.log, p).Some?
    ensures var synced := Synced(LastCommit(s.log, p).value);
            && s.db.projects[p].lastSyncSnapshotId == Some(LastCommit(s.log, p).value.snapshotId)
            && WellFormed(synced) && WellFormed(Stored(s.db, p))
            && s.db.projects[p].lastSyncContentHash == Some(ComputeSecretsHash(synced))
            && (ComputeHasLocalChanges(s.db.projects[p], secretCount) <==> ContentOf(Stored(s.db, p)) != ContentOf(synced))
  {
    ReachableHolds(s);
    LastCommitIsOk(s, p);
    StoredIsWellFormed(s.db, p);
    HashIdentifiesContent(Synced(LastCommit(s.log, p).value), Stored(s.db, p));
  }

  /**
   * When the last synchronization recorded its own snapshot (always, for a pull, restore or discard), that snapshot
   * holds the baseline, so the flag tells exactly whether the stored content differs from the recorded snapshot.
   */
  lemma FlagIsExact(s: State, p: ProjectId, secretCount: nat)
    requires Reachable(s) && p in s.db.projects && LastCommit(s.log, p).Some?
    requires RecordedItsOwn(LastCommit(s.log, p).value)
    ensures var id := s.db.projects[p].lastSyncSnapshotId;
            p in s.repos && id.Some? &&
            exists x :: x in s.repos[p] && x.id == id.value && SnapshotContent(x.files).Ok?
              && WellFormed(SnapshotContent(x.files).value) && WellFormed(Stored(s.db, p))
              && s.db.projects[p].lastSyncContentHash == Some(ComputeSecretsHash(SnapshotContent(x.files).value))
              && (ComputeHasLocalChanges(s.db.projects[p], secretCount) <==>
                  ContentOf(Stored(s.db, p)) != ContentOf(SnapshotContent(x.files).value))
  {
    ReachableHolds(s);
    FlagComparesWithSyncedContent(s, p, secretCount);
    LastCommitIsOk(s, p);
    var c := LastCommit(s.log, p).value;
    var x :| x in s.repos[p] && x.id == c.snapshotId && SnapshotContent(x.files) == Ok(Synced(c));
  }

  /** A project without a synchronization has local changes exactly when it holds a secret. */
  lemma FlagBeforeTheFirstSync(s: State, p: ProjectId)
    requires Reachable(s) && p in s.db.projects && LastCommit(s.log, p).None?
    ensures ComputeHasLocalChanges(s.db.projects[p], |Stored(s.db, p)|) <==> Stored(s.db, p) != []
  {
    ReachableHolds(s);
    assert s.db.projects[p].lastSyncSnapshotId == LastRecorded(s.log, p);
  }

  /** A push is committed only on the sync id it observed, and an edit made during the backup shows as a local change. */
  lemma PushCommitsOnWhatItObserved(s: State, o: OpId, secretCount: nat)
    requires Reachable(s) && Enabled(s, FinishPush(o))
    ensures var op, t := s.ops[o], Step(s, FinishPush(o));
            && WellFormed(op.secrets) && WellFormed(Stored(s.db, op.p))
            && (t.log != s.log <==> op.p in s.db.projects && s.db.projects[op.p].lastSyncSnapshotId == op.observed)
            && Stored(t.db, op.p) == Stored(s.db, op.p)
            && (t.log != s.log ==>
              && op.p in t.db.projects && t.db.projects[op.p].lastSyncSnapshotId == Some(op.recorded.id)
              && (ComputeHasLocalChanges(t.db.projects[op.p], secretCount) <==> ContentOf(Stored(t.db, op.p)) != ContentOf(op.secrets)))
            && (t.log == s.log ==> t.db == s.db)
  {
    ReachableHolds(s);
    var op := s.ops[o];
    assert OpOk(s.repos, op);
    StoredIsWellFormed(s.db, op.p);
    FinalizedFlag(s.db, op.p, op.observed, op.recorded.id, op.recorded.time, op.secrets, secretCount);
    var (db, error) := FinalizeSection(s.db, op.p, op.observed, op.recorded.id, op.recorded.time, ComputeSecretsHash(op.secrets));
    if error.None? {
      assert Step(s, FinishPush(o)).log == s.log + [PushCommit(s, op)];
    }
  }

  lemma FinalizedFlag(db: Db, p: ProjectId, observed: Option<SnapshotId>, id: SnapshotId, time: Option<int>, pushed: seq<Secret>, secretCount: nat)
    requires WellFormed(pushed) && WellFormed(Stored(db, p))
    ensures var (after, error) := FinalizeSection(db, p, observed, id, time, ComputeSecretsHash(pushed));
            && (error.None? <==> p in db.projects && db.projects[p].lastSyncSnapshotId == observed)
            && after.secrets == db.secrets
            && (error.Some? ==> after == db)
            && (error.None? ==>
              && p in after.projects && after.projects[p].lastSyncSnapshotId == Some(id)
              && (ComputeHasLocalChanges(after.projects[p], secretCount) <==> ContentOf(Stored(db, p)) != ContentOf(pushed)))
  {
    var current := ComputeSecretsHash(Stored(db, p));
    var row := Project(Some(id), time, Some(ComputeSecretsHash(pushed)), Some(current));
    assert ComputeHasLocalChanges(row, secretCount) <==> ComputeSecretsHash(pushed) != current;
    HashIdentifiesContent(pushed, Stored(db, p));
    if p in db.projects && db.projects[p].lastSyncSnapshotId == observed {
      assert FinalizeSection(db, p, observed, id, time, ComputeSecretsHash(pushed)).0 == db.(projects := db.projects[p := row]);
    }
  }

  // ---- Racing pushes ----

  /** A commit that is a push of its own snapshot, on the sync id recorded just before it. */
  ghost predicate MovesForward(repo: seq<Snapshot>, log: seq<Commit>, p: ProjectId, k: nat)
    requires k < |log|
  {
    && log[k].Pushed? && log[k].observed == LastRecorded(log[..k], p)
    && Position(repo, log[k].observed) < Position(repo, Some(log[k].snapshotId))
  }

  lemma LastCommitStep(log: seq<Commit>, p: ProjectId, k: nat)
    requires 0 < k <= |log|
    ensures LastCommit(log[..k], p) == if log[k - 1].p == p then Some(log[k - 1]) else LastCommit(log[..k - 1], p)
  {
    assert log[..k][..k - 1] == log[..k - 1];
  }

  /** Along commits that are all pushes of their own snapshots, the recorded snapshot only gets younger. */
  lemma {:induction false} PushesOnlyMoveForward(repo: seq<Snapshot>, log: seq<Commit>, p: ProjectId, i: nat, k: nat)
    requires i < k <= |log| && log[i].p == p && log[i].Pushed?
    requires forall j | i <= j < k && log[j].p == p :: MovesForward(repo, log, p, j)
    ensures Position(repo, LastRecorded(log[..k], p)) > Position(repo, log[i].observed)
    decreases k
  {
    LastCommitStep(log, p, k);
    if log[k - 1].p == p {
      assert MovesForward(repo, log, p, k - 1);
    }
    if k - 1 > i {
      PushesOnlyMoveForward(repo, log, p, i, k - 1);
    }
  }

  /**
   * Two pushes that observed the same sync id, from whatever replicas, both commit only if a pull, restore or discard
   * of the project committed between them (pushes recording their own snapshots).
   */
  lemma RacingPushesNeedAnApplyBetween(s: State, i: nat, j: nat)
    requires Reachable(s) && i < j < |s.log|
    requires s.log[i].Pushed? && s.log[j].Pushed? && s.log[i].p == s.log[j].p && s.log[i].observed == s.log[j].observed
    requires forall k | i <= k < j && s.log[k].p == s.log[i].p && s.log[k].Pushed? :: s.log[k].snapshotId == s.log[k].own
    ensures exists k :: i < k < j && s.log[k].Applied? && s.log[k].p == s.log[i].p
  {
    ReachableHolds(s);
    var p := s.log[i].p;
    assert CommitOk(s.repos, s.log[..i], s.log[i]) && CommitOk(s.repos, s.log[..j], s.log[j]);
    if forall k | i <= k < j && s.log[k].p == p :: s.log[k].Pushed? {
      forall k | i <= k < j && s.log[k].p == p ensures MovesForward(s.repos[p], s.log, p, k) {
        assert CommitOk(s.repos, s.log[..k], s.log[k]);
      }
      PushesOnlyMoveForward(s.repos[p], s.log, p, i, j);
    }
  }

  lemma {:induction false} LastCommitAt(log: seq<Commit>, p: ProjectId, i: nat) returns (k: nat)
    requires i < |log| && log[i].p == p
    ensures i <= k < |log| && log[k].p == p && LastCommit(log, p) == Some(log[k])
    ensures forall m | k < m < |log| :: log[m].p != p
  {
    var last := |log| - 1;
    if log[last].p == p {
      k := last;
    } else {
      k := LastCommitAt(log[..last], p, i);
    }
  }

  /** A committed push observed what the commits before it left, and its own snapshot is another one. */
  lemma PushMovedOn(s: State, i: nat)
    requires Inv(s) && i < |s.log| && s.log[i].Pushed?
    ensures s.log[i].observed == LastRecorded(s.log[..i], s.log[i].p) && s.log[i].observed != Some(s.log[i].own)
  {
    assert CommitOk(s.repos, s.log[..i], s.log[i]);
  }

  lemma SetBackInLog(log: seq<Commit>, i: nat, j: nat) returns (k: nat)
    requires i < j < |log| && log[i].Pushed? && log[j].Pushed? && log[i].p == log[j].p
    requires log[j].observed == LastRecorded(log[..j], log[j].p) == log[i].observed != Some(log[i].snapshotId)
    ensures i < k < j && log[k].p == log[i].p && Some(log[k].snapshotId) == log[i].observed
    ensures forall m | k < m < j :: log[m].p != log[i].p
  {
    k := LastCommitAt(log[..j], log[i].p, i);
    assert forall m | 0 <= m < j :: log[..j][m] == log[m];
  }

  /**
   * Between two committed pushes that observed the same sync id, the last commit of the project set that id back: an apply
   * of that snapshot, or a push of it that finished late.
   */
  lemma RacingPushesNeedTheIdSetBack(s: State, i: nat, j: nat) returns (k: nat)
    requires Reachable(s) && i < j < |s.log|
    requires s.log[i].Pushed? && s.log[j].Pushed? && s.log[i].p == s.log[j].p && s.log[i].observed == s.log[j].observed
    requires s.log[i].snapshotId == s.log[i].own
    ensures i < k < j && s.log[k].p == s.log[i].p && Some(s.log[k].snapshotId) == s.log[i].observed
    ensures forall m | k < m < j :: s.log[m].p != s.log[i].p
  {
    ReachableHolds(s);
    PushMovedOn(s, i);
    PushMovedOn(s, j);
    k := SetBackInLog(s.log, i, j);
  }

  // ---- Secret versions ----

  /** Whatever a client read at any time of the run, an id and a version name one row content for ever. */
  lemma VersionDeterminesRow(s: State, a: SecretRow, b: SecretRow)
    requires Reachable(s) && a in s.rows && b in s.rows && a.id == b.id && a.version == b.version
    ensures a == b
  {
    ReachableHolds(s);
  }

  lemma StepKeepsRows(s: State, a: Action)
    requires Enabled(s, a)
    ensures s.rows <= Step(s, a).rows
  {
  }

  lemma {:induction false} RunKeepsRows(s: State, actions: seq<Action>, t: State)
    requires Runs(s, actions, t)
    ensures s.rows <= t.rows
    decreases |actions|
  {
    if actions != [] {
      StepKeepsRows(s, actions[0]);
      RunKeepsRows(Step(s, actions[0]), actions[1..], t);
    }
  }

  /** Versions of an id only grow: a row stored later is the row seen earlier, or carries a higher version. */
  lemma VersionsStrictlyIncrease(s: State, actions: seq<Action>, t: State, seen: SecretRow, stored: SecretRow)
    requires Inv(s) && Runs(s, actions, t)
    requires seen in s.rows && stored in t.db.secrets && seen.id == stored.id
    ensures stored == seen || stored.version > seen.version
  {
    RunKeeps(s, actions, t);
    RunKeepsRows(s, actions, t);
  }

  /**
   * A full update that succeeds overwrites exactly the row its client read, at any earlier point of the run and across
   * any replacement of the project's secrets since: that row gets the name and the data of the request.
   */
  lemma UpdateOverwritesWhatWasRead(s: State, actions: seq<Action>, t: State, seen: SecretRow, p: ProjectId, newName: Option<JsString>, newData: Option<Data>)
    requires Inv(s) && Runs(s, actions, t) && seen in s.rows
    requires newData.Some? ==> UniqueKeys(newData.value)
    requires UpdateSection(t.db, p, seen.id, newName, newData, seen.version).1 == Done
    ensures seen in t.db.secrets && seen.projectId == p
    ensures var name, data := if newName.Some? then newName.value else seen.name, if newData.Some? then newData.value else seen.data;
            OneRowEdited(t.db.secrets, UpdateSection(t.db, p, seen.id, newName, newData, seen.version).0.secrets, seen.id,
                         SecretRow(seen.id, p, name, data, seen.version + 1))
  {
    RunKeeps(s, actions, t);
    RunKeepsRows(s, actions, t);
    var stored := UpdatedRow(t.db, p, seen.id, newName, newData, seen.version);
    assert stored in t.rows && stored == seen;
    StoredIsWellFormed(t.db, p);
    UpdateChangesOneSecret(t.db, seen, newName, newData, seen.version);
  }

  /** A full update that succeeds found a stored row with the version it names. */
  lemma UpdatedRow(db: Db, p: ProjectId, id: SecretId, newName: Option<JsString>, newData: Option<Data>, version: nat) returns (stored: SecretRow)
    requires Consistent(db) && (newData.Some? ==> UniqueKeys(newData.value)) && UpdateSection(db, p, id, newName, newData, version).1 == Done
    ensures stored in db.secrets && stored.projectId == p && stored.id == id && stored.version == version
    ensures version >= 1 && (newName.Some? || newData.Some?)
  {
    UpdateFinds(db, p, id, newName, newData, version);
    stored :| stored in db.secrets && stored.projectId == p && stored.id == id;
    StoredIsWellFormed(db, p);
    UpdateNeedsVersion(db, stored, newName, newData, version);
  }

  lemma UpdateFinds(db: Db, p: ProjectId, id: SecretId, newName: Option<JsString>, newData: Option<Data>, version: nat)
    requires UpdateSection(db, p, id, newName, newData, version).1 == Done
    ensures version >= 1 && (newName.Some? || newData.Some?) && exists r :: r in db.secrets && r.projectId == p && r.id == id
  {
    if version < 1 || (newName.None? && newData.None?) || p !in db.projects || forall r | r in db.secrets && r.projectId == p :: r.id != id {
      UpdateMisses(db, p, id, newName, newData, version);
    }
  }

  /** A confirmation, a discard included, replaces the stored secrets only while they still have the content its token names. */
  lemma ConfirmationReplacesOnlyTheExpectedContent(s: State, o: OpId, ids: seq<SecretId>, expected: seq<Secret>)
    requires Reachable(s) && Enabled(s, Finish(o, ids)) && WellFormed(expected)
    requires s.ops[o].goal == Confirm(Some(ComputeSecretsHash(expected)))
    ensures var op, t := s.ops[o], Step(s, Finish(o, ids));
            && WellFormed(Stored(s.db, op.p))
            && (t.log != s.log <==> op.p in s.db.projects && ContentOf(Stored(s.db, op.p)) == ContentOf(expected))
            && (t.log != s.log ==> Stored(t.db, op.p) == op.secrets)
            && (t.log == s.log ==> t.db == s.db)
  {
    ReachableHolds(s);
    var op := s.ops[o];
    var token := ComputeSecretsHash(expected);
    FetchedAreValid(s, op);
    ApplyReplacesContent(s.db, op.p, token, op.secrets, ids, op.snapshot.id, op.snapshot.time);
    StoredIsWellFormed(s.db, op.p);
    HashIdentifiesContent(Stored(s.db, op.p), expected);
    var (db, error) := ApplySection(s.db, op.p, token, RowsFor(op.p, op.secrets, ids), op.snapshot.id, op.snapshot.time);
    if error.None? {
      assert Step(s, Finish(o, ids)).log == s.log + [Applied(op.p, op.snapshot.id, token, Stored(s.db, op.p), Stored(db, op.p))];
    }
  }

  // ---- When a push recorded a snapshot that was not its own ----

  /**
   * Whatever snapshot the last synchronization recorded, the flag tells whether the stored content differs from that
   * snapshot exactly when the snapshot holds the content synchronized, or the stored content is neither of the two.
   */
  lemma FlagFollowsRecordedSnapshotIff(s: State, p: ProjectId, x: Snapshot, secretCount: nat)
    requires Reachable(s) && p in s.db.projects && LastCommit(s.log, p).Some?
    requires p in s.repos && x in s.repos[p] && x.id == LastCommit(s.log, p).value.snapshotId && SnapshotContent(x.files).Ok?
    ensures var synced, recorded, stored := Synced(LastCommit(s.log, p).value), SnapshotContent(x.files).value, Stored(s.db, p);
            && s.db.projects[p].lastSyncSnapshotId == Some(x.id)
            && WellFormed(synced) && WellFormed(recorded) && WellFormed(stored)
            && ((ComputeHasLocalChanges(s.db.projects[p], secretCount) <==> ContentOf(stored) != ContentOf(recorded))
                <==> (ContentOf(recorded) == ContentOf(synced)
                      || (ContentOf(stored) != ContentOf(recorded) && ContentOf(stored) != ContentOf(synced))))
  {
    FlagComparesWithSyncedContent(s, p, secretCount);
    ReachableHolds(s);
    ReadSecretsAreValid(x.files);
  }

  /**
   * Every answer of the resolution is a step of the protocol, and it is the push's own snapshot exactly when some exact
   * read answered or the last listing shows it.
   */
  lemma ResolutionRecordsItsOwnIff(s: State, o: OpId, createdId: Option<SnapshotId>, lookups: seq<Option<Snapshot>>, listing: seq<Snapshot>)
    requires Reachable(s) && o in s.ops && s.ops[o].PushBackedUp? && s.ops[o].p in s.repos && Lists(listing, s.repos[s.ops[o].p])
    requires createdId in {None, Some(s.ops[o].own)}
    requires forall l | l in lookups && l.Some? :: l.value in s.repos[s.ops[o].p] && l.value.id == s.ops[o].own
    requires Resolved(createdId, s.ops[o].known, lookups, listing).Ok?
    ensures var r := Resolved(createdId, s.ops[o].known, lookups, listing).value;
            && Enabled(s, Resolve(o, r))
            && (r.id == s.ops[o].own <==>
                (createdId.Some? && exists l :: l in lookups && l.Some?) || exists x :: x in listing && x.id == s.ops[o].own)
  {
    ReachableHolds(s);
    var op := s.ops[o];
    assert OpOk(s.repos, op);
    RecordsItsOwnIff(op.own, createdId, op.known, lookups, listing);
    if |NewSnapshots(listing, op.known)| == 1 {
      assert NewSnapshots(listing, op.known)[0] in NewSnapshots(listing, op.known);
    }
  }
}
