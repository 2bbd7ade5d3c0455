/** The invariant of the synchronization protocol and its preservation by every step. */
module SyncInvariant {
  import opened JsStrings
  import opened Model
  import opened SecretNames
  import opened SecretsHash
  import opened SecretsData
  import opened SecretsDataFacts
  import opened SecretsRoutes
  import opened SecretsRoutesFacts
  import opened Difference
  import opened Snapshots
  import opened SyncService
  import opened SyncServiceFacts
  import opened SyncProtocol

  // ---- Repositories ----

  ghost predicate InRepo(repo: seq<Snapshot>, id: SnapshotId) {
    exists x :: x in repo && x.id == id
  }

  /** Creation order: the index of a snapshot in its append-only repository, -1 for "never synchronized". */
  function Position(repo: seq<Snapshot>, id: Option<SnapshotId>): int {
    if id.None? then -1 else IndexOfId(repo, id.value)
  }

  function IndexOfId(repo: seq<Snapshot>, id: SnapshotId): (i: nat)
    ensures i <= |repo|
    ensures i < |repo| ==> repo[i].id == id
    ensures forall k | 0 <= k < i :: repo[k].id != id
  {
    if repo == [] || repo[0].id == id then 0 else 1 + IndexOfId(repo[1..], id)
  }

  ghost predicate Grows(before: map<ProjectId, seq<Snapshot>>, after: map<ProjectId, seq<Snapshot>>) {
    && before.Keys == after.Keys
    && forall p | p in before :: before[p] <= after[p]
  }

  lemma PositionIsStable(before: seq<Snapshot>, after: seq<Snapshot>, id: Option<SnapshotId>)
    requires before <= after && (id.Some? ==> InRepo(before, id.value))
    ensures Position(after, id) == Position(before, id) < |before|
  {
    if id.Some? {
      var x :| x in before && x.id == id.value;
      var i := IndexOfId(before, id.value);
      assert after[i] == before[i];
      assert forall k | 0 <= k < i :: after[k] == before[k];
    }
  }

  // ---- The invariant ----

  /** The files of the recorded snapshot read back as these secrets. */
  ghost predicate Holds(repo: seq<Snapshot>, id: SnapshotId, secrets: seq<Secret>) {
    exists x :: x in repo && x.id == id && SnapshotContent(x.files) == Ok(secrets)
  }

  /** A push's own snapshot holds what it read, and is younger than the sync id it observed. */
  ghost predicate OwnSnapshot(repo: seq<Snapshot>, observed: Option<SnapshotId>, own: SnapshotId, secrets: seq<Secret>) {
    && Holds(repo, own, secrets)
    && Position(repo, observed) < Position(repo, Some(own))
  }

  ghost predicate Observed(repo: seq<Snapshot>, observed: Option<SnapshotId>) {
    observed.Some? ==> InRepo(repo, observed.value)
  }

  ghost predicate KnownIds(repo: seq<Snapshot>, known: set<SnapshotId>) {
    forall id | id in known :: InRepo(repo, id)
  }

  lemma KnownGrows(before: seq<Snapshot>, after: seq<Snapshot>, known: set<SnapshotId>)
    requires before <= after && KnownIds(before, known)
    ensures KnownIds(after, known)
  {
    forall id | id in known ensures InRepo(after, id) {
      var x :| x in before && x.id == id;
      assert x in after;
    }
  }

  /** A request that pins a snapshot id allows no other snapshot. */
  predicate Allows(target: Target, id: SnapshotId) {
    match target
    case LatestPinned(pinned) => id == pinned
    case Pinned(pinned) => id == pinned
    case _ => true
  }

  ghost predicate OpOk(repos: map<ProjectId, seq<Snapshot>>, op: Operation) {
    && op.p in repos
    && match op
       case Queued(p, row, target, goal) => true
       case Started(p, target, goal) => true
       case Located(p, target, snapshot, goal) => snapshot in repos[p] && Allows(target, snapshot.id)
       case Fetched(p, target, snapshot, secrets, goal) =>
         snapshot in repos[p] && Allows(target, snapshot.id) && SnapshotContent(snapshot.files) == Ok(secrets)
       case PushQueued(p, row) => Observed(repos[p], row.lastSyncSnapshotId)
       case PushStarted(p, observed) => Observed(repos[p], observed)
       case PushRead(p, observed, secrets) => Observed(repos[p], observed) && ValidSecrets(secrets)
       case PushChecked(p, observed, secrets, known) =>
         Observed(repos[p], observed) && ValidSecrets(secrets) && KnownIds(repos[p], known)
       case PushBackedUp(p, observed, secrets, known, own) =>
         Observed(repos[p], observed) && ValidSecrets(secrets) && OwnSnapshot(repos[p], observed, own, secrets) && own !in known
       case PushResolved(p, observed, secrets, own, recorded) =>
         Observed(repos[p], observed) && ValidSecrets(secrets) && OwnSnapshot(repos[p], observed, own, secrets) && recorded in repos[p]
  }

  ghost predicate PreviewOk(repos: map<ProjectId, seq<Snapshot>>, v: PreviewResult) {
    && v.p in repos && Holds(repos[v.p], v.snapshotId, v.incoming)
    && WellFormed(v.current) && WellFormed(v.incoming) && v.contentHash == ComputeSecretsHash(v.current)
    && v.difference == DiffOf(ContentOf(v.current), ContentOf(v.incoming))
  }

  /** The secrets a commit recorded as synchronized. */
  function Synced(c: Commit): seq<Secret> {
    match c
    case Applied(_, _, _, _, after) => after
    case Pushed(_, _, _, _, pushed, _) => pushed
  }

  /** The last committed synchronization of a project. */
  function LastCommit(log: seq<Commit>, p: ProjectId): (r: Option<Commit>)
    ensures r.Some? ==> r.value in log && r.value.p == p
  {
    if log == [] then None
    else if log[|log| - 1].p == p then Some(log[|log| - 1])
    else LastCommit(log[..|log| - 1], p)
  }

  function LastRecorded(log: seq<Commit>, p: ProjectId): Option<SnapshotId> {
    match LastCommit(log, p)
    case None => None
    case Some(c) => Some(c.snapshotId)
  }

  ghost predicate CommitOk(repos: map<ProjectId, seq<Snapshot>>, earlier: seq<Commit>, c: Commit) {
    && c.p in repos && InRepo(repos[c.p], c.snapshotId) && ValidSecrets(Synced(c))
    && match c
       case Applied(p, id, expected, before, after) =>
         Holds(repos[p], id, after) && WellFormed(before) && expected == ComputeSecretsHash(before)
       case Pushed(p, id, observed, own, pushed, atCommit) =>
         && observed == LastRecorded(earlier, p) && Observed(repos[p], observed)
         && OwnSnapshot(repos[p], observed, own, pushed) && WellFormed(atCommit)
  }

  /** The sync columns of a project are those of its last commit. */
  ghost predicate ColumnsMatch(db: Db, log: seq<Commit>) {
    forall p | p in db.projects ::
      && db.projects[p].lastSyncSnapshotId == LastRecorded(log, p)
      && (LastCommit(log, p).Some? ==>
        db.projects[p].lastSyncContentHash == Some(ComputeSecretsHash(Synced(LastCommit(log, p).value))))
  }

  /** An id and a version determine a row, and the stored version of an id is its highest. */
  ghost predicate RowsOk(db: Db, rows: set<SecretRow>) {
    && (forall r | r in db.secrets :: r in rows)
    && (forall a, b | a in rows && b in rows && a.id == b.id && a.version == b.version :: a == b)
    && (forall r, a | r in db.secrets && a in rows && a.id == r.id :: a.version <= r.version)
  }

  ghost predicate ReposOk(s: State) {
    && (forall p | p in s.db.projects :: p in s.repos)
    && (forall p | p in s.repos :: IsRepository(s.repos[p]))
  }

  ghost predicate HistoryOk(s: State) {
    && (forall i | 0 <= i < |s.previews| :: PreviewOk(s.repos, s.previews[i]))
    && (forall i | 0 <= i < |s.log| :: CommitOk(s.repos, s.log[..i], s.log[i]))
  }

  ghost predicate OpsOk(s: State) {
    forall o | o in s.ops :: OpOk(s.repos, s.ops[o])
  }

  ghost predicate Inv(s: State) {
    Consistent(s.db) && RowsOk(s.db, s.rows) && ReposOk(s) && OpsOk(s) && HistoryOk(s) && ColumnsMatch(s.db, s.log)
  }

  lemma InitHolds(s: State)
    requires Init(s)
    ensures Inv(s)
  {
    assert forall a, b | a in s.db.secrets && b in s.db.secrets && a.id == b.id :: a == b;
    assert forall p :: LastCommit([], p) == None;
  }

  // ---- Growing repositories ----

  lemma HoldsGrows(before: seq<Snapshot>, after: seq<Snapshot>, id: SnapshotId, secrets: seq<Secret>)
    requires before <= after && Holds(before, id, secrets)
    ensures Holds(after, id, secrets) && InRepo(before, id) && InRepo(after, id)
  {
    var x :| x in before && x.id == id && SnapshotContent(x.files) == Ok(secrets);
    assert x in after;
  }

  lemma ObservedGrows(before: seq<Snapshot>, after: seq<Snapshot>, observed: Option<SnapshotId>)
    requires before <= after && Observed(before, observed)
    ensures Observed(after, observed)
  {
    if observed.Some? {
      var x :| x in before && x.id == observed.value;
      assert x in after;
    }
  }

  lemma OwnGrows(before: seq<Snapshot>, after: seq<Snapshot>, observed: Option<SnapshotId>, own: SnapshotId, secrets: seq<Secret>)
    requires before <= after && Observed(before, observed) && OwnSnapshot(before, observed, own, secrets)
    ensures OwnSnapshot(after, observed, own, secrets)
  {
    HoldsGrows(before, after, own, secrets);
    PositionIsStable(before, after, observed);
    PositionIsStable(before, after, Some(own));
  }

  lemma OpGrows(before: map<ProjectId, seq<Snapshot>>, after: map<ProjectId, seq<Snapshot>>, op: Operation)
    requires Grows(before, after) && OpOk(before, op)
    ensures OpOk(after, op)
  {
    var b, a := before[op.p], after[op.p];
    assert forall x | x in b :: x in a;
    match op
    case PushQueued(p, row) => ObservedGrows(b, a, row.lastSyncSnapshotId);
    case PushStarted(p, observed) => ObservedGrows(b, a, observed);
    case PushRead(p, observed, secrets) => ObservedGrows(b, a, observed);
    case PushChecked(p, observed, secrets, known) => ObservedGrows(b, a, observed); KnownGrows(b, a, known);
    case PushBackedUp(p, observed, secrets, known, own) => ObservedGrows(b, a, observed); OwnGrows(b, a, observed, own, secrets);
    case PushResolved(p, observed, secrets, own, recorded) => ObservedGrows(b, a, observed); OwnGrows(b, a, observed, own, secrets);
    case _ =>
  }

  lemma CommitGrows(before: map<ProjectId, seq<Snapshot>>, after: map<ProjectId, seq<Snapshot>>, earlier: seq<Commit>, c: Commit)
    requires Grows(before, after) && CommitOk(before, earlier, c)
    ensures CommitOk(after, earlier, c)
  {
    var b, a := before[c.p], after[c.p];
    ObservedGrows(b, a, Some(c.snapshotId));
    match c
    case Applied(p, id, expected, was, now) => HoldsGrows(b, a, id, now);
    case Pushed(p, id, observed, own, pushed, atCommit) => ObservedGrows(b, a, observed); OwnGrows(b, a, observed, own, pushed);
  }

  lemma OpsGrow(before: map<ProjectId, seq<Snapshot>>, after: map<ProjectId, seq<Snapshot>>, ops: map<OpId, Operation>)
    requires Grows(before, after) && forall o | o in ops :: OpOk(before, ops[o])
    ensures forall o | o in ops :: OpOk(after, ops[o])
  {
    forall o | o in ops ensures OpOk(after, ops[o]) {
      OpGrows(before, after, ops[o]);
    }
  }

  lemma HistoryGrows(s: State, t: State)
    requires HistoryOk(s) && Grows(s.repos, t.repos) && t.previews == s.previews && t.log == s.log
    ensures HistoryOk(t)
  {
    forall i | 0 <= i < |t.previews| ensures PreviewOk(t.repos, t.previews[i]) {
      var v := s.previews[i];
      HoldsGrows(s.repos[v.p], t.repos[v.p], v.snapshotId, v.incoming);
    }
    forall i | 0 <= i < |t.log| ensures CommitOk(t.repos, t.log[..i], t.log[i]) {
      CommitGrows(s.repos, t.repos, s.log[..i], s.log[i]);
    }
  }

  lemma ReposAppend(s: State, p: ProjectId, snapshot: Snapshot)
    requires ReposOk(s) && NewSnapshot(s, p, snapshot.id) && IsFolder(snapshot.files)
    ensures var t := s.(repos := s.repos[p := s.repos[p] + [snapshot]]); ReposOk(t) && Grows(s.repos, t.repos)
  {
  }

  /** Appending a snapshot with a new id keeps the invariant. */
  lemma AppendKeeps(s: State, p: ProjectId, snapshot: Snapshot)
    requires Inv(s) && NewSnapshot(s, p, snapshot.id) && IsFolder(snapshot.files)
    ensures var t := s.(repos := s.repos[p := s.repos[p] + [snapshot]]);
            Inv(t) && Grows(s.repos, t.repos)
  {
    var t := s.(repos := s.repos[p := s.repos[p] + [snapshot]]);
    ReposAppend(s, p, snapshot);
    OpsGrow(s.repos, t.repos, s.ops);
    HistoryGrows(s, t);
  }

  // ---- Writing the tables ----

  /** Every row after a write was there, or is the next version of one that was, or has a new id. */
  ghost predicate RowsEvolve(rows: set<SecretRow>, before: Db, after: Db) {
    forall t | t in after.secrets ::
      || t in before.secrets
      || (forall r | r in rows :: r.id != t.id)
      || (exists r :: r in before.secrets && r.id == t.id && t.version == r.version + 1)
  }

  /** The projects that remain keep their sync columns. */
  ghost predicate SameColumns(before: Db, after: Db) {
    forall p | p in after.projects ::
      && p in before.projects
      && after.projects[p].lastSyncSnapshotId == before.projects[p].lastSyncSnapshotId
      && after.projects[p].lastSyncSnapshotTime == before.projects[p].lastSyncSnapshotTime
      && after.projects[p].lastSyncContentHash == before.projects[p].lastSyncContentHash
  }

  lemma RowsStayOk(rows: set<SecretRow>, before: Db, after: Db)
    requires RowsOk(before, rows) && RowsEvolve(rows, before, after) && UniqueRows(after.secrets)
    ensures RowsOk(after, rows + (set r | r in after.secrets))
  {
    var all := rows + (set r | r in after.secrets);
    forall a, b | a in all && b in all && a.id == b.id && a.version == b.version ensures a == b {
      if a !in rows && b !in rows {
        SameIdSameRow(after.secrets, a, b);
      } else if a !in rows {
        NewRowIsNewer(rows, before, after, a, b);
      } else if b !in rows {
        NewRowIsNewer(rows, before, after, b, a);
      }
    }
    forall r, a | r in after.secrets && a in all && a.id == r.id ensures a.version <= r.version {
      if a in rows {
        if r !in before.secrets {
          RowIsNewer(rows, before, after, r, a);
        }
      } else {
        SameIdSameRow(after.secrets, a, r);
      }
    }
  }

  lemma RowIsNewer(rows: set<SecretRow>, before: Db, after: Db, t: SecretRow, a: SecretRow)
    requires RowsOk(before, rows) && RowsEvolve(rows, before, after)
    requires t in after.secrets && t !in before.secrets && a in rows && a.id == t.id
    ensures a.version < t.version
  {
    var r :| r in before.secrets && r.id == t.id && t.version == r.version + 1;
  }

  lemma NewRowIsNewer(rows: set<SecretRow>, before: Db, after: Db, t: SecretRow, a: SecretRow)
    requires RowsOk(before, rows) && RowsEvolve(rows, before, after)
    requires t in after.secrets && t !in rows && a in rows && a.id == t.id
    ensures a.version < t.version
  {
    RowIsNewer(rows, before, after, t, a);
  }

  lemma WriteKeeps(s: State, db: Db)
    requires Inv(s) && Consistent(db) && RowsEvolve(s.rows, s.db, db) && SameColumns(s.db, db)
    ensures Inv(WithDb(s, db))
  {
    RowsStayOk(s.rows, s.db, db);
  }

  // ---- The secret routes ----

  lemma EditKeepsColumns(before: Db, after: Db, p: ProjectId)
    requires EditedOnly(before, after, p)
    ensures SameColumns(before, after)
  {
  }

  lemma CreateStep(s: State, p: ProjectId, id: SecretId, name: JsString, data: Data)
    requires Inv(s) && UniqueKeys(data) && NewIds(s, [id])
    ensures Inv(WithDb(s, CreateSection(s.db, p, id, name, data).0))
  {
    CreateEvolves(s.db, s.rows, p, id, name, data);
    WriteKeeps(s, CreateSection(s.db, p, id, name, data).0);
  }

  lemma CreateEvolves(db: Db, rows: set<SecretRow>, p: ProjectId, id: SecretId, name: JsString, data: Data)
    requires Consistent(db) && UniqueKeys(data)
    requires forall r | r in rows :: r.id !in [id]
    requires forall r | r in db.secrets :: r in rows
    ensures var after := CreateSection(db, p, id, name, data).0;
            Consistent(after) && RowsEvolve(rows, db, after) && SameColumns(db, after)
  {
    forall r | r in rows ensures r.id != id {
      assert [id][0] in [id];
    }
    StoredIsWellFormed(db, p);
    CreateAddsOneSecret(db, p, id, name, data);
    EditKeepsColumns(db, CreateSection(db, p, id, name, data).0, p);
  }

  /** One row changed, into the next version of it. */
  lemma EditedEvolve(rows: set<SecretRow>, before: Db, after: Db, stored: SecretRow, name: JsString, data: Data)
    requires stored in before.secrets
    requires OneRowEdited(before.secrets, after.secrets, stored.id, SecretRow(stored.id, stored.projectId, name, data, stored.version + 1))
    ensures RowsEvolve(rows, before, after)
  {
    forall t | t in after.secrets && t !in before.secrets ensures t == SecretRow(stored.id, stored.projectId, name, data, stored.version + 1) {
      var i :| 0 <= i < |after.secrets| && after.secrets[i] == t;
      assert before.secrets[i] in before.secrets;
    }
  }

  lemma UpdateStep(s: State, p: ProjectId, id: SecretId, newName: Option<JsString>, newData: Option<Data>, version: nat)
    requires Inv(s) && (newData.Some? ==> UniqueKeys(newData.value))
    ensures Inv(WithDb(s, UpdateSection(s.db, p, id, newName, newData, version).0))
  {
    if version < 1 || (newName.None? && newData.None?) || p !in s.db.projects || Find(RowsOf(s.db.secrets, p), id).None? {
      UpdateMisses(s.db, p, id, newName, newData, version);
    } else {
      UpdateEvolves(s.db, s.rows, Find(RowsOf(s.db.secrets, p), id).value, newName, newData, version);
    }
    WriteKeeps(s, UpdateSection(s.db, p, id, newName, newData, version).0);
  }

  lemma UpdateEvolves(db: Db, rows: set<SecretRow>, stored: SecretRow, newName: Option<JsString>, newData: Option<Data>, version: nat)
    requires Consistent(db) && stored in db.secrets && (newData.Some? ==> UniqueKeys(newData.value))
    requires version >= 1 && (newName.Some? || newData.Some?)
    ensures var after := UpdateSection(db, stored.projectId, stored.id, newName, newData, version).0;
            Consistent(after) && RowsEvolve(rows, db, after) && SameColumns(db, after)
  {
    StoredIsWellFormed(db, stored.projectId);
    UpdateChangesOneSecret(db, stored, newName, newData, version);
    var (after, outcome) := UpdateSection(db, stored.projectId, stored.id, newName, newData, version);
    if outcome == Done {
      EditedEvolve(rows, db, after, stored, if newName.Some? then newName.value else stored.name, if newData.Some? then newData.value else stored.data);
      EditKeepsColumns(db, after, stored.projectId);
    }
  }

  lemma MergeStep(s: State, p: ProjectId, id: SecretId, key: JsString, value: JsString)
    requires Inv(s)
    ensures Inv(WithDb(s, MergeSection(s.db, p, id, key, value, Quiet(s.db)).0))
  {
    MergeEvolves(s.db, s.rows, p, id, key, value);
    WriteKeeps(s, MergeSection(s.db, p, id, key, value, Quiet(s.db)).0);
  }

  lemma MergeEvolves(db: Db, rows: set<SecretRow>, p: ProjectId, id: SecretId, key: JsString, value: JsString)
    requires Consistent(db)
    ensures var after := MergeSection(db, p, id, key, value, Quiet(db)).0;
            Consistent(after) && RowsEvolve(rows, db, after) && SameColumns(db, after)
  {
    if key != [] && p in db.projects {
      if Find(RowsOf(db.secrets, p), id).Some? {
        MergeListedEvolves(db, rows, Find(RowsOf(db.secrets, p), id).value, key, value);
      } else {
        MergeMissesUnlisted(db, p, id, key, value);
      }
    }
  }

  lemma MergeMissesUnlisted(db: Db, p: ProjectId, id: SecretId, key: JsString, value: JsString)
    requires Find(RowsOf(db.secrets, p), id).None?
    ensures MergeSection(db, p, id, key, value, Quiet(db)).0 == db
  {
    assert Quiet(db)[0] in Quiet(db);
    FirstAttemptDecides(Quiet(db), p, id, key, value, 0);
  }

  lemma MergeListedEvolves(db: Db, rows: set<SecretRow>, stored: SecretRow, key: JsString, value: JsString)
    requires Consistent(db) && stored in db.secrets && key != []
    ensures var after := MergeSection(db, stored.projectId, stored.id, key, value, Quiet(db)).0;
            Consistent(after) && RowsEvolve(rows, db, after) && SameColumns(db, after)
  {
    StoredIsWellFormed(db, stored.projectId);
    MergeChangesOneKey(db, stored, key, value);
    var after := MergeSection(db, stored.projectId, stored.id, key, value, Quiet(db)).0;
    EditedEvolve(rows, db, after, stored, stored.name, WithKey(stored.data, key, value));
    EditKeepsColumns(db, after, stored.projectId);
  }

  lemma RemoveStep(s: State, p: ProjectId, id: SecretId)
    requires Inv(s)
    ensures Inv(WithDb(s, DeleteSection(s.db, p, id).0))
  {
    RemoveEvolves(s.db, s.rows, p, id);
    WriteKeeps(s, DeleteSection(s.db, p, id).0);
  }

  lemma RemoveEvolves(db: Db, rows: set<SecretRow>, p: ProjectId, id: SecretId)
    requires Consistent(db)
    ensures var after := DeleteSection(db, p, id).0;
            Consistent(after) && RowsEvolve(rows, db, after) && SameColumns(db, after)
  {
    DeleteRemovesOneSecret(db, p, id);
    EditKeepsColumns(db, DeleteSection(db, p, id).0, p);
  }

  lemma RemoveProjectStep(s: State, p: ProjectId)
    requires Inv(s)
    ensures Inv(WithDb(s, DeleteProjectSection(s.db, p).0))
  {
    RemoveProjectEvolves(s.db, s.rows, p);
    WriteKeeps(s, DeleteProjectSection(s.db, p).0);
  }

  lemma RemoveProjectEvolves(db: Db, rows: set<SecretRow>, p: ProjectId)
    requires Consistent(db)
    ensures var after := DeleteProjectSection(db, p).0;
            Consistent(after) && RowsEvolve(rows, db, after) && SameColumns(db, after)
  {
    DeleteRemovesProject(db, p);
  }

  // ---- Operations in flight ----

  lemma LastCommitIsOk(s: State, p: ProjectId)
    requires Inv(s)
    ensures LastCommit(s.log, p).Some? ==>
              exists i :: 0 <= i < |s.log| && s.log[i] == LastCommit(s.log, p).value && CommitOk(s.repos, s.log[..i], s.log[i])
    ensures p in s.repos ==> Observed(s.repos[p], LastRecorded(s.log, p))
  {
    if LastCommit(s.log, p).Some? {
      var i :| 0 <= i < |s.log| && s.log[i] == LastCommit(s.log, p).value;
      assert CommitOk(s.repos, s.log[..i], s.log[i]);
    }
  }

  lemma OpKeeps(s: State, o: OpId, op: Operation)
    requires Inv(s) && OpOk(s.repos, op)
    ensures Inv(WithOp(s, o, op))
  {
  }

  lemma DropKeeps(s: State, o: OpId)
    requires Inv(s)
    ensures Inv(WithoutOp(s, o))
  {
  }

  lemma StartStep(s: State, o: OpId)
    requires Inv(s) && Enabled(s, Start(o))
    ensures Inv(Step(s, Start(o)))
  {
    var next := StartOf(s, s.ops[o]);
    if next.None? {
      DropKeeps(s, o);
    } else {
      assert next.value.p == s.ops[o].p;
      OpKeeps(s, o, next.value);
    }
  }

  lemma SelectedIsListed(target: Target, listing: seq<Snapshot>)
    requires Snapshots.UniqueIds(listing) && SelectTarget(target, listing).Ok?
    ensures SelectTarget(target, listing).value in listing && Allows(target, SelectTarget(target, listing).value.id)
  {
    if listing != [] {
      LatestIsMaximum(listing);
    }
  }

  lemma LocateStep(s: State, o: OpId, listing: seq<Snapshot>)
    requires Inv(s) && Enabled(s, Locate(o, listing))
    ensures Inv(Step(s, Locate(o, listing)))
  {
    var op := s.ops[o];
    if SelectTarget(op.target, listing).Err? {
      DropKeeps(s, o);
    } else {
      SelectedIsListed(op.target, listing);
      OpKeeps(s, o, Located(op.p, op.target, SelectTarget(op.target, listing).value, op.goal));
    }
  }

  lemma FetchStep(s: State, o: OpId)
    requires Inv(s) && Enabled(s, Fetch(o))
    ensures Inv(Step(s, Fetch(o)))
  {
    var op := s.ops[o];
    var content := SnapshotContent(op.snapshot.files);
    if content.Err? {
      DropKeeps(s, o);
    } else {
      OpKeeps(s, o, Fetched(op.p, op.target, op.snapshot, content.value, op.goal));
    }
  }

  lemma StartPushStep(s: State, o: OpId)
    requires Inv(s) && Enabled(s, StartPush(o))
    ensures Inv(Step(s, StartPush(o)))
  {
    var op := s.ops[o];
    LastCommitIsOk(s, op.p);
    OpKeeps(s, o, PushStarted(op.p, Reread(s, op.p, op.row).lastSyncSnapshotId));
  }

  lemma StoredAreValid(db: Db, p: ProjectId)
    requires Schema(db)
    ensures ValidSecrets(Stored(db, p))
  {
    StoredIsWellFormed(db, p);
    var rows := RowsOf(db.secrets, p);
    forall x | x in Stored(db, p) ensures IsValidName(x.name) {
      var i :| 0 <= i < |rows| && Stored(db, p)[i] == x;
      assert rows[i] in rows;
    }
  }

  lemma ReadPushStep(s: State, o: OpId)
    requires Inv(s) && Enabled(s, ReadPush(o))
    ensures Inv(Step(s, ReadPush(o)))
  {
    var op := s.ops[o];
    StoredAreValid(s.db, op.p);
    OpKeeps(s, o, PushRead(op.p, op.observed, Stored(s.db, op.p)));
  }

  lemma CheckPushStep(s: State, o: OpId, listing: seq<Snapshot>)
    requires Inv(s) && Enabled(s, CheckPush(o, listing))
    ensures Inv(Step(s, CheckPush(o, listing)))
  {
    var op := s.ops[o];
    if EnsureNoNewerSnapshot(op.observed, listing).Some? {
      DropKeeps(s, o);
    } else {
      var known := set x | x in listing :: x.id;
      assert KnownIds(s.repos[op.p], known);
      OpKeeps(s, o, PushChecked(op.p, op.observed, op.secrets, known));
    }
  }

  lemma PushedFilesAreFolder(secrets: seq<Secret>)
    requires ValidSecrets(secrets)
    ensures IsFolder(FilesOf(secrets))
  {
    var files := FilesOf(secrets);
    forall i, j | 0 <= i < j < |files| ensures files[i].fileName != files[j].fileName {
      assert files[i].fileName[..|secrets[i].name|] == secrets[i].name;
      assert files[j].fileName[..|secrets[j].name|] == secrets[j].name;
    }
    forall f | f in files && f.data.Some? ensures UniqueKeys(f.data.value) {
      var i :| 0 <= i < |files| && files[i] == f;
      assert secrets[i] in secrets;
    }
  }

  lemma BackUpStep(s: State, o: OpId, id: SnapshotId, time: Option<int>)
    requires Inv(s) && Enabled(s, BackUp(o, id, time))
    ensures Inv(Step(s, BackUp(o, id, time)))
  {
    var op := s.ops[o];
    var snapshot := Snapshot(id, time, FilesOf(op.secrets));
    PushedFilesAreFolder(op.secrets);
    PushedFilesReadBack(op.secrets);
    AppendKeeps(s, op.p, snapshot);
    var t := s.(repos := s.repos[op.p := s.repos[op.p] + [snapshot]]);
    assert snapshot in t.repos[op.p];
    OwnIsYounger(s.repos[op.p], snapshot, op.observed);
    assert id !in op.known;
    ObservedGrows(s.repos[op.p], t.repos[op.p], op.observed);
    OpKeeps(t, o, PushBackedUp(op.p, op.observed, op.secrets, op.known, id));
  }

  lemma OwnIsYounger(repo: seq<Snapshot>, own: Snapshot, observed: Option<SnapshotId>)
    requires Observed(repo, observed) && forall x | x in repo :: x.id != own.id
    ensures Position(repo + [own], observed) < Position(repo + [own], Some(own.id))
  {
    PositionIsStable(repo, repo + [own], observed);
    assert (repo + [own])[|repo|].id == own.id;
    assert forall i | 0 <= i < |repo| :: repo[i] in repo;
  }

  lemma ResolveStep(s: State, o: OpId, recorded: Snapshot)
    requires Inv(s) && Enabled(s, Resolve(o, recorded))
    ensures Inv(Step(s, Resolve(o, recorded)))
  {
    var op := s.ops[o];
    OpKeeps(s, o, PushResolved(op.p, op.observed, op.secrets, op.own, recorded));
  }

  // ---- Commits ----

  lemma LogGrows(s: State, c: Commit)
    requires HistoryOk(s) && CommitOk(s.repos, s.log, c)
    ensures HistoryOk(s.(log := s.log + [c]))
    ensures forall q :: LastCommit(s.log + [c], q) == if q == c.p then Some(c) else LastCommit(s.log, q)
  {
    forall i | 0 <= i < |s.log + [c]| ensures CommitOk(s.repos, (s.log + [c])[..i], (s.log + [c])[i]) {
      CommitInGrownLog(s, c, i);
    }
    assert (s.log + [c])[..|s.log|] == s.log;
  }

  lemma CommitInGrownLog(s: State, c: Commit, i: nat)
    requires HistoryOk(s) && CommitOk(s.repos, s.log, c) && i <= |s.log|
    ensures CommitOk(s.repos, (s.log + [c])[..i], (s.log + [c])[i])
  {
    assert (s.log + [c])[..i] == s.log[..i];
    if i == |s.log| {
      assert s.log[..i] == s.log;
    } else {
      assert CommitOk(s.repos, s.log[..i], s.log[i]);
    }
  }

  /** A committed synchronization of `c.p` that wrote the tables and its sync columns. */
  lemma CommitKeeps(s: State, db: Db, c: Commit)
    requires Inv(s) && CommitOk(s.repos, s.log, c)
    requires Consistent(db) && RowsEvolve(s.rows, s.db, db) && OthersUntouched(s.db, db, c.p) && c.p in s.db.projects
    requires c.p in db.projects && db.projects[c.p].lastSyncSnapshotId == Some(c.snapshotId)
    requires db.projects[c.p].lastSyncContentHash == Some(ComputeSecretsHash(Synced(c)))
    ensures Inv(WithDb(s, db).(log := s.log + [c]))
  {
    RowsStayOk(s.rows, s.db, db);
    LogGrows(s, c);
    ColumnsFollow(s.db, db, s.log, c);
  }

  lemma ColumnsFollow(before: Db, after: Db, log: seq<Commit>, c: Commit)
    requires ColumnsMatch(before, log) && OthersUntouched(before, after, c.p)
    requires c.p in after.projects && after.projects[c.p].lastSyncSnapshotId == Some(c.snapshotId)
    requires after.projects[c.p].lastSyncContentHash == Some(ComputeSecretsHash(Synced(c)))
    requires forall q :: LastCommit(log + [c], q) == if q == c.p then Some(c) else LastCommit(log, q)
    ensures ColumnsMatch(after, log + [c])
  {
  }

  lemma AppliedEvolve(rows: set<SecretRow>, before: Db, after: Db, p: ProjectId, secrets: seq<Secret>, ids: seq<SecretId>)
    requires |ids| == |secrets| && forall r | r in rows :: r.id !in ids
    requires after.secrets == WithoutProject(before.secrets, p) + RowsFor(p, secrets, ids)
    ensures RowsEvolve(rows, before, after)
  {
    forall t | t in after.secrets && t !in before.secrets ensures t.id in ids {
      assert t in RowsFor(p, secrets, ids);
      var i :| 0 <= i < |ids| && RowsFor(p, secrets, ids)[i] == t;
    }
  }

  lemma FetchedAreValid(s: State, op: Operation)
    requires ReposOk(s) && OpOk(s.repos, op) && op.Fetched?
    ensures ValidSecrets(op.secrets)
    ensures Holds(s.repos[op.p], op.snapshot.id, op.secrets) && InRepo(s.repos[op.p], op.snapshot.id)
  {
    ReadSecretsAreValid(op.snapshot.files);
  }

  lemma ConfirmStep(s: State, o: OpId, expected: Digest, ids: seq<SecretId>)
    requires Inv(s) && o in s.ops && s.ops[o].Fetched? && |ids| == |s.ops[o].secrets| && NewIds(s, ids)
    ensures Inv(Confirmed(s, o, s.ops[o], expected, ids))
  {
    var op := s.ops[o];
    FetchedAreValid(s, op);
    ApplyReplacesContent(s.db, op.p, expected, op.secrets, ids, op.snapshot.id, op.snapshot.time);
    var (db, error) := ApplySection(s.db, op.p, expected, RowsFor(op.p, op.secrets, ids), op.snapshot.id, op.snapshot.time);
    if error.None? {
      var c := Applied(op.p, op.snapshot.id, expected, Stored(s.db, op.p), Stored(db, op.p));
      StoredIsWellFormed(s.db, op.p);
      AppliedEvolve(s.rows, s.db, db, op.p, op.secrets, ids);
      CommitKeeps(s, db, c);
      DropKeeps(WithDb(s, db).(log := s.log + [c]), o);
    } else {
      DropKeeps(s, o);
    }
  }

  lemma PreviewStep(s: State, o: OpId)
    requires Inv(s) && o in s.ops && s.ops[o].Fetched?
    ensures Inv(WithoutOp(s, o).(previews := s.previews + [Previewed(s, s.ops[o])]))
  {
    FetchedAreValid(s, s.ops[o]);
    PreviewIsOk(s, s.ops[o]);
    PreviewAppended(s, Previewed(s, s.ops[o]));
    DropKeeps(s.(previews := s.previews + [Previewed(s, s.ops[o])]), o);
  }

  lemma PreviewIsOk(s: State, op: Operation)
    requires Schema(s.db) && op.Fetched? && OpOk(s.repos, op) && WellFormed(op.secrets)
    ensures PreviewOk(s.repos, Previewed(s, op))
  {
    StoredIsWellFormed(s.db, op.p);
  }

  lemma PreviewAppended(s: State, v: PreviewResult)
    requires Inv(s) && PreviewOk(s.repos, v)
    ensures Inv(s.(previews := s.previews + [v]))
  {
  }

  function PushCommit(s: State, op: Operation): Commit
    requires op.PushResolved?
  {
    Pushed(op.p, op.recorded.id, op.observed, op.own, op.secrets, Stored(s.db, op.p))
  }

  lemma PushCommitIsOk(s: State, op: Operation)
    requires Schema(s.db) && op.PushResolved? && OpOk(s.repos, op)
    requires LastRecorded(s.log, op.p) == op.observed
    ensures CommitOk(s.repos, s.log, PushCommit(s, op))
  {
    StoredIsWellFormed(s.db, op.p);
    assert op.recorded in s.repos[op.p];
  }

  lemma FinishPushStep(s: State, o: OpId)
    requires Inv(s) && Enabled(s, FinishPush(o))
    ensures Inv(Finalized(s, o, s.ops[o]))
  {
    var op := s.ops[o];
    var hash := ComputeSecretsHash(op.secrets);
    FinalizeRecordsPush(s.db, op.p, op.observed, op.recorded.id, op.recorded.time, hash);
    var (db, error) := FinalizeSection(s.db, op.p, op.observed, op.recorded.id, op.recorded.time, hash);
    if error.None? {
      PushCommitIsOk(s, op);
      PushKeeps(s, db, PushCommit(s, op));
      DropKeeps(WithDb(s, db).(log := s.log + [PushCommit(s, op)]), o);
    } else {
      DropKeeps(s, o);
    }
  }

  lemma PushKeeps(s: State, db: Db, c: Commit)
    requires Inv(s) && c.Pushed? && CommitOk(s.repos, s.log, c)
    requires Consistent(db) && db.secrets == s.db.secrets && OthersUntouched(s.db, db, c.p) && c.p in s.db.projects
    requires c.p in db.projects && db.projects[c.p].lastSyncSnapshotId == Some(c.snapshotId)
    requires db.projects[c.p].lastSyncContentHash == Some(ComputeSecretsHash(c.pushed))
    ensures Inv(WithDb(s, db).(log := s.log + [c]))
  {
    CommitKeeps(s, db, c);
  }

  // ---- Every step, every run ----

  ghost predicate IsWrite(a: Action) {
    a.Create? || a.Update? || a.MergeKey? || a.Remove? || a.RemoveProject? || a.Foreign? || a.Abandon?
  }

  ghost predicate IsPush(a: Action) {
    a.SubmitPush? || a.StartPush? || a.ReadPush? || a.CheckPush? || a.BackUp? || a.Resolve? || a.FinishPush?
  }

  lemma WriteStepKeeps(s: State, a: Action)
    requires Inv(s) && Enabled(s, a) && IsWrite(a)
    ensures Inv(Step(s, a))
  {
    match a
    case Create(p, id, name, data) => CreateStep(s, p, id, name, data);
    case Update(p, id, newName, newData, version) => UpdateStep(s, p, id, newName, newData, version);
    case MergeKey(p, id, key, value) => MergeStep(s, p, id, key, value);
    case Remove(p, id) => RemoveStep(s, p, id);
    case RemoveProject(p) => RemoveProjectStep(s, p);
    case Foreign(p, snapshot) => AppendKeeps(s, p, snapshot);
    case Abandon(o) => DropKeeps(s, o);
  }

  lemma PushStepKeeps(s: State, a: Action)
    requires Inv(s) && Enabled(s, a) && IsPush(a)
    ensures Inv(Step(s, a))
  {
    match a
    case SubmitPush(o, p) => LastCommitIsOk(s, p); OpKeeps(s, o, PushQueued(p, s.db.projects[p]));
    case StartPush(o) => StartPushStep(s, o);
    case ReadPush(o) => ReadPushStep(s, o);
    case CheckPush(o, listing) => CheckPushStep(s, o, listing);
    case BackUp(o, id, time) => BackUpStep(s, o, id, time);
    case Resolve(o, recorded) => ResolveStep(s, o, recorded);
    case FinishPush(o) => FinishPushStep(s, o);
  }

  lemma ReadStepKeeps(s: State, a: Action)
    requires Inv(s) && Enabled(s, a) && !IsWrite(a) && !IsPush(a)
    ensures Inv(Step(s, a))
  {
    match a
    case Submit(o, p, target, goal) => OpKeeps(s, o, Queued(p, s.db.projects[p], target, goal));
    case Start(o) => StartStep(s, o);
    case CaptureToken(o) =>
      OpKeeps(s, o, Started(s.ops[o].p, s.ops[o].target, Confirm(Some(ComputeSecretsHash(Stored(s.db, s.ops[o].p))))));
    case Locate(o, listing) => LocateStep(s, o, listing);
    case Fetch(o) => FetchStep(s, o);
    case Finish(o, ids) =>
      if s.ops[o].goal.Preview? {
        PreviewStep(s, o);
      } else {
        ConfirmStep(s, o, s.ops[o].goal.token.value, ids);
      }
  }

  lemma StepKeeps(s: State, a: Action)
    requires Inv(s) && Enabled(s, a)
    ensures Inv(Step(s, a))
  {
    if IsWrite(a) {
      WriteStepKeeps(s, a);
    } else if IsPush(a) {
      PushStepKeeps(s, a);
    } else {
      ReadStepKeeps(s, a);
    }
  }

  lemma {:induction false} RunKeeps(s: State, actions: seq<Action>, t: State)
    requires Inv(s) && Runs(s, actions, t)
    ensures Inv(t)
    decreases |actions|
  {
    if actions != [] {
      StepKeeps(s, actions[0]);
      RunKeeps(Step(s, actions[0]), actions[1..], t);
    }
  }
}
