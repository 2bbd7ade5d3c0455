/**
 * The synchronization protocol as a step machine. Any number of replicas run previews, pulls, restores, discards and
 * pushes of any project; every restic call and every database read is a step of its own, every write section is one
 * step, and any other step may come in between. Listings may lag, foreign writers may add snapshots, operations may
 * stop anywhere.
 */
module SyncProtocol {
  import opened JsStrings
  import opened Model
  import opened SecretsHash
  import opened SecretsData
  import opened SecretsDataFacts
  import opened SecretsRoutes
  import opened Difference
  import opened Snapshots
  import opened SyncService
  import opened SyncServiceFacts

  type OpId = nat

  /** What happens once the target is fetched; a confirmation carries the content hash its client sent, if any. */
  datatype Goal = Preview | Confirm(token: Option<Digest>)

  /** An operation in flight with the values it captured so far. */
  datatype Operation =
    | Queued(p: ProjectId, row: Project, target: Target, goal: Goal)
    | Started(p: ProjectId, target: Target, goal: Goal)
    | Located(p: ProjectId, target: Target, snapshot: Snapshot, goal: Goal)
    | Fetched(p: ProjectId, target: Target, snapshot: Snapshot, secrets: seq<Secret>, goal: Goal)
    | PushQueued(p: ProjectId, row: Project)
    | PushStarted(p: ProjectId, observed: Option<SnapshotId>)
    | PushRead(p: ProjectId, observed: Option<SnapshotId>, secrets: seq<Secret>)
    | PushChecked(p: ProjectId, observed: Option<SnapshotId>, secrets: seq<Secret>, known: set<SnapshotId>)
    | PushBackedUp(p: ProjectId, observed: Option<SnapshotId>, secrets: seq<Secret>, known: set<SnapshotId>, own: SnapshotId)
    | PushResolved(p: ProjectId, observed: Option<SnapshotId>, secrets: seq<Secret>, own: SnapshotId, recorded: Snapshot)

  /** A completed preview: what it returned, and the lists it compared. */
  datatype PreviewResult = PreviewResult(
    p: ProjectId, snapshotId: SnapshotId, contentHash: Digest, difference: seq<Entry<SecretChange>>,
    current: seq<Secret>, incoming: seq<Secret>)

  /** A committed synchronization: an applied snapshot with the stored secrets around it, or a recorded push. */
  datatype Commit =
    | Applied(p: ProjectId, snapshotId: SnapshotId, expected: Digest, before: seq<Secret>, after: seq<Secret>)
    | Pushed(p: ProjectId, snapshotId: SnapshotId, observed: Option<SnapshotId>, own: SnapshotId, pushed: seq<Secret>, atCommit: seq<Secret>)

  /** `previews`, `log` and `rows` (every row ever stored) record the history of the run. */
  datatype State = State(
    db: Db,
    repos: map<ProjectId, seq<Snapshot>>,
    ops: map<OpId, Operation>,
    previews: seq<PreviewResult>,
    log: seq<Commit>,
    rows: set<SecretRow>)

  datatype Action =
    | Create(p: ProjectId, id: SecretId, name: JsString, data: Data)
    | Update(p: ProjectId, id: SecretId, newName: Option<JsString>, newData: Option<Data>, version: nat)
    | MergeKey(p: ProjectId, id: SecretId, key: JsString, value: JsString)
    | Remove(p: ProjectId, id: SecretId)
    | RemoveProject(p: ProjectId)
    | Foreign(p: ProjectId, snapshot: Snapshot)
    | Submit(o: OpId, p: ProjectId, target: Target, goal: Goal)
    | Start(o: OpId)
    | CaptureToken(o: OpId)
    | Locate(o: OpId, listing: seq<Snapshot>)
    | Fetch(o: OpId)
    | Finish(o: OpId, ids: seq<SecretId>)
    | SubmitPush(o: OpId, p: ProjectId)
    | StartPush(o: OpId)
    | ReadPush(o: OpId)
    | CheckPush(o: OpId, listing: seq<Snapshot>)
    | BackUp(o: OpId, id: SnapshotId, time: Option<int>)
    | Resolve(o: OpId, recorded: Snapshot)
    | FinishPush(o: OpId)
    | Abandon(o: OpId)

  // ---- Steps ----

  function WithDb(s: State, db: Db): State {
    s.(db := db, rows := s.rows + (set r | r in db.secrets))
  }

  function WithOp(s: State, o: OpId, op: Operation): State {
    s.(ops := s.ops[o := op])
  }

  function WithoutOp(s: State, o: OpId): State {
    s.(ops := s.ops - {o})
  }

  /** `ProjectsDataGet(...) || project`: the row read again, or the one the request carried. */
  function Reread(s: State, p: ProjectId, row: Project): Project {
    if p in s.db.projects then s.db.projects[p] else row
  }

  /** A listing shows snapshots of the repository, possibly not all of them. */
  ghost predicate Lists(listing: seq<Snapshot>, repo: seq<Snapshot>) {
    Snapshots.UniqueIds(listing) && forall x | x in listing :: x in repo
  }

  ghost predicate NewSnapshot(s: State, p: ProjectId, id: SnapshotId) {
    p in s.repos && forall x | x in s.repos[p] :: x.id != id
  }

  /** Identifiers are UUIDs: never used before, by any row of the run. */
  ghost predicate NewIds(s: State, ids: seq<SecretId>) {
    && (forall i, j | 0 <= i < j < |ids| :: ids[i] != ids[j])
    && (forall r | r in s.rows :: r.id !in ids)
  }

  function StartOf(s: State, op: Operation): Option<Operation>
    requires op.Queued?
  {
    var project := Reread(s, op.p, op.row);
    if op.target.LastSynchronized? then
      if project.lastSyncSnapshotId.None? then None
      else Some(Started(op.p, Pinned(project.lastSyncSnapshotId.value), op.goal))
    else Some(Started(op.p, op.target, op.goal))
  }

  /** The difference of two lists the database and the snapshot folder grant to be well formed. */
  ghost function Compared(current: seq<Secret>, incoming: seq<Secret>): seq<Entry<SecretChange>> {
    if WellFormed(current) && WellFormed(incoming) then DiffOf(ContentOf(current), ContentOf(incoming)) else []
  }

  ghost function Previewed(s: State, op: Operation): PreviewResult
    requires op.Fetched?
  {
    var current := Stored(s.db, op.p);
    PreviewResult(op.p, op.snapshot.id, ComputeSecretsHash(current), Compared(current, op.secrets), current, op.secrets)
  }

  /** The write section of a confirmed pull, restore or discard. */
  function Confirmed(s: State, o: OpId, op: Operation, expected: Digest, ids: seq<SecretId>): State
    requires op.Fetched? && |ids| == |op.secrets|
  {
    var (db, error) := ApplySection(s.db, op.p, expected, RowsFor(op.p, op.secrets, ids), op.snapshot.id, op.snapshot.time);
    if error.Some? then WithoutOp(s, o)
    else
      WithoutOp(WithDb(s, db), o).(
        log := s.log + [Applied(op.p, op.snapshot.id, expected, Stored(s.db, op.p), Stored(db, op.p))])
  }

  /** The write section of a push. */
  function Finalized(s: State, o: OpId, op: Operation): State
    requires op.PushResolved?
  {
    var (db, error) := FinalizeSection(s.db, op.p, op.observed, op.recorded.id, op.recorded.time, ComputeSecretsHash(op.secrets));
    if error.Some? then WithoutOp(s, o)
    else
      WithoutOp(WithDb(s, db), o).(
        log := s.log + [Pushed(op.p, op.recorded.id, op.observed, op.own, op.secrets, Stored(s.db, op.p))])
  }

  ghost predicate Enabled(s: State, a: Action) {
    match a
    case Create(p, id, name, data) => UniqueKeys(data) && NewIds(s, [id])
    case Update(p, id, newName, newData, version) => newData.Some? ==> UniqueKeys(newData.value)
    case MergeKey(p, id, key, value) => true
    case Remove(p, id) => true
    case RemoveProject(p) => true
    case Foreign(p, snapshot) => NewSnapshot(s, p, snapshot.id) && IsFolder(snapshot.files)
    case Submit(o, p, target, goal) => o !in s.ops && p in s.db.projects
    case Start(o) => o in s.ops && s.ops[o].Queued?
    case CaptureToken(o) => o in s.ops && s.ops[o].Started? && s.ops[o].goal == Confirm(None)
    case Locate(o, listing) =>
      o in s.ops && s.ops[o].Started? && s.ops[o].goal != Confirm(None) && s.ops[o].p in s.repos && Lists(listing, s.repos[s.ops[o].p])
    case Fetch(o) => o in s.ops && s.ops[o].Located?
    case Finish(o, ids) =>
      o in s.ops && s.ops[o].Fetched? && s.ops[o].goal != Confirm(None) && |ids| == |s.ops[o].secrets| && NewIds(s, ids)
    case SubmitPush(o, p) => o !in s.ops && p in s.db.projects
    case StartPush(o) => o in s.ops && s.ops[o].PushQueued?
    case ReadPush(o) => o in s.ops && s.ops[o].PushStarted?
    case CheckPush(o, listing) => o in s.ops && s.ops[o].PushRead? && s.ops[o].p in s.repos && Lists(listing, s.repos[s.ops[o].p])
    case BackUp(o, id, time) => o in s.ops && s.ops[o].PushChecked? && NewSnapshot(s, s.ops[o].p, id)
    case Resolve(o, recorded) =>
      o in s.ops && s.ops[o].PushBackedUp? && s.ops[o].p in s.repos && recorded in s.repos[s.ops[o].p]
      && (recorded.id == s.ops[o].own || recorded.id !in s.ops[o].known)
    case FinishPush(o) => o in s.ops && s.ops[o].PushResolved?
    case Abandon(o) => o in s.ops
  }

  /** An operation that a step rejects is over: its request got an error answer. */
  ghost function Step(s: State, a: Action): State
    requires Enabled(s, a)
  {
    match a
    case Create(p, id, name, data) => WithDb(s, CreateSection(s.db, p, id, name, data).0)
    case Update(p, id, newName, newData, version) => WithDb(s, UpdateSection(s.db, p, id, newName, newData, version).0)
    case MergeKey(p, id, key, value) => WithDb(s, MergeSection(s.db, p, id, key, value, Quiet(s.db)).0)
    case Remove(p, id) => WithDb(s, DeleteSection(s.db, p, id).0)
    case RemoveProject(p) => WithDb(s, DeleteProjectSection(s.db, p).0)
    case Foreign(p, snapshot) => s.(repos := s.repos[p := s.repos[p] + [snapshot]])
    case Submit(o, p, target, goal) => WithOp(s, o, Queued(p, s.db.projects[p], target, goal))
    case Start(o) =>
      var next := StartOf(s, s.ops[o]);
      if next.None? then WithoutOp(s, o) else WithOp(s, o, next.value)
    case CaptureToken(o) =>
      var op := s.ops[o];
      WithOp(s, o, Started(op.p, op.target, Confirm(Some(ComputeSecretsHash(Stored(s.db, op.p))))))
    case Locate(o, listing) =>
      var op := s.ops[o];
      var target := SelectTarget(op.target, listing);
      if target.Err? then WithoutOp(s, o) else WithOp(s, o, Located(op.p, op.target, target.value, op.goal))
    case Fetch(o) =>
      var op := s.ops[o];
      var content := SnapshotContent(op.snapshot.files);
      if content.Err? then WithoutOp(s, o) else WithOp(s, o, Fetched(op.p, op.target, op.snapshot, content.value, op.goal))
    case Finish(o, ids) =>
      var op := s.ops[o];
      if op.goal.Preview? then WithoutOp(s, o).(previews := s.previews + [Previewed(s, op)])
      else Confirmed(s, o, op, op.goal.token.value, ids)
    case SubmitPush(o, p) => WithOp(s, o, PushQueued(p, s.db.projects[p]))
    case StartPush(o) => WithOp(s, o, PushStarted(s.ops[o].p, Reread(s, s.ops[o].p, s.ops[o].row).lastSyncSnapshotId))
    case ReadPush(o) => WithOp(s, o, PushRead(s.ops[o].p, s.ops[o].observed, Stored(s.db, s.ops[o].p)))
    case CheckPush(o, listing) =>
      var op := s.ops[o];
      if EnsureNoNewerSnapshot(op.observed, listing).Some? then WithoutOp(s, o)
      else WithOp(s, o, PushChecked(op.p, op.observed, op.secrets, set x | x in listing :: x.id))
    case BackUp(o, id, time) =>
      var op := s.ops[o];
      WithOp(s, o, PushBackedUp(op.p, op.observed, op.secrets, op.known, id))
        .(repos := s.repos[op.p := s.repos[op.p] + [Snapshot(id, time, FilesOf(op.secrets))]])
    case Resolve(o, recorded) =>
      var op := s.ops[o];
      WithOp(s, o, PushResolved(op.p, op.observed, op.secrets, op.own, recorded))
    case FinishPush(o) => Finalized(s, o, s.ops[o])
    case Abandon(o) => WithoutOp(s, o)
  }

  /** Projects whose creation completed, none synchronized yet; their repositories may already hold snapshots. */
  ghost predicate Init(s: State) {
    && Consistent(s.db)
    && (forall p | p in s.db.projects :: s.db.projects[p].lastSyncSnapshotId.None? && p in s.repos)
    && (forall p | p in s.repos :: IsRepository(s.repos[p]))
    && s.ops == map[] && s.previews == [] && s.log == []
    && s.rows == (set r | r in s.db.secrets)
  }

  ghost predicate IsRepository(repo: seq<Snapshot>) {
    Snapshots.UniqueIds(repo) && forall x | x in repo :: IsFolder(x.files)
  }

  /** `s` leads to `t` by these actions, one step each. */
  ghost predicate Runs(s: State, actions: seq<Action>, t: State)
    decreases |actions|
  {
    if actions == [] then s == t
    else Enabled(s, actions[0]) && Runs(Step(s, actions[0]), actions[1..], t)
  }
}
