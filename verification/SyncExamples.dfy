/** Runs that show which stronger promises the synchronization protocol does not keep. */
module SyncExamples {
  import opened JsStrings
  import opened Model
  import opened SecretsHash
  import opened SecretsData
  import opened SecretsDataFacts
  import opened Snapshots
  import opened SyncService
  import opened SyncProtocol
  import opened SyncInvariant
  import opened SyncRuns
  import opened SyncTheorems

  /** The one project of these runs; it holds no secret. */
  const P: ProjectId := []

  function NoSecrets(): Digest {
    ComputeSecretsHash([])
  }

  function World(row: Project, repo: seq<Snapshot>, ops: map<OpId, Operation>, log: seq<Commit>): State {
    State(Db(map[P := row], []), map[P := repo], ops, [], log, {})
  }

  function SyncedAt(x: Snapshot): Project {
    Project(Some(x.id), x.time, Some(NoSecrets()), Some(NoSecrets()))
  }

  // ---- A confirmed restore of an empty snapshot ----

  lemma ApplyStarts(row: Project, repo: seq<Snapshot>, ops: map<OpId, Operation>, log: seq<Commit>, o: OpId, x: Snapshot)
    requires o !in ops && x in repo
    ensures var w, goal := World(row, repo, ops, log), Confirm(Some(NoSecrets()));
            var submitted := World(row, repo, ops[o := Queued(P, row, Pinned(x.id), goal)], log);
            && Leads(w, Submit(o, P, Pinned(x.id), goal), submitted)
            && Leads(submitted, Start(o), World(row, repo, ops[o := Started(P, Pinned(x.id), goal)], log))
  {
    var goal := Confirm(Some(NoSecrets()));
    assert ops[o := Queued(P, row, Pinned(x.id), goal)][o := Started(P, Pinned(x.id), goal)] == ops[o := Started(P, Pinned(x.id), goal)];
  }

  lemma ApplyReads(row: Project, repo: seq<Snapshot>, ops: map<OpId, Operation>, log: seq<Commit>, o: OpId, x: Snapshot)
    requires o !in ops && x in repo && x.files == []
    ensures var goal := Confirm(Some(NoSecrets()));
            var started := World(row, repo, ops[o := Started(P, Pinned(x.id), goal)], log);
            var located := World(row, repo, ops[o := Located(P, Pinned(x.id), x, goal)], log);
            && Leads(started, Locate(o, [x]), located)
            && Leads(located, Fetch(o), World(row, repo, ops[o := Fetched(P, Pinned(x.id), x, [], goal)], log))
  {
    var goal := Confirm(Some(NoSecrets()));
    assert ops[o := Started(P, Pinned(x.id), goal)][o := Located(P, Pinned(x.id), x, goal)] == ops[o := Located(P, Pinned(x.id), x, goal)];
    assert ops[o := Located(P, Pinned(x.id), x, goal)][o := Fetched(P, Pinned(x.id), x, [], goal)] == ops[o := Fetched(P, Pinned(x.id), x, [], goal)];
  }

  lemma ReplaceNothing(row: Project, x: Snapshot)
    ensures ApplySection(Db(map[P := row], []), P, NoSecrets(), RowsFor(P, [], []), x.id, x.time)
         == (Db(map[P := SyncedAt(x)], []), None)
  {
    var db := Db(map[P := row], []);
    assert Stored(db, P) == [] && RowsFor(P, [], []) == [] && Bodies([]) == [];
    var none: seq<SecretRow> := [];
    assert WithoutProject(db.secrets, P) == [] && InsertedAll(db, none) == Ok(db);
    assert WithSyncState(db, P, x.id, x.time, NoSecrets(), NoSecrets()).projects == map[P := SyncedAt(x)];
  }

  lemma ApplyCommits(row: Project, repo: seq<Snapshot>, ops: map<OpId, Operation>, log: seq<Commit>, o: OpId, x: Snapshot)
    requires o !in ops && x in repo && x.files == []
    ensures Leads(World(row, repo, ops[o := Fetched(P, Pinned(x.id), x, [], Confirm(Some(NoSecrets())))], log), Finish(o, []),
                  World(SyncedAt(x), repo, ops, log + [Applied(P, x.id, NoSecrets(), [], [])]))
  {
    ReplaceNothing(row, x);
    var fetched := ops[o := Fetched(P, Pinned(x.id), x, [], Confirm(Some(NoSecrets())))];
    assert fetched - {o} == ops;
    assert Stored(Db(map[P := row], []), P) == [] && Stored(Db(map[P := SyncedAt(x)], []), P) == [];
  }

  function ApplyActions(o: OpId, x: Snapshot, rest: seq<Action>): seq<Action> {
    [Submit(o, P, Pinned(x.id), Confirm(Some(NoSecrets())))] + ([Start(o)] + ([Locate(o, [x])] + ([Fetch(o)] + ([Finish(o, [])] + rest))))
  }

  lemma ApplyRuns(row: Project, repo: seq<Snapshot>, ops: map<OpId, Operation>, log: seq<Commit>, o: OpId, x: Snapshot, rest: seq<Action>, u: State)
    requires o !in ops && x in repo && x.files == []
    requires Runs(World(SyncedAt(x), repo, ops, log + [Applied(P, x.id, NoSecrets(), [], [])]), rest, u)
    ensures Runs(World(row, repo, ops, log), ApplyActions(o, x, rest), u)
  {
    var goal := Confirm(Some(NoSecrets()));
    var s0 := World(row, repo, ops, log);
    var s1 := World(row, repo, ops[o := Queued(P, row, Pinned(x.id), goal)], log);
    var s2 := World(row, repo, ops[o := Started(P, Pinned(x.id), goal)], log);
    var s3 := World(row, repo, ops[o := Located(P, Pinned(x.id), x, goal)], log);
    var s4 := World(row, repo, ops[o := Fetched(P, Pinned(x.id), x, [], goal)], log);
    var s5 := World(SyncedAt(x), repo, ops, log + [Applied(P, x.id, NoSecrets(), [], [])]);
    ApplyStarts(row, repo, ops, log, o, x);
    ApplyReads(row, repo, ops, log, o, x);
    ApplyCommits(row, repo, ops, log, o, x);
    FiveSteps(s0, Submit(o, P, Pinned(x.id), goal), s1, Start(o), s2, Locate(o, [x]), s3, Fetch(o), s4, Finish(o, []), s5, rest, u);
  }

  // ---- A push of no secret ----

  lemma PushStarts(row: Project, repo: seq<Snapshot>, ops: map<OpId, Operation>, log: seq<Commit>, o: OpId)
    requires o !in ops
    ensures var queued := World(row, repo, ops[o := PushQueued(P, row)], log);
            var started := World(row, repo, ops[o := PushStarted(P, row.lastSyncSnapshotId)], log);
            && Leads(World(row, repo, ops, log), SubmitPush(o, P), queued)
            && Leads(queued, StartPush(o), started)
  {
    Overwrite(ops, o, PushQueued(P, row), PushStarted(P, row.lastSyncSnapshotId));
  }

  lemma PushReads(row: Project, repo: seq<Snapshot>, ops: map<OpId, Operation>, log: seq<Commit>, o: OpId, observed: Option<SnapshotId>)
    ensures Leads(World(row, repo, ops[o := PushStarted(P, observed)], log), ReadPush(o), World(row, repo, ops[o := PushRead(P, observed, [])], log))
  {
    assert Stored(Db(map[P := row], []), P) == [];
    Overwrite(ops, o, PushStarted(P, observed), PushRead(P, observed, []));
  }

  lemma PushChecks(row: Project, repo: seq<Snapshot>, ops: map<OpId, Operation>, log: seq<Commit>, o: OpId, observed: Option<SnapshotId>, listing: seq<Snapshot>)
    requires Lists(listing, repo) && EnsureNoNewerSnapshot(observed, listing).None?
    ensures Leads(World(row, repo, ops[o := PushRead(P, observed, [])], log), CheckPush(o, listing),
                  World(row, repo, ops[o := PushChecked(P, observed, [], set x | x in listing :: x.id)], log))
  {
    Overwrite(ops, o, PushRead(P, observed, []), PushChecked(P, observed, [], set x | x in listing :: x.id));
  }

  lemma BackUpLeads(row: Project, repo: seq<Snapshot>, ops: map<OpId, Operation>, log: seq<Commit>, o: OpId, observed: Option<SnapshotId>,
                    known: set<SnapshotId>, own: Snapshot)
    requires own.files == [] && forall x | x in repo :: x.id != own.id
    ensures Leads(World(row, repo, ops[o := PushChecked(P, observed, [], known)], log), BackUp(o, own.id, own.time),
                  World(row, repo + [own], ops[o := PushBackedUp(P, observed, [], known, own.id)], log))
  {
    Overwrite(ops, o, PushChecked(P, observed, [], known), PushBackedUp(P, observed, [], known, own.id));
    assert FilesOf([]) == [];
    assert map[P := repo][P := repo + [own]] == map[P := repo + [own]];
  }

  lemma ResolveLeads(row: Project, repo: seq<Snapshot>, ops: map<OpId, Operation>, log: seq<Commit>, o: OpId, observed: Option<SnapshotId>,
                     known: set<SnapshotId>, own: SnapshotId, recorded: Snapshot)
    requires recorded in repo && (recorded.id == own || recorded.id !in known)
    ensures Leads(World(row, repo, ops[o := PushBackedUp(P, observed, [], known, own)], log), Resolve(o, recorded),
                  World(row, repo, ops[o := PushResolved(P, observed, [], own, recorded)], log))
  {
    Overwrite(ops, o, PushBackedUp(P, observed, [], known, own), PushResolved(P, observed, [], own, recorded));
  }

  lemma FinishLeads(row: Project, repo: seq<Snapshot>, ops: map<OpId, Operation>, log: seq<Commit>, o: OpId, own: SnapshotId, recorded: Snapshot)
    requires o in ops && ops[o] == PushResolved(P, row.lastSyncSnapshotId, [], own, recorded)
    ensures Leads(World(row, repo, ops, log), FinishPush(o),
                  World(SyncedAt(recorded), repo, ops - {o}, log + [Pushed(P, recorded.id, row.lastSyncSnapshotId, own, [], [])]))
  {
    var db := Db(map[P := row], []);
    assert Stored(db, P) == [];
    assert db.projects[P := SyncedAt(recorded)] == map[P := SyncedAt(recorded)];
  }

  lemma FinishRuns(row: Project, repo: seq<Snapshot>, ops: map<OpId, Operation>, log: seq<Commit>, o: OpId, own: SnapshotId, recorded: Snapshot,
                   rest: seq<Action>, u: State)
    requires o in ops && ops[o] == PushResolved(P, row.lastSyncSnapshotId, [], own, recorded)
    requires Runs(World(SyncedAt(recorded), repo, ops - {o}, log + [Pushed(P, recorded.id, row.lastSyncSnapshotId, own, [], [])]), rest, u)
    ensures Runs(World(row, repo, ops, log), [FinishPush(o)] + rest, u)
  {
    FinishLeads(row, repo, ops, log, o, own, recorded);
    RunsOn(World(row, repo, ops, log), FinishPush(o),
           World(SyncedAt(recorded), repo, ops - {o}, log + [Pushed(P, recorded.id, row.lastSyncSnapshotId, own, [], [])]), rest, u);
  }

  function PushActions(o: OpId, listing: seq<Snapshot>, own: Snapshot, rest: seq<Action>): seq<Action> {
    [SubmitPush(o, P)] + ([StartPush(o)] + ([ReadPush(o)] + ([CheckPush(o, listing)] + ([BackUp(o, own.id, own.time)] + ([Resolve(o, own)] + rest)))))
  }

  /** A push runs up to its write section, recording its own snapshot. */
  lemma PushRuns(row: Project, repo: seq<Snapshot>, ops: map<OpId, Operation>, log: seq<Commit>, o: OpId, listing: seq<Snapshot>, own: Snapshot,
                 rest: seq<Action>, u: State)
    requires o !in ops && Lists(listing, repo) && EnsureNoNewerSnapshot(row.lastSyncSnapshotId, listing).None?
    requires own.files == [] && forall x | x in repo :: x.id != own.id
    requires Runs(World(row, repo + [own], ops[o := PushResolved(P, row.lastSyncSnapshotId, [], own.id, own)], log), rest, u)
    ensures Runs(World(row, repo, ops, log), PushActions(o, listing, own, rest), u)
  {
    var observed, known := row.lastSyncSnapshotId, set x | x in listing :: x.id;
    var s1 := World(row, repo, ops[o := PushQueued(P, row)], log);
    var s2 := World(row, repo, ops[o := PushStarted(P, observed)], log);
    var s3 := World(row, repo, ops[o := PushRead(P, observed, [])], log);
    var s4 := World(row, repo, ops[o := PushChecked(P, observed, [], known)], log);
    var s5 := World(row, repo + [own], ops[o := PushBackedUp(P, observed, [], known, own.id)], log);
    var s6 := World(row, repo + [own], ops[o := PushResolved(P, observed, [], own.id, own)], log);
    PushStarts(row, repo, ops, log, o);
    PushReads(row, repo, ops, log, o, observed);
    PushChecks(row, repo, ops, log, o, observed, listing);
    BackUpLeads(row, repo, ops, log, o, observed, known, own);
    ResolveLeads(row, repo + [own], ops, log, o, observed, known, own.id, own);
    RunsOn(s5, Resolve(o, own), s6, rest, u);
    FiveSteps(World(row, repo, ops, log), SubmitPush(o, P), s1, StartPush(o), s2, ReadPush(o), s3, CheckPush(o, listing), s4,
              BackUp(o, own.id, own.time), s5, [Resolve(o, own)] + rest, u);
  }

  // ---- Two racing pushes, and no apply of the id they observed ----

  const Y := Snapshot([1], None, [])
  const X := Snapshot([2], None, [])
  const A := Snapshot([3], None, [])
  const B := Snapshot([4], None, [])

  const UNSYNCED := Project(None, None, None, Some(NoSecrets()))

  function PushOf(own: Snapshot, observed: Snapshot): Commit {
    Pushed(P, own.id, Some(observed.id), own.id, [], [])
  }

  function ApplyOf(x: Snapshot): Commit {
    Applied(P, x.id, NoSecrets(), [], [])
  }

  function Ready(own: Snapshot, observed: Snapshot): Operation {
    PushResolved(P, Some(observed.id), [], own.id, own)
  }

  const REPO: seq<Snapshot> := [Y, X, A, B]

  // The commits, in order: Y restored; X, the snapshot of a slow push, restored; A pushed on X; Y restored; the slow push
  // of X recorded; B pushed on X.
  const LOG1: seq<Commit> := [ApplyOf(Y)]
  const LOG2 := LOG1 + [ApplyOf(X)]
  const LOG3 := LOG2 + [PushOf(A, X)]
  const LOG4 := LOG3 + [ApplyOf(Y)]
  const LOG5 := LOG4 + [PushOf(X, Y)]
  const LOG6 := LOG5 + [PushOf(B, X)]

  const RACE_END: State := World(SyncedAt(B), REPO, map[], LOG6)

  const READY_B: map<OpId, Operation> := map[3 := Ready(B, X)]
  const READY_XB: map<OpId, Operation> := READY_B[1 := Ready(X, Y)]
  const READY_AXB: map<OpId, Operation> := READY_XB[2 := Ready(A, X)]

  lemma LastTwoPushes() returns (actions: seq<Action>)
    ensures Runs(World(SyncedAt(Y), REPO, READY_XB, LOG4), actions, RACE_END)
  {
    assert READY_XB - {1} == READY_B && READY_B - {3} == map[];
    FinishRuns(SyncedAt(X), REPO, READY_B, LOG5, 3, B.id, B, [], RACE_END);
    FinishRuns(SyncedAt(Y), REPO, READY_XB, LOG4, 1, X.id, X, [FinishPush(3)] + [], RACE_END);
    actions := [FinishPush(1)] + ([FinishPush(3)] + []);
  }

  lemma FirstPush() returns (actions: seq<Action>)
    ensures Runs(World(SyncedAt(X), REPO, READY_AXB, LOG2), actions, RACE_END)
  {
    actions := LastTwoPushes();
    ApplyRuns(SyncedAt(A), REPO, READY_XB, LOG3, 0, Y, actions, RACE_END);
    actions := ApplyActions(0, Y, actions);
    assert READY_AXB - {2} == READY_XB;
    FinishRuns(SyncedAt(X), REPO, READY_AXB, LOG2, 2, A.id, A, actions, RACE_END);
    actions := [FinishPush(2)] + actions;
  }

  const READY_X: map<OpId, Operation> := map[1 := Ready(X, Y)]

  lemma SingletonLists(x: Snapshot, repo: seq<Snapshot>)
    requires x in repo
    ensures Lists([x], repo) && EnsureNoNewerSnapshot(Some(x.id), [x]).None?
  {
    assert LatestSnapshot([x]) == Some(x);
  }

  lemma FreshId(x: Snapshot, y: Snapshot, i: CodeUnit, j: CodeUnit)
    requires x.id == [i] && y.id == [j] && i != j
    ensures x.id != y.id
  {
    assert x.id[0] != y.id[0];
  }

  lemma PushB() returns (actions: seq<Action>)
    ensures Runs(World(SyncedAt(X), [Y, X, A], READY_X[2 := Ready(A, X)], LOG2), actions, RACE_END)
  {
    actions := FirstPush();
    SingletonLists(X, [Y, X, A]);
    FreshId(Y, B, 1, 4);
    FreshId(X, B, 2, 4);
    FreshId(A, B, 3, 4);
    assert [Y, X, A] + [B] == REPO && READY_X[2 := Ready(A, X)][3 := Ready(B, X)] == READY_AXB;
    PushRuns(SyncedAt(X), [Y, X, A], READY_X[2 := Ready(A, X)], LOG2, 3, [X], B, actions, RACE_END);
    actions := PushActions(3, [X], B, actions);
  }

  lemma PushA() returns (actions: seq<Action>)
    ensures Runs(World(SyncedAt(X), [Y, X], READY_X, LOG2), actions, RACE_END)
  {
    actions := PushB();
    SingletonLists(X, [Y, X]);
    FreshId(Y, A, 1, 3);
    FreshId(X, A, 2, 3);
    assert [Y, X] + [A] == [Y, X, A];
    PushRuns(SyncedAt(X), [Y, X], READY_X, LOG2, 2, [X], A, actions, RACE_END);
    actions := PushActions(2, [X], A, actions);
  }

  lemma SlowPush() returns (actions: seq<Action>)
    ensures Runs(World(SyncedAt(Y), [Y], map[], LOG1), actions, RACE_END)
  {
    actions := PushA();
    ApplyRuns(SyncedAt(Y), [Y, X], READY_X, LOG1, 0, X, actions, RACE_END);
    actions := ApplyActions(0, X, actions);
    SingletonLists(Y, [Y]);
    FreshId(Y, X, 1, 2);
    assert [Y] + [X] == [Y, X] && map[][1 := Ready(X, Y)] == READY_X;
    PushRuns(SyncedAt(Y), [Y], map[], LOG1, 1, [Y], X, actions, RACE_END);
    actions := PushActions(1, [Y], X, actions);
  }

  lemma WorldInit(repo: seq<Snapshot>)
    requires IsRepository(repo)
    ensures Init(World(UNSYNCED, repo, map[], []))
  {
    var s := World(UNSYNCED, repo, map[], []);
    assert Stored(s.db, P) == [];
    assert Schema(s.db) && HashesCurrent(s.db);
  }

  lemma RaceIsReachable()
    ensures Reachable(RACE_END)
  {
    var actions := SlowPush();
    assert [] + [ApplyOf(Y)] == LOG1;
    ApplyRuns(UNSYNCED, [Y], map[], [], 0, Y, actions, RACE_END);
    WorldInit([Y]);
  }

  /**
   * Two pushes that observed the same sync id both commit, and no pull, restore or discard between them set that id back:
   * a third push that finished late did, after a restore of another snapshot.
   */
  lemma RacingPushesWithoutAnApplyOfTheirId() returns (s: State)
    ensures Reachable(s) && |s.log| == 6
    ensures s.log[2].Pushed? && s.log[5].Pushed? && s.log[2].p == s.log[5].p && s.log[2].observed == s.log[5].observed == Some(X.id)
    ensures forall k | 0 <= k < 6 && s.log[k].Pushed? :: s.log[k].snapshotId == s.log[k].own
    ensures forall k | 2 < k < 5 && s.log[k].Applied? :: s.log[k].snapshotId != X.id
  {
    RaceIsReachable();
    FreshId(Y, X, 1, 2);
    s := RACE_END;
    RaceLog(s.log);
  }

  lemma RaceLog(log: seq<Commit>)
    requires log == LOG6
    ensures |log| == 6 && log[0] == ApplyOf(Y) && log[1] == ApplyOf(X) && log[2] == PushOf(A, X)
    ensures log[3] == ApplyOf(Y) && log[4] == PushOf(X, Y) && log[5] == PushOf(B, X)
  {
  }

  // ---- A push that recorded a foreign snapshot ----

  const ADDED: Secret := Secret(['a' as CodeUnit], [])
  const FOREIGN := Snapshot([2], None, FilesOf([ADDED]))
  const OWN := Snapshot([1], None, [])

  lemma ForeignLeads(row: Project, repo: seq<Snapshot>, ops: map<OpId, Operation>, log: seq<Commit>, x: Snapshot)
    requires IsFolder(x.files) && forall y | y in repo :: y.id != x.id
    ensures Leads(World(row, repo, ops, log), Foreign(P, x), World(row, repo + [x], ops, log))
  {
    assert map[P := repo][P := repo + [x]] == map[P := repo + [x]];
  }

  const NONE: map<OpId, Operation> := map[]
  const MISATTRIBUTED: State := World(SyncedAt(FOREIGN), [FOREIGN, OWN], NONE, [Pushed(P, FOREIGN.id, None, OWN.id, [], [])])

  const UNIDENTIFIED := World(UNSYNCED, [FOREIGN, OWN], NONE[0 := PushBackedUp(P, None, [], {}, OWN.id)], [])

  lemma MisattributedEnd() returns (actions: seq<Action>)
    ensures Runs(UNIDENTIFIED, actions, MISATTRIBUTED)
  {
    ResolveLeads(UNSYNCED, [FOREIGN, OWN], NONE, [], 0, None, {}, OWN.id, FOREIGN);
    var resolved := NONE[0 := PushResolved(P, None, [], OWN.id, FOREIGN)];
    assert resolved - {0} == NONE && [] + [Pushed(P, FOREIGN.id, None, OWN.id, [], [])] == MISATTRIBUTED.log;
    FinishRuns(UNSYNCED, [FOREIGN, OWN], resolved, [], 0, OWN.id, FOREIGN, [], MISATTRIBUTED);
    actions := [FinishPush(0)] + [];
    RunsOn(UNIDENTIFIED, Resolve(0, FOREIGN), World(UNSYNCED, [FOREIGN, OWN], resolved, []), actions, MISATTRIBUTED);
    actions := [Resolve(0, FOREIGN)] + actions;
  }

  /** The foreign snapshot appears before the backup, and the resolution sees no other. */
  lemma MisattributedMiddle() returns (actions: seq<Action>)
    ensures Runs(World(UNSYNCED, [], NONE[0 := PushChecked(P, None, [], {})], []), actions, MISATTRIBUTED)
  {
    actions := MisattributedEnd();
    FreshId(FOREIGN, OWN, 2, 1);
    var checked := NONE[0 := PushChecked(P, None, [], {})];
    assert [] + [FOREIGN] == [FOREIGN] && [FOREIGN] + [OWN] == [FOREIGN, OWN];
    BackUpLeads(UNSYNCED, [FOREIGN], NONE, [], 0, None, {}, OWN);
    RunsOn(World(UNSYNCED, [FOREIGN], checked, []), BackUp(0, OWN.id, OWN.time), UNIDENTIFIED, actions, MISATTRIBUTED);
    actions := [BackUp(0, OWN.id, OWN.time)] + actions;
    ForeignLeads(UNSYNCED, [], checked, [], FOREIGN);
    RunsOn(World(UNSYNCED, [], checked, []), Foreign(P, FOREIGN), World(UNSYNCED, [FOREIGN], checked, []), actions, MISATTRIBUTED);
    actions := [Foreign(P, FOREIGN)] + actions;
  }

  lemma MisattributedStart() returns (actions: seq<Action>)
    ensures Runs(World(UNSYNCED, [], NONE, []), actions, MISATTRIBUTED)
  {
    actions := MisattributedMiddle();
    var none: seq<Snapshot> := [];
    PushStarts(UNSYNCED, none, NONE, [], 0);
    PushReads(UNSYNCED, none, NONE, [], 0, None);
    PushChecks(UNSYNCED, none, NONE, [], 0, None, none);
    assert (set x | x in none :: x.id) == {};
    RunsOn(World(UNSYNCED, none, NONE[0 := PushRead(P, None, [])], []), CheckPush(0, none),
           World(UNSYNCED, none, NONE[0 := PushChecked(P, None, [], {})], []), actions, MISATTRIBUTED);
    actions := [CheckPush(0, none)] + actions;
    RunsOn(World(UNSYNCED, none, NONE[0 := PushStarted(P, None)], []), ReadPush(0),
           World(UNSYNCED, none, NONE[0 := PushRead(P, None, [])], []), actions, MISATTRIBUTED);
    actions := [ReadPush(0)] + actions;
    RunsOn(World(UNSYNCED, none, NONE[0 := PushQueued(P, UNSYNCED)], []), StartPush(0),
           World(UNSYNCED, none, NONE[0 := PushStarted(P, None)], []), actions, MISATTRIBUTED);
    actions := [StartPush(0)] + actions;
    RunsOn(World(UNSYNCED, none, NONE, []), SubmitPush(0, P),
           World(UNSYNCED, none, NONE[0 := PushQueued(P, UNSYNCED)], []), actions, MISATTRIBUTED);
    actions := [SubmitPush(0, P)] + actions;
  }

  lemma MisattributedIsReachable()
    ensures Reachable(MISATTRIBUTED)
  {
    var actions := MisattributedStart();
    WorldInit([]);
  }

  lemma AddedSecretDiffers(stored: seq<Secret>)
    requires stored == []
    ensures SnapshotContent(FOREIGN.files) == Ok([ADDED]) && WellFormed([ADDED]) && WellFormed(stored)
    ensures ContentOf(stored) != ContentOf([ADDED])
  {
    ForeignReadsBack();
    ContentHas([ADDED], ADDED);
    assert ADDED.name !in ContentOf(stored);
  }

  /** The resolution picks the foreign snapshot when three exact reads find nothing and the listing shows only that one. */
  lemma MisattributionIsResolved()
    ensures Resolved(Some(OWN.id), {}, [None, None, None], [FOREIGN]) == Ok(FOREIGN)
  {
    FreshId(FOREIGN, OWN, 2, 1);
    assert NewSnapshots([FOREIGN], {}) == [FOREIGN];
  }

  lemma ForeignReadsBack()
    ensures SnapshotContent(FOREIGN.files) == Ok([ADDED])
  {
    PushedFilesReadBack([ADDED]);
  }

  /**
   * While listings lag, the one new snapshot a push finds may be a foreign one. The push then records that snapshot, and
   * the flag reports no local change although the stored content differs from it.
   */
  lemma MisattributedPushHidesADifference(secretCount: nat) returns (s: State)
    ensures Reachable(s) && P in s.db.projects && P in s.repos
    ensures LastCommit(s.log, P) == Some(Pushed(P, FOREIGN.id, None, OWN.id, [], []))
    ensures FOREIGN in s.repos[P] && s.db.projects[P].lastSyncSnapshotId == Some(FOREIGN.id)
    ensures !ComputeHasLocalChanges(s.db.projects[P], secretCount)
    ensures SnapshotContent(FOREIGN.files) == Ok([ADDED]) && WellFormed([ADDED]) && WellFormed(Stored(s.db, P))
    ensures ContentOf(Stored(s.db, P)) != ContentOf([ADDED])
  {
    s := MISATTRIBUTED;
    MisattributedIsReachable();
    AddedSecretDiffers(Stored(s.db, P));
  }
}
