/** When two pushes that observed the same sync id can both be recorded: the exact condition, seen from the first commit. */
module SyncRaces {
  import opened JsStrings
  import opened Model
  import opened SecretsHash
  import opened SecretsData
  import opened SecretsDataFacts
  import opened SecretsRoutes
  import opened Snapshots
  import opened SyncService
  import opened SyncServiceFacts
  import opened SyncProtocol
  import opened SyncInvariant
  import opened SyncTheorems
  import opened SyncRuns

  ghost predicate Readable(repo: seq<Snapshot>, id: SnapshotId) {
    exists y :: y in repo && y.id == id && SnapshotContent(y.files).Ok?
  }

  /** A push of `p` that backed `x` up and, if it commits, records it. */
  ghost predicate WillRecord(op: Operation, p: ProjectId, x: SnapshotId) {
    && op.p == p && (op.PushBackedUp? || (op.PushResolved? && op.recorded.id == x)) && op.own == x
  }

  /** Such a push is in flight, and the sync id it observed can still be restored. */
  ghost predicate CanSetBack(s: State, p: ProjectId, x: SnapshotId, o: OpId) {
    && o in s.ops && WillRecord(s.ops[o], p, x) && s.ops[o].observed.Some?
    && p in s.repos && Readable(s.repos[p], s.ops[o].observed.value)
  }

  /** The last synchronization of `p` was a push that observed `x` and recorded its own snapshot. */
  ghost predicate LastPushedOn(s: State, p: ProjectId, x: SnapshotId) {
    var last := LastCommit(s.log, p);
    last.Some? && last.value.Pushed? && last.value.observed == Some(x) && last.value.snapshotId == last.value.own
  }

  /** Later, commit `j` is another push of `p` that observed `x`; the pushes before it recorded their own snapshots. */
  ghost predicate RacesOn(s: State, t: State, p: ProjectId, x: SnapshotId, j: nat) {
    && |s.log| <= j < |t.log| && t.log[j].Pushed? && t.log[j].p == p && t.log[j].observed == Some(x)
    && forall k | |s.log| <= k < j && t.log[k].Pushed? && t.log[k].p == p :: t.log[k].snapshotId == t.log[k].own
  }

  /** A pull, restore or discard between the two set the id back. */
  ghost predicate AppliedBetween(s: State, t: State, p: ProjectId, x: SnapshotId, j: nat) {
    exists k :: |s.log| <= k < j && k < |t.log| && t.log[k].Applied? && t.log[k].p == p && t.log[k].snapshotId == x
  }

  // ---- What one step adds to the log ----

  ghost predicate AddsCommit(s: State, a: Action, t: State) {
    && |t.log| == |s.log| + 1 && t.log[..|s.log|] == s.log
    && (a.Finish? || a.FinishPush?) && a.o in s.ops
    && t.log[|s.log|].p == s.ops[a.o].p && s.ops[a.o].p in s.db.projects
    && (t.log[|s.log|].Pushed? ==> s.ops[a.o].PushResolved? && t.log[|s.log|] == PushCommit(s, s.ops[a.o]))
  }

  lemma ConfirmAdds(s: State, o: OpId, ids: seq<SecretId>)
    requires Enabled(s, Finish(o, ids)) && s.ops[o].goal.Confirm?
    ensures var t := Step(s, Finish(o, ids)); t.log == s.log || AddsCommit(s, Finish(o, ids), t)
  {
    var op := s.ops[o];
    assert Step(s, Finish(o, ids)) == Confirmed(s, o, op, op.goal.token.value, ids);
  }

  lemma PushAdds(s: State, o: OpId)
    requires Enabled(s, FinishPush(o))
    ensures var t := Step(s, FinishPush(o)); t.log == s.log || AddsCommit(s, FinishPush(o), t)
  {
    assert Step(s, FinishPush(o)) == Finalized(s, o, s.ops[o]);
  }

  lemma OthersAddNothing(s: State, a: Action)
    requires Enabled(s, a) && !a.FinishPush? && (a.Finish? ==> s.ops[a.o].goal.Preview?)
    ensures Step(s, a).log == s.log
  {
  }

  lemma StepAdds(s: State, a: Action)
    requires Enabled(s, a)
    ensures var t := Step(s, a); t.log == s.log || AddsCommit(s, a, t)
  {
    if a.FinishPush? {
      PushAdds(s, a.o);
    } else if a.Finish? && s.ops[a.o].goal.Confirm? {
      ConfirmAdds(s, a.o, a.ids);
    } else {
      OthersAddNothing(s, a);
    }
  }

  lemma {:induction false} RunExtendsLog(s: State, actions: seq<Action>, t: State)
    requires Runs(s, actions, t)
    ensures s.log <= t.log
    decreases |actions|
  {
    if actions != [] {
      StepAdds(s, actions[0]);
      RunExtendsLog(Step(s, actions[0]), actions[1..], t);
    }
  }

  lemma StepKeepsRepos(s: State, a: Action)
    requires Enabled(s, a)
    ensures Grows(s.repos, Step(s, a).repos)
  {
    if !a.Foreign? && !a.BackUp? {
      OthersKeepRepos(s, a);
    }
  }

  lemma OthersKeepRepos(s: State, a: Action)
    requires Enabled(s, a) && !a.Foreign? && !a.BackUp?
    ensures Step(s, a).repos == s.repos
  {
  }

  lemma {:induction false} RunKeepsRepos(s: State, actions: seq<Action>, t: State)
    requires Runs(s, actions, t)
    ensures Grows(s.repos, t.repos)
    decreases |actions|
  {
    if actions != [] {
      StepKeepsRepos(s, actions[0]);
      RunKeepsRepos(Step(s, actions[0]), actions[1..], t);
    }
  }

  /** What one step keeps and adds, without its definition. */
  ghost predicate Moves(s: State, a: Action, t: State) {
    && Grows(s.repos, t.repos) && t.db.projects.Keys <= s.db.projects.Keys
    && (t.log == s.log || AddsCommit(s, a, t))
  }

  lemma StepMoves(s: State, a: Action)
    requires Inv(s) && Enabled(s, a)
    ensures Inv(Step(s, a)) && Moves(s, a, Step(s, a))
  {
    StepKeeps(s, a);
    StepKeepsRepos(s, a);
    StepCreatesNoProject(s, a);
    StepAdds(s, a);
  }

  lemma RunsHead(s: State, actions: seq<Action>, t: State) returns (next: State)
    requires Inv(s) && Runs(s, actions, t) && actions != []
    ensures Leads(s, actions[0], next) && Runs(next, actions[1..], t) && Inv(next) && Moves(s, actions[0], next)
    ensures next.log <= t.log
  {
    next := Step(s, actions[0]);
    StepMoves(s, actions[0]);
    RunExtendsLog(next, actions[1..], t);
  }

  lemma CommittedNowNeedsProject(s: State, a: Action, next: State, k: nat)
    requires Moves(s, a, next) && |s.log| <= k < |next.log|
    ensures next.log[k].p in s.db.projects
  {
  }

  /** A commit after `s` is of a project that still exists in `s`. */
  lemma {:induction false} LaterCommitNeedsProject(s: State, actions: seq<Action>, t: State, k: nat)
    requires Inv(s) && Runs(s, actions, t) && |s.log| <= k < |t.log|
    ensures t.log[k].p in s.db.projects
    decreases |actions|
  {
    var next := RunsHead(s, actions, t);
    if k < |next.log| {
      assert t.log[k] == next.log[k];
      CommittedNowNeedsProject(s, actions[0], next, k);
    } else {
      LaterCommitNeedsProject(next, actions[1..], t, k);
    }
  }

  // ---- Where the push that records x comes from ----

  /** The push in flight, with what it observed. */
  ghost predicate Records(ops: map<OpId, Operation>, o: OpId, p: ProjectId, x: SnapshotId, observed: Option<SnapshotId>) {
    o in ops && WillRecord(ops[o], p, x) && ops[o].observed == observed
  }

  lemma BackUpIsNew(s: State, o: OpId, id: SnapshotId, time: Option<int>, q: OpId, p: ProjectId, x: SnapshotId, observed: Option<SnapshotId>)
    requires Enabled(s, BackUp(o, id, time)) && p in s.repos && InRepo(s.repos[p], x)
    requires Records(Step(s, BackUp(o, id, time)).ops, q, p, x, observed)
    ensures Records(s.ops, q, p, x, observed)
  {
  }

  lemma ResolveOrigin(s: State, o: OpId, recorded: Snapshot, q: OpId, p: ProjectId, x: SnapshotId, observed: Option<SnapshotId>)
    requires Enabled(s, Resolve(o, recorded)) && Records(Step(s, Resolve(o, recorded)).ops, q, p, x, observed)
    ensures Records(s.ops, q, p, x, observed)
  {
  }

  lemma OtherOrigin(s: State, a: Action, q: OpId, p: ProjectId, x: SnapshotId, observed: Option<SnapshotId>)
    requires Enabled(s, a) && !a.BackUp? && !a.Resolve? && Records(Step(s, a).ops, q, p, x, observed)
    ensures Records(s.ops, q, p, x, observed)
  {
  }

  lemma StepOrigin(s: State, a: Action, q: OpId, p: ProjectId, x: SnapshotId, observed: Option<SnapshotId>)
    requires Enabled(s, a) && p in s.repos && InRepo(s.repos[p], x) && Records(Step(s, a).ops, q, p, x, observed)
    ensures Records(s.ops, q, p, x, observed)
  {
    if a.BackUp? {
      BackUpIsNew(s, a.o, a.id, a.time, q, p, x, observed);
    } else if a.Resolve? {
      ResolveOrigin(s, a.o, a.recorded, q, p, x, observed);
    } else {
      OtherOrigin(s, a, q, p, x, observed);
    }
  }

  lemma InRepoGrows(before: map<ProjectId, seq<Snapshot>>, after: map<ProjectId, seq<Snapshot>>, p: ProjectId, x: SnapshotId)
    requires Grows(before, after) && p in before && InRepo(before[p], x)
    ensures p in after && InRepo(after[p], x)
  {
    var y :| y in before[p] && y.id == x;
    assert y in after[p];
  }

  lemma CommittedNow(s: State, a: Action, next: State, p: ProjectId, x: SnapshotId, k: nat) returns (o: OpId)
    requires Moves(s, a, next) && |s.log| <= k < |next.log|
    requires next.log[k].Pushed? && next.log[k].p == p && next.log[k].own == x && next.log[k].snapshotId == x
    ensures Records(s.ops, o, p, x, next.log[k].observed)
  {
    o := a.o;
  }

  /** A push committed after `s` whose own snapshot `s` already lists was in flight in `s`. */
  lemma {:induction false} PushWasInFlight(s: State, actions: seq<Action>, t: State, p: ProjectId, x: SnapshotId, k: nat) returns (o: OpId)
    requires Inv(s) && Runs(s, actions, t) && p in s.repos && InRepo(s.repos[p], x)
    requires |s.log| <= k < |t.log| && t.log[k].Pushed? && t.log[k].p == p && t.log[k].own == x && t.log[k].snapshotId == x
    ensures Records(s.ops, o, p, x, t.log[k].observed)
    decreases |actions|
  {
    var next := RunsHead(s, actions, t);
    if k < |next.log| {
      assert t.log[k] == next.log[k];
      o := CommittedNow(s, actions[0], next, p, x, k);
    } else {
      InRepoGrows(s.repos, next.repos, p, x);
      o := PushWasInFlight(next, actions[1..], t, p, x, k);
      StepOrigin(s, actions[0], o, p, x, t.log[k].observed);
    }
  }

  // ---- Only such a push can set the id back ----

  /** The sync id a commit left is readable when the commit applied it, or recorded its own snapshot. */
  lemma RecordedIsReadable(t: State, m: nat)
    requires Inv(t) && m < |t.log| && (t.log[m].Applied? || t.log[m].snapshotId == t.log[m].own)
    ensures t.log[m].p in t.repos && Readable(t.repos[t.log[m].p], t.log[m].snapshotId)
  {
    assert CommitOk(t.repos, t.log[..m], t.log[m]);
  }

  /** A snapshot listed earlier was readable then, if it is readable later. */
  lemma WasReadable(before: seq<Snapshot>, after: seq<Snapshot>, id: SnapshotId)
    requires before <= after && Snapshots.UniqueIds(after) && InRepo(before, id) && Readable(after, id)
    ensures Readable(before, id)
  {
    var x :| x in before && x.id == id;
    var y :| y in after && y.id == id && SnapshotContent(y.files).Ok?;
    assert x in after;
    SameSnapshotId(after, x, y);
  }

  /** What a push committed after `s` observed was left by a commit not before the last one of `s`. */
  lemma ObservedIsReadable(t: State, p: ProjectId, i: nat, k: nat)
    requires Inv(t) && i < k < |t.log| && t.log[i].p == p == t.log[k].p && t.log[k].Pushed?
    requires forall m | i <= m < k && t.log[m].Pushed? && t.log[m].p == p :: t.log[m].snapshotId == t.log[m].own
    ensures t.log[k].observed.Some? && p in t.repos && Readable(t.repos[p], t.log[k].observed.value)
  {
    PushMovedOn(t, k);
    var m := LastCommitAt(t.log[..k], p, i);
    assert t.log[..k][m] == t.log[m];
    RecordedIsReadable(t, m);
  }

  lemma ObservedWasListed(s: State, i: nat)
    requires Inv(s) && i < |s.log| && s.log[i].Pushed? && s.log[i].observed.Some?
    ensures s.log[i].p in s.repos && InRepo(s.repos[s.log[i].p], s.log[i].observed.value)
  {
    assert CommitOk(s.repos, s.log[..i], s.log[i]);
  }

  lemma LatePushCanSetBack(s: State, t: State, p: ProjectId, x: SnapshotId, o: OpId)
    requires Inv(s) && Inv(t) && Grows(s.repos, t.repos) && o in s.ops && WillRecord(s.ops[o], p, x) && s.ops[o].observed.Some?
    requires p in t.repos && Readable(t.repos[p], s.ops[o].observed.value)
    ensures CanSetBack(s, p, x, o)
  {
    assert OpOk(s.repos, s.ops[o]);
    WasReadable(s.repos[p], t.repos[p], s.ops[o].observed.value);
  }

  /** A push that recorded `x` after `s` was in flight in `s`, and could set the id back. */
  lemma LatePushWasInFlight(s: State, actions: seq<Action>, t: State, p: ProjectId, x: SnapshotId, i: nat, k: nat)
    requires Inv(s) && Inv(t) && Runs(s, actions, t) && p in s.repos && InRepo(s.repos[p], x)
    requires i < |s.log| <= k < |t.log| && t.log[i].p == p
    requires t.log[k].Pushed? && t.log[k].p == p && t.log[k].own == x && t.log[k].snapshotId == x
    requires forall m | i <= m < k && t.log[m].Pushed? && t.log[m].p == p :: t.log[m].snapshotId == t.log[m].own
    ensures exists o :: CanSetBack(s, p, x, o)
  {
    var o := PushWasInFlight(s, actions, t, p, x, k);
    ObservedIsReadable(t, p, i, k);
    RunKeepsRepos(s, actions, t);
    LatePushCanSetBack(s, t, p, x, o);
  }

  /** Between the last commit of `s` and the racing one, only pushes that recorded their own snapshots. */
  lemma OwnPushesBetween(s: State, t: State, p: ProjectId, x: SnapshotId, i: nat, j: nat, k: nat)
    requires s.log <= t.log && i < |s.log| && s.log[i].Pushed? && s.log[i].snapshotId == s.log[i].own
    requires (forall m | i < m < |s.log| :: s.log[m].p != p) && RacesOn(s, t, p, x, j) && k <= j
    ensures forall m | i <= m < k && t.log[m].Pushed? && t.log[m].p == p :: t.log[m].snapshotId == t.log[m].own
  {
    assert forall m | 0 <= m < |s.log| :: t.log[m] == s.log[m];
  }

  lemma SetBackAfter(s: State, t: State, p: ProjectId, x: SnapshotId, i: nat, j: nat) returns (k: nat)
    requires Inv(t) && s.log <= t.log
    requires i < |s.log| && s.log[i].Pushed? && s.log[i].p == p && s.log[i].observed == Some(x) && s.log[i].snapshotId == s.log[i].own
    requires (forall m | i < m < |s.log| :: s.log[m].p != p) && RacesOn(s, t, p, x, j)
    ensures |s.log| <= k < j && t.log[k].p == p && t.log[k].snapshotId == x
  {
    assert t.log[i] == s.log[i];
    PushMovedOn(t, i);
    PushMovedOn(t, j);
    k := SetBackInLog(t.log, i, j);
    NotBefore(s.log, t.log, p, i, k);
  }

  lemma NotBefore(before: seq<Commit>, after: seq<Commit>, p: ProjectId, i: nat, k: nat)
    requires before <= after && i < k < |after| && after[k].p == p && forall m | i < m < |before| :: before[m].p != p
    ensures k >= |before|
  {
    assert forall m | i < m < |before| :: after[m] == before[m];
  }

  /** The commit that last set the id back is a pull, restore or discard of it, or a push that was in flight in `s`. */
  lemma SetBackByApplyOrLatePush(s: State, actions: seq<Action>, t: State, p: ProjectId, x: SnapshotId, i: nat, j: nat)
    requires Inv(s) && Inv(t) && Runs(s, actions, t) && s.log <= t.log
    requires i < |s.log| && s.log[i].Pushed? && s.log[i].p == p && s.log[i].observed == Some(x) && s.log[i].snapshotId == s.log[i].own
    requires (forall m | i < m < |s.log| :: s.log[m].p != p) && RacesOn(s, t, p, x, j)
    ensures AppliedBetween(s, t, p, x, j) || exists o :: CanSetBack(s, p, x, o)
  {
    var k := SetBackAfter(s, t, p, x, i, j);
    if t.log[k].Pushed? {
      ObservedWasListed(s, i);
      OwnPushesBetween(s, t, p, x, i, j, k);
      assert t.log[i] == s.log[i];
      LatePushWasInFlight(s, actions, t, p, x, i, k);
    }
  }

  /** Unless such a push is in flight at the first commit, only a pull, restore or discard of the id lets the second one commit. */
  lemma RacingPushesNeedTheirIdApplied(s: State, actions: seq<Action>, t: State, p: ProjectId, x: SnapshotId, j: nat)
    requires Reachable(s) && LastPushedOn(s, p, x) && Runs(s, actions, t) && RacesOn(s, t, p, x, j)
    requires p !in s.db.projects || forall o :: !CanSetBack(s, p, x, o)
    ensures AppliedBetween(s, t, p, x, j)
  {
    ReachableHolds(s);
    RunKeeps(s, actions, t);
    RunExtendsLog(s, actions, t);
    LaterCommitNeedsProject(s, actions, t, j);
    var i0 :| 0 <= i0 < |s.log| && s.log[i0] == LastCommit(s.log, p).value;
    var i := LastCommitAt(s.log, p, i0);
    SetBackByApplyOrLatePush(s, actions, t, p, x, i, j);
  }

  // ---- Fresh identifiers ----

  lemma {:induction false} NatAbove(s: set<nat>) returns (n: nat)
    ensures forall m | m in s :: m < n
    decreases |s|
  {
    if s == {} {
      n := 0;
    } else {
      var m :| m in s;
      n := NatAbove(s - {m});
      assert forall k | k in s :: k == m || k in s - {m};
      n := if m < n then n else m + 1;
    }
  }

  /** Operation ids, row ids and snapshot ids never run out. */
  lemma UnusedOp(ops: map<OpId, Operation>) returns (o: OpId)
    ensures o !in ops
  {
    o := NatAbove(ops.Keys);
  }

  function LongId(n: nat): (id: JsString)
    ensures |id| == n
  {
    seq(n, _ => 0)
  }

  function LongIds(n: nat, count: nat): (ids: seq<JsString>)
    ensures |ids| == count && forall i | 0 <= i < count :: |ids[i]| == n + i
  {
    if count == 0 then [] else LongIds(n, count - 1) + [LongId(n + count - 1)]
  }

  lemma UnusedRowIds(s: State, count: nat) returns (ids: seq<SecretId>)
    ensures |ids| == count && NewIds(s, ids)
  {
    var lengths := set r | r in s.rows :: |r.id|;
    var n := NatAbove(lengths);
    ids := LongIds(n, count);
    forall r | r in s.rows ensures r.id !in ids {
      assert |r.id| in lengths;
    }
  }

  lemma UnusedSnapshotId(s: State, p: ProjectId) returns (id: SnapshotId)
    requires p in s.repos
    ensures NewSnapshot(s, p, id)
  {
    var lengths := set x | x in s.repos[p] :: |x.id|;
    var n := NatAbove(lengths);
    id := LongId(n);
    forall x | x in s.repos[p] ensures x.id != id {
      assert |x.id| in lengths;
    }
  }

  // ---- A restore of a readable snapshot ----

  lemma RestoreStarts(s: State, p: ProjectId, y: Snapshot, goal: Goal, o: OpId)
    requires o !in s.ops && p in s.db.projects
    ensures Leads(s, Submit(o, p, Pinned(y.id), goal), WithOp(s, o, Queued(p, s.db.projects[p], Pinned(y.id), goal)))
    ensures Leads(WithOp(s, o, Queued(p, s.db.projects[p], Pinned(y.id), goal)), Start(o), WithOp(s, o, Started(p, Pinned(y.id), goal)))
  {
    Overwrite(s.ops, o, Queued(p, s.db.projects[p], Pinned(y.id), goal), Started(p, Pinned(y.id), goal));
  }

  lemma RestoreReads(s: State, p: ProjectId, y: Snapshot, h: Digest, o: OpId, secrets: seq<Secret>)
    requires p in s.repos && y in s.repos[p] && SnapshotContent(y.files) == Ok(secrets)
    ensures var goal := Confirm(Some(h));
            && Leads(WithOp(s, o, Started(p, Pinned(y.id), goal)), Locate(o, [y]), WithOp(s, o, Located(p, Pinned(y.id), y, goal)))
            && Leads(WithOp(s, o, Located(p, Pinned(y.id), y, goal)), Fetch(o), WithOp(s, o, Fetched(p, Pinned(y.id), y, secrets, goal)))
  {
    var goal := Confirm(Some(h));
    Overwrite(s.ops, o, Started(p, Pinned(y.id), goal), Located(p, Pinned(y.id), y, goal));
    Overwrite(s.ops, o, Located(p, Pinned(y.id), y, goal), Fetched(p, Pinned(y.id), y, secrets, goal));
  }

  /** The state after a commit that left `id` recorded. */
  ghost predicate Committed(s: State, t: State, ops: map<OpId, Operation>, c: Commit) {
    && t.log == s.log + [c] && t.repos == s.repos && t.ops == ops
    && c.p in t.db.projects && t.db.projects[c.p].lastSyncSnapshotId == Some(c.snapshotId)
  }

  lemma RestoredDb(db: Db, p: ProjectId, y: Snapshot, secrets: seq<Secret>, ids: seq<SecretId>) returns (after: Db)
    requires Consistent(db) && p in db.projects && ValidSecrets(secrets) && |ids| == |secrets| && UnusedIds(db, ids)
    ensures ApplySection(db, p, ComputeSecretsHash(Stored(db, p)), RowsFor(p, secrets, ids), y.id, y.time) == (after, None)
    ensures p in after.projects && after.projects[p].lastSyncSnapshotId == Some(y.id)
  {
    ApplyReplacesContent(db, p, ComputeSecretsHash(Stored(db, p)), secrets, ids, y.id, y.time);
    after := ApplySection(db, p, ComputeSecretsHash(Stored(db, p)), RowsFor(p, secrets, ids), y.id, y.time).0;
  }

  lemma ConfirmedIs(s: State, o: OpId, op: Operation, h: Digest, ids: seq<SecretId>, after: Db)
    requires op.Fetched? && |ids| == |op.secrets|
    requires ApplySection(s.db, op.p, h, RowsFor(op.p, op.secrets, ids), op.snapshot.id, op.snapshot.time) == (after, None)
    ensures var c := Applied(op.p, op.snapshot.id, h, Stored(s.db, op.p), Stored(after, op.p));
            Confirmed(s, o, op, h, ids) == WithoutOp(WithDb(s, after), o).(log := s.log + [c])
  {
  }

  lemma ConfirmLeadsTo(s: State, o: OpId, ids: seq<SecretId>, t: State)
    requires Enabled(s, Finish(o, ids)) && s.ops[o].goal.Confirm? && Confirmed(s, o, s.ops[o], s.ops[o].goal.token.value, ids) == t
    ensures Leads(s, Finish(o, ids), t)
  {
  }

  lemma ConfirmedCommits(s: State, o: OpId, op: Operation, h: Digest, ids: seq<SecretId>, after: Db) returns (t: State, c: Commit)
    requires op.Fetched? && op.goal == Confirm(Some(h)) && o !in s.ops && |ids| == |op.secrets| && NewIds(s, ids)
    requires ApplySection(s.db, op.p, h, RowsFor(op.p, op.secrets, ids), op.snapshot.id, op.snapshot.time) == (after, None)
    requires op.p in after.projects && after.projects[op.p].lastSyncSnapshotId == Some(op.snapshot.id)
    ensures Leads(WithOp(s, o, op), Finish(o, ids), t)
    ensures c.Applied? && c.p == op.p && c.snapshotId == op.snapshot.id && Committed(s, t, s.ops, c)
  {
    var fetched := WithOp(s, o, op);
    c := Applied(op.p, op.snapshot.id, h, Stored(s.db, op.p), Stored(after, op.p));
    t := Confirmed(fetched, o, op, h, ids);
    ConfirmedIs(fetched, o, op, h, ids, after);
    ConfirmLeadsTo(fetched, o, ids, t);
    CommittedIs(fetched, o, c, after, t);
    PutAndRemoved(s, t, o, op, c);
  }

  lemma PutAndRemoved(s: State, t: State, o: OpId, op: Operation, c: Commit)
    requires o !in s.ops && Committed(WithOp(s, o, op), t, WithOp(s, o, op).ops - {o}, c)
    ensures Committed(s, t, s.ops, c)
  {
    assert s.ops[o := op] - {o} == s.ops;
  }

  lemma RestoreCommits(s: State, p: ProjectId, y: Snapshot, o: OpId, secrets: seq<Secret>, ids: seq<SecretId>) returns (t: State, c: Commit)
    requires Consistent(s.db) && RowsOk(s.db, s.rows) && p in s.db.projects && o !in s.ops
    requires ValidSecrets(secrets) && |ids| == |secrets| && NewIds(s, ids)
    ensures var goal := Confirm(Some(ComputeSecretsHash(Stored(s.db, p))));
            Leads(WithOp(s, o, Fetched(p, Pinned(y.id), y, secrets, goal)), Finish(o, ids), t)
    ensures c.Applied? && c.p == p && c.snapshotId == y.id && Committed(s, t, s.ops, c)
  {
    var h := ComputeSecretsHash(Stored(s.db, p));
    var after := RestoredDb(s.db, p, y, secrets, ids);
    t, c := ConfirmedCommits(s, o, Fetched(p, Pinned(y.id), y, secrets, Confirm(Some(h))), h, ids, after);
  }

  /** The five steps of a restore of `y`, from its request to its commit. */
  ghost predicate Restores(s: State, t: State, p: ProjectId, y: Snapshot, goal: Goal, o: OpId, secrets: seq<Secret>, ids: seq<SecretId>) {
    var queued := WithOp(s, o, Queued(p, if p in s.db.projects then s.db.projects[p] else Project(None, None, None, None), Pinned(y.id), goal));
    var started, located := WithOp(s, o, Started(p, Pinned(y.id), goal)), WithOp(s, o, Located(p, Pinned(y.id), y, goal));
    var fetched := WithOp(s, o, Fetched(p, Pinned(y.id), y, secrets, goal));
    && Leads(s, Submit(o, p, Pinned(y.id), goal), queued) && Leads(queued, Start(o), started)
    && Leads(started, Locate(o, [y]), located) && Leads(located, Fetch(o), fetched) && Leads(fetched, Finish(o, ids), t)
  }

  lemma RestoreRuns(s: State, p: ProjectId, y: Snapshot) returns (t: State, c: Commit, goal: Goal, o: OpId, secrets: seq<Secret>, ids: seq<SecretId>)
    requires Inv(s) && p in s.db.projects && p in s.repos && y in s.repos[p] && SnapshotContent(y.files).Ok?
    ensures c.Applied? && c.p == p && c.snapshotId == y.id && Committed(s, t, s.ops, c)
    ensures Restores(s, t, p, y, goal, o, secrets, ids)
  {
    secrets := SnapshotContent(y.files).value;
    ReadSecretsAreValid(y.files);
    o := UnusedOp(s.ops);
    ids := UnusedRowIds(s, |secrets|);
    var h := ComputeSecretsHash(Stored(s.db, p));
    goal := Confirm(Some(h));
    RestoreStarts(s, p, y, goal, o);
    RestoreReads(s, p, y, h, o, secrets);
    t, c := RestoreCommits(s, p, y, o, secrets, ids);
  }

  lemma RestoreThen(s: State, t: State, p: ProjectId, y: Snapshot, goal: Goal, o: OpId, secrets: seq<Secret>, ids: seq<SecretId>, rest: seq<Action>, u: State)
    returns (actions: seq<Action>)
    requires Restores(s, t, p, y, goal, o, secrets, ids) && Runs(t, rest, u)
    ensures Runs(s, actions, u)
  {
    var queued := WithOp(s, o, Queued(p, if p in s.db.projects then s.db.projects[p] else Project(None, None, None, None), Pinned(y.id), goal));
    var started, located := WithOp(s, o, Started(p, Pinned(y.id), goal)), WithOp(s, o, Located(p, Pinned(y.id), y, goal));
    var fetched := WithOp(s, o, Fetched(p, Pinned(y.id), y, secrets, goal));
    actions := FiveThen(s, Submit(o, p, Pinned(y.id), goal), queued, Start(o), started, Locate(o, [y]), located, Fetch(o), fetched, Finish(o, ids), t, rest, u);
  }

  lemma FiveThen(s0: State, a: Action, s1: State, b: Action, s2: State, c: Action, s3: State, d: Action, s4: State, e: Action, s5: State,
                 rest: seq<Action>, u: State) returns (actions: seq<Action>)
    requires Leads(s0, a, s1) && Leads(s1, b, s2) && Leads(s2, c, s3) && Leads(s3, d, s4) && Leads(s4, e, s5) && Runs(s5, rest, u)
    ensures Runs(s0, actions, u)
  {
    FiveSteps(s0, a, s1, b, s2, c, s3, d, s4, e, s5, rest, u);
    actions := [a] + ([b] + ([c] + ([d] + ([e] + rest))));
  }

  // ---- Pushes ----

  lemma FinalizedDb(db: Db, p: ProjectId, observed: Option<SnapshotId>, id: SnapshotId, time: Option<int>, hash: Digest) returns (after: Db)
    requires p in db.projects && db.projects[p].lastSyncSnapshotId == observed
    ensures FinalizeSection(db, p, observed, id, time, hash) == (after, None)
    ensures p in after.projects && after.projects[p].lastSyncSnapshotId == Some(id)
  {
    after := FinalizeSection(db, p, observed, id, time, hash).0;
  }

  lemma FinalizedIs(s: State, o: OpId, op: Operation, after: Db)
    requires op.PushResolved?
    requires FinalizeSection(s.db, op.p, op.observed, op.recorded.id, op.recorded.time, ComputeSecretsHash(op.secrets)) == (after, None)
    ensures Finalized(s, o, op) == WithoutOp(WithDb(s, after), o).(log := s.log + [PushCommit(s, op)])
  {
  }

  lemma FinishLeadsTo(s: State, o: OpId, t: State)
    requires Enabled(s, FinishPush(o)) && Finalized(s, o, s.ops[o]) == t
    ensures Leads(s, FinishPush(o), t)
  {
  }

  lemma CommittedIs(s: State, o: OpId, c: Commit, after: Db, t: State)
    requires t == WithoutOp(WithDb(s, after), o).(log := s.log + [c])
    requires c.p in after.projects && after.projects[c.p].lastSyncSnapshotId == Some(c.snapshotId)
    ensures Committed(s, t, s.ops - {o}, c)
  {
  }

  /** A resolved push commits on the sync id it observed. */
  lemma ResolvedPushCommits(s: State, p: ProjectId, o: OpId) returns (t: State)
    requires o in s.ops && s.ops[o].PushResolved? && s.ops[o].p == p
    requires p in s.db.projects && s.db.projects[p].lastSyncSnapshotId == s.ops[o].observed
    ensures Leads(s, FinishPush(o), t) && Committed(s, t, s.ops - {o}, PushCommit(s, s.ops[o]))
  {
    var op := s.ops[o];
    var after := FinalizedDb(s.db, p, op.observed, op.recorded.id, op.recorded.time, ComputeSecretsHash(op.secrets));
    FinalizedIs(s, o, op, after);
    t := Finalized(s, o, op);
    FinishLeadsTo(s, o, t);
    CommittedIs(s, o, PushCommit(s, op), after, t);
  }

  lemma PushBegins(s: State, p: ProjectId, o: OpId)
    requires o !in s.ops && p in s.db.projects
    ensures var observed := s.db.projects[p].lastSyncSnapshotId;
            && Leads(s, SubmitPush(o, p), WithOp(s, o, PushQueued(p, s.db.projects[p])))
            && Leads(WithOp(s, o, PushQueued(p, s.db.projects[p])), StartPush(o), WithOp(s, o, PushStarted(p, observed)))
  {
    Overwrite(s.ops, o, PushQueued(p, s.db.projects[p]), PushStarted(p, s.db.projects[p].lastSyncSnapshotId));
  }

  lemma PushLooks(s: State, p: ProjectId, o: OpId, x: Snapshot)
    requires p in s.repos && x in s.repos[p]
    ensures var observed, secrets := Some(x.id), Stored(s.db, p);
            && Leads(WithOp(s, o, PushStarted(p, observed)), ReadPush(o), WithOp(s, o, PushRead(p, observed, secrets)))
            && Leads(WithOp(s, o, PushRead(p, observed, secrets)), CheckPush(o, [x]),
                     WithOp(s, o, PushChecked(p, observed, secrets, set y | y in [x] :: y.id)))
  {
    var observed, secrets := Some(x.id), Stored(s.db, p);
    assert LatestSnapshot([x]) == Some(x);
    Overwrite(s.ops, o, PushStarted(p, observed), PushRead(p, observed, secrets));
    Overwrite(s.ops, o, PushRead(p, observed, secrets), PushChecked(p, observed, secrets, set y | y in [x] :: y.id));
  }

  function Backed(s: State, p: ProjectId, own: Snapshot): State
    requires p in s.repos
  {
    s.(repos := s.repos[p := s.repos[p] + [own]])
  }

  lemma PushStores(s: State, p: ProjectId, o: OpId, observed: Option<SnapshotId>, secrets: seq<Secret>, known: set<SnapshotId>, id: SnapshotId)
    requires NewSnapshot(s, p, id)
    ensures var own := Snapshot(id, None, FilesOf(secrets));
            && Leads(WithOp(s, o, PushChecked(p, observed, secrets, known)), BackUp(o, id, None),
                     WithOp(Backed(s, p, own), o, PushBackedUp(p, observed, secrets, known, id)))
            && Leads(WithOp(Backed(s, p, own), o, PushBackedUp(p, observed, secrets, known, id)), Resolve(o, own),
                     WithOp(Backed(s, p, own), o, PushResolved(p, observed, secrets, id, own)))
  {
    var own := Snapshot(id, None, FilesOf(secrets));
    Overwrite(s.ops, o, PushChecked(p, observed, secrets, known), PushBackedUp(p, observed, secrets, known, id));
    Overwrite(s.ops, o, PushBackedUp(p, observed, secrets, known, id), PushResolved(p, observed, secrets, id, own));
  }

  /** A push started now, on the recorded snapshot `x`, runs to its commit. */
  lemma PushRunsOn(s: State, p: ProjectId, x: Snapshot) returns (t: State, c: Commit, actions: seq<Action>)
    requires p in s.db.projects && s.db.projects[p].lastSyncSnapshotId == Some(x.id) && p in s.repos && x in s.repos[p]
    ensures Runs(s, actions, t) && t.log == s.log + [c]
    ensures c.Pushed? && c.p == p && c.observed == Some(x.id) && c.snapshotId == c.own
  {
    var o := UnusedOp(s.ops);
    var id := UnusedSnapshotId(s, p);
    var secrets, known := Stored(s.db, p), set y | y in [x] :: y.id;
    var own := Snapshot(id, None, FilesOf(secrets));
    var op := PushResolved(p, Some(x.id), secrets, id, own);
    var backed, resolved := WithOp(Backed(s, p, own), o, PushBackedUp(p, Some(x.id), secrets, known, id)), WithOp(Backed(s, p, own), o, op);
    PushBegins(s, p, o);
    PushLooks(s, p, o, x);
    PushStores(s, p, o, Some(x.id), secrets, known, id);
    t := ResolvedPushCommits(resolved, p, o);
    c := PushCommit(resolved, op);
    RunsOn(resolved, FinishPush(o), t, [], t);
    RunsOn(backed, Resolve(o, own), resolved, [FinishPush(o)] + [], t);
    actions := [Resolve(o, own)] + ([FinishPush(o)] + []);
    FiveSteps(s, SubmitPush(o, p), WithOp(s, o, PushQueued(p, s.db.projects[p])), StartPush(o), WithOp(s, o, PushStarted(p, Some(x.id))),
              ReadPush(o), WithOp(s, o, PushRead(p, Some(x.id), secrets)), CheckPush(o, [x]), WithOp(s, o, PushChecked(p, Some(x.id), secrets, known)),
              BackUp(o, id, None), backed, actions, t);
    actions := [SubmitPush(o, p)] + ([StartPush(o)] + ([ReadPush(o)] + ([CheckPush(o, [x])] + ([BackUp(o, id, None)] + actions))));
  }

  /** The push that will record `x` is resolved, if it is not yet. */
  lemma LatePushResolves(s: State, p: ProjectId, x: SnapshotId, o: OpId) returns (t: State, recorded: Snapshot)
    requires Inv(s) && CanSetBack(s, p, x, o)
    ensures (t == s || Leads(s, Resolve(o, recorded), t)) && t.log == s.log && t.db == s.db && t.repos == s.repos && Inv(t)
    ensures o in t.ops && t.ops[o].PushResolved? && WillRecord(t.ops[o], p, x) && t.ops[o].observed == s.ops[o].observed
    ensures t.ops[o].recorded in t.repos[p]
  {
    var op := s.ops[o];
    assert OpOk(s.repos, op);
    if op.PushBackedUp? {
      recorded :| recorded in s.repos[p] && recorded.id == x;
      t := WithOp(s, o, PushResolved(p, op.observed, op.secrets, x, recorded));
      ResolveStep(s, o, recorded);
    } else {
      t, recorded := s, op.recorded;
    }
  }

  /** A push's own snapshot is not the one it observed. */
  lemma ObservedIsNotOwn(s: State, o: OpId, p: ProjectId, x: SnapshotId)
    requires Inv(s) && o in s.ops && WillRecord(s.ops[o], p, x)
    ensures s.ops[o].observed != Some(x)
  {
    assert OpOk(s.repos, s.ops[o]);
  }

  /**
   * While such a push is in flight, the second push can commit without a pull, restore or discard of the id: another
   * snapshot is restored, the late push sets the id back, and a new push observes it.
   */
  lemma LatePushSetsItBack(s: State, p: ProjectId, x: SnapshotId, o: OpId) returns (actions: seq<Action>, t: State, j: nat)
    requires Inv(s) && p in s.db.projects && CanSetBack(s, p, x, o)
    ensures Runs(s, actions, t) && RacesOn(s, t, p, x, j) && !AppliedBetween(s, t, p, x, j)
  {
    ObservedIsNotOwn(s, o, p, x);
    var y :| y in s.repos[p] && y.id == s.ops[o].observed.value && SnapshotContent(y.files).Ok?;
    var s1, recorded := LatePushResolves(s, p, x, o);
    var s2, applied, goal, restore, secrets, ids := RestoreRuns(s1, p, y);
    var s3 := ResolvedPushCommits(s2, p, o);
    var racing;
    t, racing, actions := PushRunsOn(s3, p, s2.ops[o].recorded);
    j := |s.log| + 2;
    RunsOn(s2, FinishPush(o), s3, actions, t);
    actions := RestoreThen(s1, s2, p, y, goal, restore, secrets, ids, [FinishPush(o)] + actions, t);
    if s1 != s {
      RunsOn(s, Resolve(o, recorded), s1, actions, t);
      actions := [Resolve(o, recorded)] + actions;
    }
    LateLog(s, t, p, x, applied, PushCommit(s2, s2.ops[o]), racing);
  }

  lemma LateLog(s: State, t: State, p: ProjectId, x: SnapshotId, applied: Commit, late: Commit, racing: Commit)
    requires t.log == s.log + [applied] + [late] + [racing]
    requires applied.Applied? && applied.snapshotId != x
    requires late.Pushed? && late.snapshotId == late.own
    requires racing.Pushed? && racing.p == p && racing.observed == Some(x)
    ensures RacesOn(s, t, p, x, |s.log| + 2) && !AppliedBetween(s, t, p, x, |s.log| + 2)
  {
  }

  /** In every continuation of `s`, a second push on `x` needs a pull, restore or discard of `x` before it. */
  ghost predicate NeedsApply(s: State, p: ProjectId, x: SnapshotId) {
    forall actions: seq<Action>, t: State, j: nat | Runs(s, actions, t) && RacesOn(s, t, p, x, j) :: AppliedBetween(s, t, p, x, j)
  }

  ghost predicate LatePushInFlight(s: State, p: ProjectId, x: SnapshotId) {
    p in s.db.projects && exists o :: CanSetBack(s, p, x, o)
  }

  lemma NeedsApplyWithoutLatePush(s: State, p: ProjectId, x: SnapshotId)
    requires Reachable(s) && LastPushedOn(s, p, x) && !LatePushInFlight(s, p, x)
    ensures NeedsApply(s, p, x)
  {
    forall actions: seq<Action>, t: State, j: nat | Runs(s, actions, t) && RacesOn(s, t, p, x, j) ensures AppliedBetween(s, t, p, x, j) {
      RacingPushesNeedTheirIdApplied(s, actions, t, p, x, j);
    }
  }

  lemma LatePushNeedsNoApply(s: State, p: ProjectId, x: SnapshotId)
    requires Reachable(s) && LatePushInFlight(s, p, x)
    ensures !NeedsApply(s, p, x)
  {
    ReachableHolds(s);
    var o :| CanSetBack(s, p, x, o);
    var actions, t, j := LatePushSetsItBack(s, p, x, o);
  }

  /**
   * The exact condition, which can be read off the state at the first commit. After a push on `x`, a second push on `x`
   * needs a pull, restore or discard of `x` in between, in every continuation, if and only if no push that backed `x` up
   * is still in flight having observed a sync id whose snapshot can be restored.
   */
  lemma RacingPushesNeedTheirIdAppliedIff(s: State, p: ProjectId, x: SnapshotId)
    requires Reachable(s) && LastPushedOn(s, p, x)
    ensures NeedsApply(s, p, x) <==> !LatePushInFlight(s, p, x)
  {
    if LatePushInFlight(s, p, x) {
      LatePushNeedsNoApply(s, p, x);
    } else {
      NeedsApplyWithoutLatePush(s, p, x);
    }
  }
}
