/** What the write sections of the synchronizations do to the tables, and what they keep. */
module SyncServiceFacts {
  import opened JsStrings
  import opened Model
  import opened SecretNames
  import opened SecretsHash
  import opened SecretsData
  import opened SecretsDataFacts
  import opened SyncService

  /** Every project but `p`, its row and its secrets, is as before. */
  ghost predicate OthersUntouched(before: Db, after: Db, p: ProjectId) {
    && (forall q | q in after.projects && q != p :: q in before.projects && after.projects[q] == before.projects[q])
    && (forall q | q in before.projects && q != p :: q in after.projects)
    && (forall q | q != p :: RowsOf(after.secrets, q) == RowsOf(before.secrets, q))
  }

  lemma HashesFollow(before: Db, after: Db, p: ProjectId)
    requires HashesCurrent(before) && OthersUntouched(before, after, p)
    requires p in after.projects ==> after.projects[p].currentContentHash == Some(ComputeSecretsHash(Stored(after, p)))
    ensures HashesCurrent(after)
  {
    forall q | q in after.projects
      ensures after.projects[q].currentContentHash == Some(ComputeSecretsHash(Stored(after, q)))
    {
      if q != p {
        assert RowsOf(after.secrets, q) == RowsOf(before.secrets, q);
      }
    }
  }

  ghost predicate UnusedIds(db: Db, ids: seq<SecretId>) {
    && (forall i, j | 0 <= i < j < |ids| :: ids[i] != ids[j])
    && (forall r | r in db.secrets :: r.id !in ids)
  }

  function Replaced(db: Db, p: ProjectId, rows: seq<SecretRow>, id: SnapshotId, time: Option<int>): Db {
    var hash := ComputeSecretsHash(Bodies(rows));
    WithSyncState(db.(secrets := WithoutProject(db.secrets, p) + rows), p, id, time, hash, hash)
  }

  lemma ReplacedRowsFit(db: Db, p: ProjectId, secrets: seq<Secret>, ids: seq<SecretId>)
    requires Schema(db) && ValidSecrets(secrets) && |ids| == |secrets| && UnusedIds(db, ids)
    ensures UniqueRows(WithoutProject(db.secrets, p) + RowsFor(p, secrets, ids))
    ensures forall r | r in RowsFor(p, secrets, ids) :: r.projectId == p && RowOk(r) && r.id in ids
  {
    var kept, rows := WithoutProject(db.secrets, p), RowsFor(p, secrets, ids);
    WithoutProjectUnique(db.secrets, p);
    forall r | r in rows ensures r.projectId == p && RowOk(r) && r.id in ids {
      var i :| 0 <= i < |rows| && rows[i] == r;
      assert secrets[i] in secrets;
    }
    var all := kept + rows;
    forall i, j | 0 <= i < j < |all|
      ensures all[i].id != all[j].id && (all[i].projectId == all[j].projectId ==> all[i].name != all[j].name)
    {
      if i < |kept| <= j {
        assert kept[i] in kept && rows[j - |kept|] in rows;
      }
    }
  }

  lemma ReplaceResult(db: Db, p: ProjectId, secrets: seq<Secret>, ids: seq<SecretId>, id: SnapshotId, time: Option<int>)
    requires Schema(db) && ValidSecrets(secrets) && |ids| == |secrets| && UnusedIds(db, ids) && p in db.projects
    ensures var rows := RowsFor(p, secrets, ids);
            ReplaceTx(db, p, rows, SyncState(id, time, ComputeSecretsHash(Bodies(rows)))) == Ok(Replaced(db, p, rows, id, time))
  {
    var rows := RowsFor(p, secrets, ids);
    ReplacedRowsFit(db, p, secrets, ids);
    InsertedAllSucceeds(db.(secrets := WithoutProject(db.secrets, p)), rows);
  }

  lemma ReplacedKeeps(db: Db, p: ProjectId, secrets: seq<Secret>, ids: seq<SecretId>, id: SnapshotId, time: Option<int>)
    requires Consistent(db) && ValidSecrets(secrets) && |ids| == |secrets| && UnusedIds(db, ids) && p in db.projects
    ensures var after := Replaced(db, p, RowsFor(p, secrets, ids), id, time);
            && Consistent(after) && OthersUntouched(db, after, p) && Stored(after, p) == secrets
            && after.projects[p] == Project(Some(id), time, Some(ComputeSecretsHash(secrets)), Some(ComputeSecretsHash(secrets)))
  {
    var rows := RowsFor(p, secrets, ids);
    var after := Replaced(db, p, rows, id, time);
    ReplacedRowsFit(db, p, secrets, ids);
    ReplacedRowsOf(db, p, rows);
    assert Bodies(rows) == secrets;
    SchemaOfReplaced(db, p, rows, id, time);
    HashesFollow(db, after, p);
  }

  lemma SchemaOfReplaced(db: Db, p: ProjectId, rows: seq<SecretRow>, id: SnapshotId, time: Option<int>)
    requires Schema(db) && p in db.projects && UniqueRows(WithoutProject(db.secrets, p) + rows)
    requires forall r | r in rows :: r.projectId == p && RowOk(r)
    ensures Schema(Replaced(db, p, rows, id, time))
  {
  }

  lemma ReplacedRowsOf(db: Db, p: ProjectId, rows: seq<SecretRow>)
    requires forall r | r in rows :: r.projectId == p
    ensures RowsOf(WithoutProject(db.secrets, p) + rows, p) == rows
    ensures forall q | q != p :: RowsOf(WithoutProject(db.secrets, p) + rows, q) == RowsOf(db.secrets, q)
  {
    forall q
      ensures RowsOf(WithoutProject(db.secrets, p) + rows, q) == if q == p then rows else RowsOf(db.secrets, q)
    {
      RowsOfConcat(WithoutProject(db.secrets, p), rows, q);
      RowsOfWithoutProject(db.secrets, p, q);
      RowsOfOneProject(rows, p, q);
    }
  }

  /**
   * Applying a snapshot succeeds exactly when the project exists and its content still has the expected hash; the
   * stored secrets are then exactly the snapshot's and both hashes are theirs. Otherwise nothing changes.
   */
  lemma ApplyReplacesContent(db: Db, p: ProjectId, expected: Digest, secrets: seq<Secret>, ids: seq<SecretId>, id: SnapshotId, time: Option<int>)
    requires Consistent(db) && ValidSecrets(secrets) && |ids| == |secrets| && UnusedIds(db, ids)
    ensures var (after, error) := ApplySection(db, p, expected, RowsFor(p, secrets, ids), id, time);
            && error == (if p !in db.projects then Some(ProjectNotFound)
                         else if ComputeSecretsHash(Stored(db, p)) != expected then Some(PreviewStale)
                         else None)
            && (error.Some? ==> after == db)
            && (error.None? ==>
              && Consistent(after) && OthersUntouched(db, after, p) && Stored(after, p) == secrets
              && p in after.projects
              && after.projects[p] == Project(Some(id), time, Some(ComputeSecretsHash(secrets)), Some(ComputeSecretsHash(secrets)))
              && after.secrets == WithoutProject(db.secrets, p) + RowsFor(p, secrets, ids))
  {
    if p in db.projects {
      ReplaceResult(db, p, secrets, ids, id, time);
      ReplacedKeeps(db, p, secrets, ids, id, time);
    }
  }

  lemma SchemaIgnoresSyncState(db: Db, p: ProjectId, id: SnapshotId, time: Option<int>, baseline: Digest, current: Digest)
    requires Schema(db)
    ensures Schema(WithSyncState(db, p, id, time, baseline, current))
  {
  }

  /** A push is recorded exactly when the sync id it observed is still recorded; the secrets are not touched. */
  lemma FinalizeRecordsPush(db: Db, p: ProjectId, observed: Option<SnapshotId>, id: SnapshotId, time: Option<int>, pushedHash: Digest)
    requires Consistent(db)
    ensures var (after, error) := FinalizeSection(db, p, observed, id, time, pushedHash);
            && error == (if p !in db.projects then Some(ProjectNotFound)
                         else if db.projects[p].lastSyncSnapshotId != observed then Some(ConcurrentSync)
                         else None)
            && (error.Some? ==> after == db)
            && Consistent(after) && after.secrets == db.secrets && OthersUntouched(db, after, p)
            && (error.None? ==>
              && p in after.projects && after.projects[p].lastSyncSnapshotId == Some(id)
              && after.projects[p].lastSyncContentHash == Some(pushedHash)
              && after.projects[p] == Project(Some(id), time, Some(pushedHash), Some(ComputeSecretsHash(Stored(db, p)))))
  {
    if p in db.projects {
      SyncStateKeeps(db, p, id, time, pushedHash);
    }
  }

  lemma SyncStateKeeps(db: Db, p: ProjectId, id: SnapshotId, time: Option<int>, baseline: Digest)
    requires Consistent(db) && p in db.projects
    ensures var after := WithSyncState(db, p, id, time, baseline, ComputeSecretsHash(Stored(db, p)));
            Consistent(after) && OthersUntouched(db, after, p)
  {
    var current := ComputeSecretsHash(Stored(db, p));
    var after := WithSyncState(db, p, id, time, baseline, current);
    SchemaIgnoresSyncState(db, p, id, time, baseline, current);
    SyncStateTouches(db, p, id, time, baseline, current);
    assert Stored(after, p) == Stored(db, p);
    HashesFollow(db, after, p);
  }

  lemma SyncStateTouches(db: Db, p: ProjectId, id: SnapshotId, time: Option<int>, baseline: Digest, current: Digest)
    requires p in db.projects
    ensures var after := WithSyncState(db, p, id, time, baseline, current);
            && OthersUntouched(db, after, p) && after.secrets == db.secrets
            && p in after.projects && after.projects[p].currentContentHash == Some(current)
  {
  }

  /** A deleted project leaves no row behind, and touches no other project. */
  lemma DeleteRemovesProject(db: Db, p: ProjectId)
    requires Consistent(db)
    ensures var (after, error) := DeleteProjectSection(db, p);
            && error == (if p in db.projects then None else Some(ProjectNotFound))
            && (error.Some? ==> after == db)
            && Consistent(after) && OthersUntouched(db, after, p)
            && p !in after.projects && RowsOf(after.secrets, p) == []
            && (error.None? ==> after.secrets == WithoutProject(db.secrets, p))
  {
    if p in db.projects {
      DeletedKeeps(db, p);
    } else {
      NoRowsWithoutProject(db, p);
    }
  }

  lemma NoRowsWithoutProject(db: Db, p: ProjectId)
    requires Schema(db) && p !in db.projects
    ensures RowsOf(db.secrets, p) == []
  {
    NoRowsOf(db.secrets, p);
  }

  lemma {:induction false} NoRowsOf(rows: seq<SecretRow>, p: ProjectId)
    requires forall r | r in rows :: r.projectId != p
    ensures RowsOf(rows, p) == []
  {
    if rows != [] {
      assert rows[|rows| - 1] in rows;
      NoRowsOf(rows[..|rows| - 1], p);
    }
  }

  lemma DeletedKeeps(db: Db, p: ProjectId)
    requires Consistent(db) && p in db.projects
    ensures Consistent(DeleteCascadeTx(db, p)) && OthersUntouched(db, DeleteCascadeTx(db, p), p)
    ensures RowsOf(DeleteCascadeTx(db, p).secrets, p) == []
  {
    DeletedSchema(db, p);
    DeletedRows(db, p);
    HashesFollow(db, DeleteCascadeTx(db, p), p);
  }

  lemma DeletedRows(db: Db, p: ProjectId)
    ensures OthersUntouched(db, DeleteCascadeTx(db, p), p) && RowsOf(DeleteCascadeTx(db, p).secrets, p) == []
  {
    forall q ensures RowsOf(WithoutProject(db.secrets, p), q) == if q == p then [] else RowsOf(db.secrets, q) {
      RowsOfWithoutProject(db.secrets, p, q);
    }
  }

  lemma DeletedSchema(db: Db, p: ProjectId)
    requires Schema(db)
    ensures Schema(DeleteCascadeTx(db, p))
  {
    WithoutProjectUnique(db.secrets, p);
  }
}
