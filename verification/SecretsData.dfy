/** The `projects` and `secrets` tables and their all-or-nothing transactions (`SecretsData.ts`, `ProjectsData.ts`). */
module SecretsData {
  import opened JsStrings
  import opened Model
  import opened SecretsHash

  datatype SecretRow = SecretRow(id: SecretId, projectId: ProjectId, name: JsString, data: Data, version: nat)

  datatype Db = Db(projects: map<ProjectId, Project>, secrets: seq<SecretRow>)

  datatype DbError = UniqueViolation | ForeignKeyViolation

  datatype UpdateStatus = Updated | NotFound | VersionConflict

  datatype SyncState = SyncState(snapshotId: SnapshotId, snapshotTime: Option<int>, contentHash: Digest)

  // ---- Reading ----

  function RowsOf(rows: seq<SecretRow>, p: ProjectId): (r: seq<SecretRow>)
    ensures forall x :: x in r <==> x in rows && x.projectId == p
  {
    if rows == [] then []
    else if rows[|rows| - 1].projectId == p then RowsOf(rows[..|rows| - 1], p) + [rows[|rows| - 1]]
    else RowsOf(rows[..|rows| - 1], p)
  }

  function Bodies(rows: seq<SecretRow>): (r: seq<Secret>)
    ensures |r| == |rows|
    ensures forall i | 0 <= i < |r| :: r[i] == Secret(rows[i].name, rows[i].data)
  {
    seq(|rows|, i requires 0 <= i < |rows| => Secret(rows[i].name, rows[i].data))
  }

  /** The secrets stored for a project. */
  function Stored(db: Db, p: ProjectId): seq<Secret> {
    Bodies(RowsOf(db.secrets, p))
  }

  // ---- Statements ----

  function Inserted(db: Db, row: SecretRow): Result<Db, DbError> {
    if exists r | r in db.secrets :: r.id == row.id || (r.projectId == row.projectId && r.name == row.name) then
      Err(UniqueViolation)
    else if row.projectId !in db.projects then Err(ForeignKeyViolation)
    else Ok(db.(secrets := db.secrets + [row]))
  }

  function InsertedAll(db: Db, rows: seq<SecretRow>): Result<Db, DbError> {
    if rows == [] then Ok(db)
    else
      match InsertedAll(db, rows[..|rows| - 1])
      case Err(e) => Err(e)
      case Ok(d) => Inserted(d, rows[|rows| - 1])
  }

  function WithCurrentHash(db: Db, p: ProjectId, hash: Digest): Db {
    if p !in db.projects then db
    else db.(projects := db.projects[p := db.projects[p].(currentContentHash := Some(hash))])
  }

  function WithSyncState(db: Db, p: ProjectId, id: SnapshotId, time: Option<int>, baseline: Digest, current: Digest): Db {
    if p !in db.projects then db
    else db.(projects := db.projects[p := Project(Some(id), time, Some(baseline), Some(current))])
  }

  /** `WHERE "id" = ? AND "projectId" = ? AND "version" = ?` */
  predicate Matches(r: SecretRow, row: SecretRow, expectedVersion: nat) {
    r.id == row.id && r.projectId == row.projectId && r.version == expectedVersion
  }

  function UpdatedRows(rows: seq<SecretRow>, row: SecretRow, expectedVersion: nat): (r: seq<SecretRow>)
    ensures |r| == |rows|
    ensures forall i | 0 <= i < |r| ::
      r[i] == if Matches(rows[i], row, expectedVersion)
              then rows[i].(name := row.name, data := row.data, version := expectedVersion + 1)
              else rows[i]
  {
    seq(|rows|, i requires 0 <= i < |rows| =>
      if Matches(rows[i], row, expectedVersion)
      then rows[i].(name := row.name, data := row.data, version := expectedVersion + 1)
      else rows[i])
  }

  function WithoutId(rows: seq<SecretRow>, id: SecretId): (r: seq<SecretRow>)
    ensures forall x :: x in r <==> x in rows && x.id != id
  {
    if rows == [] then []
    else if rows[|rows| - 1].id != id then WithoutId(rows[..|rows| - 1], id) + [rows[|rows| - 1]]
    else WithoutId(rows[..|rows| - 1], id)
  }

  function WithoutProject(rows: seq<SecretRow>, p: ProjectId): (r: seq<SecretRow>)
    ensures forall x :: x in r <==> x in rows && x.projectId != p
  {
    if rows == [] then []
    else if rows[|rows| - 1].projectId != p then WithoutProject(rows[..|rows| - 1], p) + [rows[|rows| - 1]]
    else WithoutProject(rows[..|rows| - 1], p)
  }

  // ---- Transactions ----

  function AddTx(db: Db, row: SecretRow, hash: Digest): Result<Db, DbError> {
    match Inserted(db, row)
    case Err(e) => Err(e)
    case Ok(d) => Ok(WithCurrentHash(d, row.projectId, hash))
  }

  /** The conditional statement and the hash, in one transaction; `None` when no row matched. */
  function UpdateStatement(db: Db, row: SecretRow, expectedVersion: nat, hash: Digest): Result<Option<Db>, DbError> {
    if exists r | r in db.secrets :: Matches(r, row, expectedVersion) then
      if exists r | r in db.secrets :: r.projectId == row.projectId && r.name == row.name && r.id != row.id then
        Err(UniqueViolation)
      else
        Ok(Some(WithCurrentHash(db.(secrets := UpdatedRows(db.secrets, row, expectedVersion)), row.projectId, hash)))
    else Ok(None)
  }

  /** Why no row matched, read after the transaction. */
  function StatusOf(db: Db, row: SecretRow): UpdateStatus {
    if exists r | r in db.secrets :: r.id == row.id && r.projectId == row.projectId then VersionConflict else NotFound
  }

  function UpdateTx(db: Db, row: SecretRow, expectedVersion: nat, hash: Digest): Result<(Db, UpdateStatus), DbError> {
    match UpdateStatement(db, row, expectedVersion, hash)
    case Err(e) => Err(e)
    case Ok(Some(d)) => Ok((d, Updated))
    case Ok(None) => Ok((db, StatusOf(db, row)))
  }

  function DeleteTx(db: Db, id: SecretId, p: ProjectId, hash: Digest): Db {
    WithCurrentHash(db.(secrets := WithoutId(db.secrets, id)), p, hash)
  }

  function ReplaceTx(db: Db, p: ProjectId, rows: seq<SecretRow>, sync: SyncState): Result<Db, DbError> {
    match InsertedAll(db.(secrets := WithoutProject(db.secrets, p)), rows)
    case Err(e) => Err(e)
    case Ok(d) => Ok(WithSyncState(d, p, sync.snapshotId, sync.snapshotTime, sync.contentHash, sync.contentHash))
  }

  function DeleteCascadeTx(db: Db, p: ProjectId): Db {
    Db(db.projects - {p}, WithoutProject(db.secrets, p))
  }

  /** The two tables, updated in place. A failed transaction restores what was there. */
  class Database {
    var projects: map<ProjectId, Project>
    var secrets: seq<SecretRow>

    function State(): Db reads this { Db(projects, secrets) }

    method ListForProject(p: ProjectId) returns (list: seq<SecretRow>)
      ensures list == RowsOf(secrets, p)
    {
      list := [];
      for i := 0 to |secrets|
        invariant list == RowsOf(secrets[..i], p)
      {
        assert secrets[..i + 1][..i] == secrets[..i];
        if secrets[i].projectId == p {
          list := list + [secrets[i]];
        }
      }
      assert secrets[..|secrets|] == secrets;
    }

    method Add(row: SecretRow, hash: Digest) returns (error: Option<DbError>)
      modifies this
      ensures match AddTx(old(State()), row, hash)
              case Ok(db) => error.None? && State() == db
              case Err(e) => error == Some(e) && State() == old(State())
    {
      if exists r | r in secrets :: r.id == row.id || (r.projectId == row.projectId && r.name == row.name) {
        return Some(UniqueViolation);
      }
      if row.projectId !in projects {
        return Some(ForeignKeyViolation);
      }
      secrets := secrets + [row];
      SetCurrentHash(row.projectId, hash);
      error := None;
    }

    method SetCurrentHash(p: ProjectId, hash: Digest)
      modifies this`projects
      ensures State() == WithCurrentHash(old(State()), p, hash)
    {
      if p in projects {
        projects := projects[p := projects[p].(currentContentHash := Some(hash))];
      }
    }

    method SetSyncState(p: ProjectId, id: SnapshotId, time: Option<int>, baseline: Digest, current: Digest)
      modifies this`projects
      ensures State() == WithSyncState(old(State()), p, id, time, baseline, current)
    {
      if p in projects {
        projects := projects[p := Project(Some(id), time, Some(baseline), Some(current))];
      }
    }

    /** The two steps of an update when nobody writes between them. */
    method Update(row: SecretRow, expectedVersion: nat, hash: Digest) returns (r: Result<UpdateStatus, DbError>)
      modifies this
      ensures match UpdateTx(old(State()), row, expectedVersion, hash)
              case Ok((db, status)) => r == Ok(status) && State() == db
              case Err(e) => r == Err(e) && State() == old(State())
    {
      var affected := UpdateIfVersion(row, expectedVersion, hash);
      if affected.Err? {
        return Err(affected.error);
      }
      return Ok(if affected.value then Updated else StatusOf(State(), row));
    }

    /** The conditional statement changes at most the row that still carries the expected version. */
    method UpdateIfVersion(row: SecretRow, expectedVersion: nat, hash: Digest) returns (affected: Result<bool, DbError>)
      modifies this
      ensures match UpdateStatement(old(State()), row, expectedVersion, hash)
              case Ok(Some(db)) => affected == Ok(true) && State() == db
              case Ok(None) => affected == Ok(false) && State() == old(State())
              case Err(e) => affected == Err(e) && State() == old(State())
    {
      var changed := false;
      var updated: seq<SecretRow> := [];
      for i := 0 to |secrets|
        invariant |updated| == i
        invariant forall k | 0 <= k < i :: updated[k] == UpdatedRows(secrets, row, expectedVersion)[k]
        invariant changed <==> exists k | 0 <= k < i :: Matches(secrets[k], row, expectedVersion)
      {
        if Matches(secrets[i], row, expectedVersion) {
          updated := updated + [secrets[i].(name := row.name, data := row.data, version := expectedVersion + 1)];
          changed := true;
        } else {
          updated := updated + [secrets[i]];
        }
      }
      assert updated == UpdatedRows(secrets, row, expectedVersion);
      if changed {
        assert exists r | r in secrets :: Matches(r, row, expectedVersion);
        if exists r | r in secrets :: r.projectId == row.projectId && r.name == row.name && r.id != row.id {
          return Err(UniqueViolation);
        }
        secrets := updated;
        SetCurrentHash(row.projectId, hash);
        return Ok(true);
      }
      assert forall r | r in secrets :: !Matches(r, row, expectedVersion);
      return Ok(false);
    }

    /** Another writer that ignores the lock leaves these tables. */
    method Overwrite(db: Db)
      modifies this
      ensures State() == db
    {
      projects, secrets := db.projects, db.secrets;
    }

    method Delete(id: SecretId, p: ProjectId, hash: Digest)
      modifies this
      ensures State() == DeleteTx(old(State()), id, p, hash)
    {
      secrets := WithoutId(secrets, id);
      SetCurrentHash(p, hash);
    }

    /** Delete, re-insert and record the sync state in one transaction. */
    method ReplaceForProject(p: ProjectId, rows: seq<SecretRow>, sync: SyncState) returns (error: Option<DbError>)
      modifies this
      ensures match ReplaceTx(old(State()), p, rows, sync)
              case Ok(db) => error.None? && State() == db
              case Err(e) => error == Some(e) && State() == old(State())
    {
      var before := secrets;
      secrets := WithoutProject(secrets, p);
      ghost var emptied := State();
      for i := 0 to |rows|
        invariant projects == old(projects)
        invariant InsertedAll(emptied, rows[..i]) == Ok(State())
      {
        var row := rows[i];
        assert rows[..i + 1][..i] == rows[..i];
        if exists r | r in secrets :: r.id == row.id || (r.projectId == row.projectId && r.name == row.name) {
          secrets := before;
          InsertFailureSpreads(emptied, rows, i + 1);
          return Some(UniqueViolation);
        }
        if row.projectId !in projects {
          secrets := before;
          InsertFailureSpreads(emptied, rows, i + 1);
          return Some(ForeignKeyViolation);
        }
        secrets := secrets + [row];
      }
      assert rows[..|rows|] == rows;
      SetSyncState(p, sync.snapshotId, sync.snapshotTime, sync.contentHash, sync.contentHash);
      error := None;
    }

    method DeleteCascade(p: ProjectId)
      modifies this
      ensures State() == DeleteCascadeTx(old(State()), p)
    {
      secrets := WithoutProject(secrets, p);
      projects := projects - {p};
    }
  }

  lemma {:induction false} InsertFailureSpreads(db: Db, rows: seq<SecretRow>, i: nat)
    requires i <= |rows| && InsertedAll(db, rows[..i]).Err?
    ensures InsertedAll(db, rows) == InsertedAll(db, rows[..i])
  {
    if i < |rows| {
      assert rows[..|rows| - 1][..i] == rows[..i];
      InsertFailureSpreads(db, rows[..|rows| - 1], i);
    } else {
      assert rows[..i] == rows;
    }
  }
}
