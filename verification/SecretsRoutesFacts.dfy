/** What each secret route does to the stored content, and what every route keeps. */
module SecretsRoutesFacts {
  import opened JsStrings
  import opened Model
  import opened SecretNames
  import opened SecretsHash
  import opened SecretsData
  import opened SecretsDataFacts
  import opened SecretsRoutes

  /** Only project `p` was edited: the other projects, and its own sync columns, are as before. */
  ghost predicate EditedOnly(before: Db, after: Db, p: ProjectId) {
    && before.projects.Keys == after.projects.Keys
    && (forall q | q in before.projects && q != p :: after.projects[q] == before.projects[q])
    && (forall q | q != p :: RowsOf(after.secrets, q) == RowsOf(before.secrets, q))
    && (p in before.projects ==>
      after.projects[p] == before.projects[p].(currentContentHash := after.projects[p].currentContentHash))
  }

  /** Writing the hash of the new list with the new rows keeps the tables consistent. */
  lemma HashWritten(db: Db, rows: seq<SecretRow>, p: ProjectId, list: seq<SecretRow>)
    requires Consistent(db) && p in db.projects
    requires Schema(db.(secrets := rows))
    requires RowsOf(rows, p) == list
    requires forall q | q != p :: RowsOf(rows, q) == RowsOf(db.secrets, q)
    ensures var after := WithCurrentHash(db.(secrets := rows), p, ComputeSecretsHash(Bodies(list)));
            Consistent(after) && EditedOnly(db, after, p)
  {
    HashesWritten(db, rows, p, list);
    SchemaIgnoresHashes(db.(secrets := rows), p, ComputeSecretsHash(Bodies(list)));
  }

  lemma SchemaIgnoresHashes(db: Db, p: ProjectId, hash: Digest)
    requires Schema(db)
    ensures Schema(WithCurrentHash(db, p, hash))
  {
  }

  lemma HashesWritten(db: Db, rows: seq<SecretRow>, p: ProjectId, list: seq<SecretRow>)
    requires HashesCurrent(db) && p in db.projects && RowsOf(rows, p) == list
    requires forall q | q != p :: RowsOf(rows, q) == RowsOf(db.secrets, q)
    ensures HashesCurrent(WithCurrentHash(db.(secrets := rows), p, ComputeSecretsHash(Bodies(list))))
  {
  }

  lemma ContentIs(rows: seq<SecretRow>, c: Content)
    requires WellFormed(Bodies(rows))
    requires forall r | r in rows :: UniqueKeys(r.data) && r.name in c && c[r.name] == MapOf(r.data)
    requires forall n | n in c :: exists r :: r in rows && r.name == n
    ensures ContentOf(Bodies(rows)) == c
  {
    var d := ContentOf(Bodies(rows));
    forall n | n in d ensures n in c && c[n] == d[n] {
      var s := ContentComesFrom(Bodies(rows), n);
      var i :| 0 <= i < |rows| && Bodies(rows)[i] == s;
      assert rows[i] in rows;
    }
    forall n | n in c ensures n in d {
      var r :| r in rows && r.name == n;
      var i :| 0 <= i < |rows| && rows[i] == r;
      ContentHas(Bodies(rows), Bodies(rows)[i]);
    }
  }

  lemma ContentHasRow(db: Db, r: SecretRow)
    requires Schema(db) && r in db.secrets
    ensures WellFormed(Stored(db, r.projectId))
    ensures r.name in ContentOf(Stored(db, r.projectId)) && ContentOf(Stored(db, r.projectId))[r.name] == MapOf(r.data)
  {
    StoredIsWellFormed(db, r.projectId);
    var rows := RowsOf(db.secrets, r.projectId);
    var i :| 0 <= i < |rows| && rows[i] == r;
    ContentHas(Bodies(rows), Bodies(rows)[i]);
  }

  lemma ContentHasNoOther(db: Db, p: ProjectId, n: JsString) returns (r: SecretRow)
    requires Schema(db) && WellFormed(Stored(db, p)) && n in ContentOf(Stored(db, p))
    ensures r in db.secrets && r.projectId == p && r.name == n
  {
    var s := ContentComesFrom(Stored(db, p), n);
    var rows := RowsOf(db.secrets, p);
    var i :| 0 <= i < |rows| && Bodies(rows)[i] == s;
    r := rows[i];
  }

  // ---- Create ----

  /** What a create is told. */
  ghost function CreateOutcome(db: Db, p: ProjectId, name: JsString, data: Data): Outcome
    requires WellFormed(Stored(db, p))
  {
    if !Validate(name, data) then Invalid
    else if p !in db.projects then ProjectNotFound
    else if name in ContentOf(Stored(db, p)) then NameConflict
    else Done
  }

  /** A create succeeds exactly for a valid, unused name in an existing project, and adds that one secret. */
  lemma CreateAddsOneSecret(db: Db, p: ProjectId, id: SecretId, name: JsString, data: Data)
    requires Consistent(db) && UniqueKeys(data) && (forall r | r in db.secrets :: r.id != id) && WellFormed(Stored(db, p))
    ensures var (after, outcome) := CreateSection(db, p, id, name, data);
            && Consistent(after) && EditedOnly(db, after, p) && WellFormed(Stored(after, p))
            && outcome == CreateOutcome(db, p, name, data)
            && (outcome == Done ==>
              && ContentOf(Stored(after, p)) == ContentOf(Stored(db, p))[name := MapOf(data)]
              && after.secrets == db.secrets + [SecretRow(id, p, name, data, 1)])
            && (outcome != Done ==> after == db)
  {
    var row := SecretRow(id, p, name, data, 1);
    CreateResult(db, row);
    if CreateOutcome(db, p, name, data) == Done {
      NameIsTaken(db, p, name);
      CreateSucceeds(db, row);
    }
  }

  function Created(db: Db, row: SecretRow): Db {
    WithCurrentHash(db.(secrets := db.secrets + [row]), row.projectId,
                    ComputeSecretsHash(Bodies(RowsOf(db.secrets, row.projectId) + [row])))
  }

  ghost predicate CanCreate(db: Db, row: SecretRow) {
    && Validate(row.name, row.data) && row.projectId in db.projects
    && forall r | r in RowsOf(db.secrets, row.projectId) :: r.name != row.name
  }

  lemma CreateResult(db: Db, row: SecretRow)
    requires Schema(db) && row.version == 1 && (forall r | r in db.secrets :: r.id != row.id) && WellFormed(Stored(db, row.projectId))
    ensures var outcome := CreateOutcome(db, row.projectId, row.name, row.data);
            CreateSection(db, row.projectId, row.id, row.name, row.data) == (if outcome == Done then Created(db, row) else db, outcome)
  {
    NameIsTaken(db, row.projectId, row.name);
    if CanCreate(db, row) {
      NothingClashes(db, row);
      assert AddTx(db, row, ComputeSecretsHash(Bodies(RowsOf(db.secrets, row.projectId) + [row]))) == Ok(Created(db, row));
    }
  }

  lemma NothingClashes(db: Db, row: SecretRow)
    requires CanCreate(db, row) && forall r | r in db.secrets :: r.id != row.id
    ensures Inserted(db, row) == Ok(db.(secrets := db.secrets + [row]))
  {
    forall r | r in db.secrets ensures !(r.id == row.id || (r.projectId == row.projectId && r.name == row.name)) {
      assert r.projectId == row.projectId ==> r in RowsOf(db.secrets, row.projectId);
    }
  }

  lemma NameIsTaken(db: Db, p: ProjectId, name: JsString)
    requires Schema(db) && WellFormed(Stored(db, p))
    ensures name in ContentOf(Stored(db, p)) <==> exists r :: r in RowsOf(db.secrets, p) && r.name == name
  {
    if r :| r in RowsOf(db.secrets, p) && r.name == name {
      ContentHasRow(db, r);
    }
    if name in ContentOf(Stored(db, p)) {
      var r := ContentHasNoOther(db, p, name);
      assert r in RowsOf(db.secrets, p);
    }
  }

  /**
   * A name taken or a project deleted after the list was read, by a writer that ignores the lock: the create answers a
   * name conflict, or fails, and changes nothing.
   */
  lemma LateCreateClashes(db: Db, list: seq<SecretRow>, row: SecretRow)
    requires (exists r :: r in db.secrets && r.projectId == row.projectId && r.name == row.name) || row.projectId !in db.projects
    ensures AddRow(db, list, row).0 == db
    ensures (exists r :: r in db.secrets && r.projectId == row.projectId && r.name == row.name) ==> AddRow(db, list, row).1 == NameConflict
    ensures (forall r | r in db.secrets :: r.id != row.id && r.projectId != row.projectId) ==> AddRow(db, list, row).1 == Failed
  {
  }

  /** The same for an update whose new name was taken after its check. */
  lemma LateUpdateClashes(write: Db, status: Db, row: SecretRow, version: nat, hash: Digest)
    requires exists r :: r in write.secrets && r.id == row.id && r.projectId == row.projectId && r.version == version
    requires exists r :: r in write.secrets && r.projectId == row.projectId && r.name == row.name && r.id != row.id
    ensures GuardedWrite(write, status, row, version, hash) == (write, NameConflict)
  {
    var r :| r in write.secrets && r.id == row.id && r.projectId == row.projectId && r.version == version;
    assert Matches(r, row, version);
  }

  lemma CreateSucceeds(db: Db, row: SecretRow)
    requires Consistent(db) && RowOk(row) && forall r | r in db.secrets :: r.id != row.id
    requires CanCreate(db, row) && WellFormed(Stored(db, row.projectId))
    ensures var after := Created(db, row);
            && Consistent(after) && EditedOnly(db, after, row.projectId)
            && WellFormed(Stored(after, row.projectId))
            && ContentOf(Stored(after, row.projectId)) == ContentOf(Stored(db, row.projectId))[row.name := MapOf(row.data)]
  {
    NothingClashes(db, row);
    InsertedKeeps(db, row);
    HashWritten(db, db.secrets + [row], row.projectId, RowsOf(db.secrets, row.projectId) + [row]);
    CreatedContent(db, row);
  }

  lemma CreatedContent(db: Db, row: SecretRow)
    requires Schema(db) && Schema(db.(secrets := db.secrets + [row]))
    requires WellFormed(Stored(db, row.projectId))
    ensures var after := db.(secrets := db.secrets + [row]);
            WellFormed(Stored(after, row.projectId))
            && ContentOf(Stored(after, row.projectId)) == ContentOf(Stored(db, row.projectId))[row.name := MapOf(row.data)]
  {
    var p, after := row.projectId, db.(secrets := db.secrets + [row]);
    StoredIsWellFormed(after, p);
    RowsOfAppend(db.secrets, row, p);
    RowsOfUnique(after.secrets, p);
    assert row in after.secrets;
    var list, d := RowsOf(db.secrets, p), ContentOf(Stored(db, p))[row.name := MapOf(row.data)];
    forall r | r in list + [row] ensures UniqueKeys(r.data) && r.name in d && d[r.name] == MapOf(r.data) {
      if r in list {
        ListedNameDiffers(list, row, r);
        ContentHasRow(db, r);
      }
    }
    forall n | n in d ensures exists r :: r in list + [row] && r.name == n {
      CreatedNames(db, row, n);
    }
    ContentIs(list + [row], d);
  }

  lemma ListedNameDiffers(list: seq<SecretRow>, row: SecretRow, r: SecretRow)
    requires forall i, j | 0 <= i < j < |list + [row]| :: (list + [row])[i].name != (list + [row])[j].name
    requires r in list
    ensures r.name != row.name
  {
    var i :| 0 <= i < |list| && list[i] == r;
    assert (list + [row])[i].name != (list + [row])[|list|].name;
  }

  lemma CreatedNames(db: Db, row: SecretRow, n: JsString)
    requires Schema(db) && WellFormed(Stored(db, row.projectId))
    requires n == row.name || n in ContentOf(Stored(db, row.projectId))
    ensures exists r :: r in RowsOf(db.secrets, row.projectId) + [row] && r.name == n
  {
    var list := RowsOf(db.secrets, row.projectId);
    if n == row.name {
      assert row in list + [row];
    } else {
      var r := ContentHasNoOther(db, row.projectId, n);
      assert r in list + [row];
    }
  }

  /** A delete succeeds exactly for a secret listed in the project, and removes that one secret. */
  lemma DeleteRemovesOneSecret(db: Db, p: ProjectId, id: SecretId)
    requires Consistent(db)
    ensures var (after, outcome) := DeleteSection(db, p, id);
            && Consistent(after) && EditedOnly(db, after, p)
            && WellFormed(Stored(db, p)) && WellFormed(Stored(after, p))
            && outcome == (if p !in db.projects then ProjectNotFound
                           else if exists r :: r in RowsOf(db.secrets, p) && r.id == id then Done
                           else SecretNotFound)
            && (forall r | r in RowsOf(db.secrets, p) && r.id == id && outcome == Done ::
              ContentOf(Stored(after, p)) == ContentOf(Stored(db, p)) - {r.name})
            && (outcome == Done ==> after.secrets == WithoutId(db.secrets, id))
            && (outcome != Done ==> after == db)
  {
    StoredIsWellFormed(db, p);
    var list := RowsOf(db.secrets, p);
    if p in db.projects && Find(list, id).Some? {
      var row := Find(list, id).value;
      WithoutIdUnique(db.secrets, id);
      forall q | q != p ensures RowsOf(WithoutId(db.secrets, id), q) == RowsOf(db.secrets, q) {
        OtherProjectsLackId(db, row, q);
      }
      RowsOfWithoutId(db.secrets, id, p);
      HashWritten(db, WithoutId(db.secrets, id), p, WithoutId(list, id));
      DeletedContent(db, row);
      forall r | r in list && r.id == id ensures r == row {
        SameIdSameRow(db.secrets, r, row);
      }
    }
  }

  lemma SameIdSameRow(rows: seq<SecretRow>, a: SecretRow, b: SecretRow)
    requires UniqueRows(rows) && a in rows && b in rows && a.id == b.id
    ensures a == b
  {
  }

  lemma SameNameSameRow(rows: seq<SecretRow>, a: SecretRow, b: SecretRow)
    requires UniqueRows(rows) && a in rows && b in rows && a.projectId == b.projectId && a.name == b.name
    ensures a == b
  {
  }

  lemma {:induction false} WithoutAbsentId(rows: seq<SecretRow>, id: SecretId)
    requires forall r | r in rows :: r.id != id
    ensures WithoutId(rows, id) == rows
  {
    if rows != [] {
      WithoutAbsentId(rows[..|rows| - 1], id);
      assert rows[|rows| - 1] in rows && rows == rows[..|rows| - 1] + [rows[|rows| - 1]];
    }
  }

  lemma OtherProjectsLackId(db: Db, row: SecretRow, q: ProjectId)
    requires Schema(db) && row in db.secrets && q != row.projectId
    ensures forall r | r in RowsOf(db.secrets, q) :: r.id != row.id
    ensures RowsOf(WithoutId(db.secrets, row.id), q) == RowsOf(db.secrets, q)
  {
    forall r | r in RowsOf(db.secrets, q) ensures r.id != row.id {
      if r.id == row.id {
        SameIdSameRow(db.secrets, r, row);
      }
    }
    RowsOfWithoutId(db.secrets, row.id, q);
    WithoutAbsentId(RowsOf(db.secrets, q), row.id);
  }

  lemma DeletedContent(db: Db, row: SecretRow)
    requires Schema(db) && row in db.secrets && WellFormed(Stored(db, row.projectId))
    requires Schema(db.(secrets := WithoutId(db.secrets, row.id)))
    ensures var after := db.(secrets := WithoutId(db.secrets, row.id));
            WellFormed(Stored(after, row.projectId))
            && ContentOf(Stored(after, row.projectId)) == ContentOf(Stored(db, row.projectId)) - {row.name}
  {
    var p, after := row.projectId, db.(secrets := WithoutId(db.secrets, row.id));
    StoredIsWellFormed(after, p);
    var c := ContentOf(Stored(db, p));
    var rows := RowsOf(after.secrets, p);
    forall r | r in rows ensures UniqueKeys(r.data) && r.name in c - {row.name} && (c - {row.name})[r.name] == MapOf(r.data) {
      ContentHasRow(db, r);
      if r.name == row.name {
        SameNameSameRow(db.secrets, r, row);
      }
    }
    forall n | n in c - {row.name} ensures exists r :: r in rows && r.name == n {
      var r := ContentHasNoOther(db, p, n);
      if r.id == row.id {
        SameIdSameRow(db.secrets, r, row);
      }
      assert r in rows;
    }
    ContentIs(rows, c - {row.name});
  }

  // ---- Update and key merge ----

  /** `row` is a listed row with an assigned name and data that the schema allows. */
  ghost predicate IsEditOf(db: Db, stored: SecretRow, row: SecretRow) {
    && stored in db.secrets && row == stored.(name := row.name, data := row.data) && RowOk(row)
    && forall r | r in db.secrets && r.projectId == row.projectId && r.name == row.name :: r.id == row.id
  }

  function Written(db: Db, row: SecretRow): Db {
    WithCurrentHash(db.(secrets := UpdatedRows(db.secrets, row, row.version)), row.projectId,
                    ComputeSecretsHash(Bodies(UpdatedRows(RowsOf(db.secrets, row.projectId), row, row.version))))
  }

  ghost function ContentAfterEdit(c: Content, stored: SecretRow, row: SecretRow): Content
    requires UniqueKeys(row.data)
  {
    (c - {stored.name})[row.name := MapOf(row.data)]
  }

  lemma EditedMatchesUpdated(db: Db, stored: SecretRow, row: SecretRow)
    requires Schema(db) && IsEditOf(db, stored, row)
    ensures Bodies(Edited(RowsOf(db.secrets, row.projectId), row.id, row.name, row.data))
         == Bodies(UpdatedRows(RowsOf(db.secrets, row.projectId), row, row.version))
  {
    var list := RowsOf(db.secrets, row.projectId);
    forall i | 0 <= i < |list| ensures list[i].id == row.id <==> Matches(list[i], row, row.version) {
      assert list[i] in list;
      if list[i].id == row.id {
        SameIdSameRow(db.secrets, list[i], stored);
      }
    }
  }

  /** The conditional write lands exactly when the stored version is the expected one. */
  lemma WriteRowResult(db: Db, stored: SecretRow, row: SecretRow, version: nat)
    requires Schema(db) && IsEditOf(db, stored, row)
    ensures WriteRow(db, RowsOf(db.secrets, row.projectId), row, version)
         == if version == stored.version then (Written(db, row), Done) else (db, Conflict)
  {
    EditedMatchesUpdated(db, stored, row);
    var hash := ComputeSecretsHash(Bodies(UpdatedRows(RowsOf(db.secrets, row.projectId), row, row.version)));
    UpdateTxResult(db, stored, row, version, hash);
  }

  lemma UpdateTxResult(db: Db, stored: SecretRow, row: SecretRow, version: nat, hash: Digest)
    requires UniqueRows(db.secrets) && IsEditOf(db, stored, row)
    ensures UpdateTx(db, row, version, hash)
         == if version == stored.version
            then Ok((WithCurrentHash(db.(secrets := UpdatedRows(db.secrets, row, version)), row.projectId, hash), Updated))
            else Ok((db, VersionConflict))
  {
    if version == stored.version {
      assert Matches(stored, row, version);
    } else {
      forall r | r in db.secrets ensures !Matches(r, row, version) {
        if r.id == row.id {
          SameIdSameRow(db.secrets, r, stored);
        }
      }
    }
  }

  lemma WrittenKeeps(db: Db, stored: SecretRow, row: SecretRow)
    requires Consistent(db) && IsEditOf(db, stored, row) && WellFormed(Stored(db, row.projectId))
    ensures Consistent(Written(db, row)) && EditedOnly(db, Written(db, row), row.projectId)
    ensures Written(db, row).secrets == UpdatedRows(db.secrets, row, row.version)
    ensures WellFormed(Stored(Written(db, row), row.projectId))
    ensures ContentOf(Stored(Written(db, row), row.projectId)) == ContentAfterEdit(ContentOf(Stored(db, row.projectId)), stored, row)
  {
    var rows, p := UpdatedRows(db.secrets, row, row.version), row.projectId;
    UpdatedRowsUnique(db.secrets, row, row.version);
    UpdatedSchema(db, row);
    OtherProjectsNotUpdated(db, row);
    RowsOfUpdated(db.secrets, row, row.version, p);
    HashWritten(db, rows, p, RowsOf(rows, p));
    UpdatedContent(db, stored, row);
  }

  lemma OtherProjectsNotUpdated(db: Db, row: SecretRow)
    ensures forall q | q != row.projectId ::
              RowsOf(UpdatedRows(db.secrets, row, row.version), q) == RowsOf(db.secrets, q)
  {
    forall q | q != row.projectId
      ensures RowsOf(UpdatedRows(db.secrets, row, row.version), q) == RowsOf(db.secrets, q)
    {
      RowsOfUpdated(db.secrets, row, row.version, q);
      NothingMatches(RowsOf(db.secrets, q), row, row.version);
    }
  }

  lemma NothingMatches(rows: seq<SecretRow>, row: SecretRow, version: nat)
    requires forall r | r in rows :: r.projectId != row.projectId
    ensures UpdatedRows(rows, row, version) == rows
  {
    assert forall i | 0 <= i < |rows| :: rows[i] in rows;
  }

  lemma UpdatedSchema(db: Db, row: SecretRow)
    requires Schema(db) && RowOk(row) && UniqueRows(UpdatedRows(db.secrets, row, row.version))
    ensures Schema(db.(secrets := UpdatedRows(db.secrets, row, row.version)))
  {
    var u := UpdatedRows(db.secrets, row, row.version);
    forall r | r in u ensures r.projectId in db.projects && RowOk(r) {
      var i :| 0 <= i < |u| && u[i] == r;
      assert db.secrets[i] in db.secrets;
    }
  }

  lemma UpdatedContent(db: Db, stored: SecretRow, row: SecretRow)
    requires Schema(db) && IsEditOf(db, stored, row) && WellFormed(Stored(db, row.projectId))
    requires Schema(db.(secrets := UpdatedRows(db.secrets, row, row.version)))
    ensures var after := db.(secrets := UpdatedRows(db.secrets, row, row.version));
            WellFormed(Stored(after, row.projectId))
            && ContentOf(Stored(after, row.projectId)) == ContentAfterEdit(ContentOf(Stored(db, row.projectId)), stored, row)
  {
    var after := db.(secrets := UpdatedRows(db.secrets, row, row.version));
    StoredIsWellFormed(after, row.projectId);
    var d := ContentAfterEdit(ContentOf(Stored(db, row.projectId)), stored, row);
    var rows := RowsOf(after.secrets, row.projectId);
    forall r | r in rows ensures UniqueKeys(r.data) && r.name in d && d[r.name] == MapOf(r.data) {
      UpdatedRowComesFrom(db, stored, row, r);
    }
    forall n | n in d ensures exists r :: r in rows && r.name == n {
      var r := UpdatedRowNamed(db, stored, row, n);
      assert r in rows;
    }
    ContentIs(rows, d);
  }

  /** A row after the statement is one it did not match, or the stored row with the new name and data. */
  lemma UpdatedRowIs(db: Db, stored: SecretRow, row: SecretRow, r: SecretRow) returns (was: SecretRow)
    requires Schema(db) && IsEditOf(db, stored, row)
    requires r in UpdatedRows(db.secrets, row, row.version) && r.projectId == row.projectId
    ensures was in db.secrets && was.projectId == row.projectId
    ensures if was.id == row.id then r.name == row.name && r.data == row.data else r == was && was.name != stored.name && was.name != row.name
  {
    var u := UpdatedRows(db.secrets, row, row.version);
    var i :| 0 <= i < |u| && u[i] == r;
    was := db.secrets[i];
    assert was in db.secrets;
    if was.id != row.id && was.name == stored.name {
      SameNameSameRow(db.secrets, was, stored);
    }
    if was.id == row.id {
      SameIdSameRow(db.secrets, was, stored);
    }
  }

  lemma UpdatedRowComesFrom(db: Db, stored: SecretRow, row: SecretRow, r: SecretRow)
    requires Schema(db) && IsEditOf(db, stored, row) && WellFormed(Stored(db, row.projectId))
    requires r in UpdatedRows(db.secrets, row, row.version) && r.projectId == row.projectId && RowOk(r)
    ensures var d := ContentAfterEdit(ContentOf(Stored(db, row.projectId)), stored, row);
            r.name in d && d[r.name] == MapOf(r.data)
  {
    var was := UpdatedRowIs(db, stored, row, r);
    if was.id != row.id {
      ContentHasRow(db, was);
    }
  }

  lemma UpdatedRowNamed(db: Db, stored: SecretRow, row: SecretRow, n: JsString) returns (r: SecretRow)
    requires Schema(db) && IsEditOf(db, stored, row) && WellFormed(Stored(db, row.projectId))
    requires n in ContentAfterEdit(ContentOf(Stored(db, row.projectId)), stored, row)
    ensures r in UpdatedRows(db.secrets, row, row.version) && r.projectId == row.projectId && r.name == n
  {
    var was := stored;
    if n != row.name {
      was := ContentHasNoOther(db, row.projectId, n);
      if was.id == row.id {
        SameIdSameRow(db.secrets, was, stored);
      }
    }
    var i :| 0 <= i < |db.secrets| && db.secrets[i] == was;
    r := UpdatedRows(db.secrets, row, row.version)[i];
  }

  lemma FindFinds(db: Db, stored: SecretRow)
    requires Schema(db) && stored in db.secrets
    ensures Find(RowsOf(db.secrets, stored.projectId), stored.id) == Some(stored)
  {
    var found := Find(RowsOf(db.secrets, stored.projectId), stored.id);
    assert stored in RowsOf(db.secrets, stored.projectId);
    SameIdSameRow(db.secrets, found.value, stored);
  }

  /** The rows after one was given another name, data and version. */
  ghost predicate OneRowEdited(before: seq<SecretRow>, after: seq<SecretRow>, id: SecretId, row: SecretRow) {
    && |after| == |before|
    && forall i | 0 <= i < |before| :: after[i] == if before[i].id == id then row else before[i]
  }

  /** What a full update of a stored secret is told, given the name and the data it asks for. */
  ghost function UpdateOutcome(db: Db, stored: SecretRow, name: JsString, data: Data, version: nat): Outcome
    requires WellFormed(Stored(db, stored.projectId))
  {
    if !Validate(name, data) then Invalid
    else if name != stored.name && name in ContentOf(Stored(db, stored.projectId)) then NameConflict
    else if version != stored.version then Conflict
    else Done
  }

  /**
   * A full update of a stored secret succeeds exactly when it is valid, its new name is free and the client's version is
   * the stored one. The row then has the name and the data of the request, the stored ones where the request has none,
   * and the next version; no other row changes. Otherwise nothing changes.
   */
  lemma UpdateChangesOneSecret(db: Db, stored: SecretRow, newName: Option<JsString>, newData: Option<Data>, version: nat)
    requires Consistent(db) && stored in db.secrets && WellFormed(Stored(db, stored.projectId))
    requires newData.Some? ==> UniqueKeys(newData.value)
    requires version >= 1 && (newName.Some? || newData.Some?)
    ensures var name, data := if newName.Some? then newName.value else stored.name, if newData.Some? then newData.value else stored.data;
            var (after, outcome) := UpdateSection(db, stored.projectId, stored.id, newName, newData, version);
            && UniqueKeys(data) && outcome == UpdateOutcome(db, stored, name, data, version)
            && (if outcome == Done then EditsOneSecret(db, after, stored, name, data) else after == db)
  {
    var row := NewBody(stored, newName, newData);
    UpdateResult(db, stored, newName, newData, version);
    if UpdateOutcome(db, stored, row.name, row.data, version) == Done {
      NameIsFree(db, stored, row.name);
      WrittenEdits(db, stored, row);
    }
  }

  /** The stored row has this name and data and the next version, the content follows, and nothing else changed. */
  ghost predicate EditsOneSecret(before: Db, after: Db, stored: SecretRow, name: JsString, data: Data)
    requires WellFormed(Stored(before, stored.projectId)) && UniqueKeys(data)
  {
    && Consistent(after) && EditedOnly(before, after, stored.projectId)
    && OneRowEdited(before.secrets, after.secrets, stored.id, SecretRow(stored.id, stored.projectId, name, data, stored.version + 1))
    && WellFormed(Stored(after, stored.projectId))
    && ContentOf(Stored(after, stored.projectId)) == (ContentOf(Stored(before, stored.projectId)) - {stored.name})[name := MapOf(data)]
  }

  lemma WrittenEdits(db: Db, stored: SecretRow, row: SecretRow)
    requires Consistent(db) && IsEditOf(db, stored, row) && WellFormed(Stored(db, row.projectId))
    ensures EditsOneSecret(db, Written(db, row), stored, row.name, row.data)
  {
    WrittenKeeps(db, stored, row);
    UpdatedOneRow(db, stored, row);
  }

  lemma UpdatedOneRow(db: Db, stored: SecretRow, row: SecretRow)
    requires UniqueRows(db.secrets) && stored in db.secrets && row == stored.(name := row.name, data := row.data)
    ensures OneRowEdited(db.secrets, UpdatedRows(db.secrets, row, row.version), stored.id, row.(version := row.version + 1))
  {
    forall i | 0 <= i < |db.secrets| ensures db.secrets[i].id == stored.id ==> db.secrets[i] == stored {
      assert db.secrets[i] in db.secrets;
    }
  }

  /** A full update that names no version or nothing to change, no project or no secret of it, changes nothing. */
  lemma UpdateMisses(db: Db, p: ProjectId, id: SecretId, newName: Option<JsString>, newData: Option<Data>, version: nat)
    requires version < 1 || (newName.None? && newData.None?) || p !in db.projects || forall r | r in db.secrets && r.projectId == p :: r.id != id
    ensures UpdateSection(db, p, id, newName, newData, version)
         == (db, if version < 1 || (newName.None? && newData.None?) then Invalid else if p !in db.projects then ProjectNotFound else SecretNotFound)
  {
  }

  lemma UpdateResult(db: Db, stored: SecretRow, newName: Option<JsString>, newData: Option<Data>, version: nat)
    requires Schema(db) && stored in db.secrets && WellFormed(Stored(db, stored.projectId))
    requires newData.Some? ==> UniqueKeys(newData.value)
    requires version >= 1 && (newName.Some? || newData.Some?)
    ensures var row := NewBody(stored, newName, newData);
            var outcome := UpdateOutcome(db, stored, row.name, row.data, version);
            UpdateSection(db, stored.projectId, stored.id, newName, newData, version) == (if outcome == Done then Written(db, row) else db, outcome)
  {
    FindFinds(db, stored);
    UpdateListedResult(db, stored, NewBody(stored, newName, newData), version);
  }

  /** Only the stored version lets a full update succeed. */
  lemma UpdateNeedsVersion(db: Db, stored: SecretRow, newName: Option<JsString>, newData: Option<Data>, version: nat)
    requires Schema(db) && stored in db.secrets && WellFormed(Stored(db, stored.projectId)) && (newData.Some? ==> UniqueKeys(newData.value))
    requires version >= 1 && (newName.Some? || newData.Some?)
    requires UpdateSection(db, stored.projectId, stored.id, newName, newData, version).1 == Done
    ensures version == stored.version
  {
    var row := NewBody(stored, newName, newData);
    UpdateResult(db, stored, newName, newData, version);
    assert UpdateOutcome(db, stored, row.name, row.data, version) == Done;
  }

  lemma UpdateListedResult(db: Db, stored: SecretRow, row: SecretRow, version: nat)
    requires Schema(db) && stored in db.secrets && WellFormed(Stored(db, stored.projectId))
    requires row == stored.(name := row.name, data := row.data) && UniqueKeys(row.data)
    ensures var outcome := UpdateOutcome(db, stored, row.name, row.data, version);
            UpdateListed(db, RowsOf(db.secrets, stored.projectId), stored, row, version) == (if outcome == Done then Written(db, row) else db, outcome)
  {
    NameIsFree(db, stored, row.name);
    if Validate(row.name, row.data) && (row.name == stored.name || row.name !in ContentOf(Stored(db, stored.projectId))) {
      WriteRowResult(db, stored, row, version);
    }
  }

  lemma NameIsFree(db: Db, stored: SecretRow, name: JsString)
    requires Schema(db) && stored in db.secrets && WellFormed(Stored(db, stored.projectId))
    ensures (name == stored.name || name !in ContentOf(Stored(db, stored.projectId)))
       <==> !(name != stored.name && exists r :: r in RowsOf(db.secrets, stored.projectId) && r.id != stored.id && r.name == name)
    ensures name == stored.name || name !in ContentOf(Stored(db, stored.projectId)) ==>
              forall r | r in db.secrets && r.projectId == stored.projectId && r.name == name :: r.id == stored.id
  {
    NameIsTaken(db, stored.projectId, name);
    forall r | r in db.secrets && r.projectId == stored.projectId && r.name == name
      ensures name == stored.name ==> r.id == stored.id
      ensures name in ContentOf(Stored(db, stored.projectId))
    {
      ContentHasRow(db, r);
      if name == stored.name {
        SameNameSameRow(db.secrets, r, stored);
      }
    }
    if name != stored.name && name in ContentOf(Stored(db, stored.projectId)) {
      var r := ContentHasNoOther(db, stored.projectId, name);
      if r.id == stored.id {
        SameIdSameRow(db.secrets, r, stored);
      }
      assert r in RowsOf(db.secrets, stored.projectId);
    }
  }

  // ---- Partial key merge ----

  function Merged(stored: SecretRow, key: JsString, value: JsString): SecretRow {
    stored.(data := WithKey(stored.data, key, value))
  }

  /** Between cooperating writers a merge of a listed secret always lands, and changes that one key. */
  lemma MergeChangesOneKey(db: Db, stored: SecretRow, key: JsString, value: JsString)
    requires Consistent(db) && stored in db.secrets && key != [] && WellFormed(Stored(db, stored.projectId))
    ensures var (after, outcome) := MergeSection(db, stored.projectId, stored.id, key, value, Quiet(db));
            var c := ContentOf(Stored(db, stored.projectId));
            && outcome == Done && UniqueKeys(WithKey(stored.data, key, value)) && stored.name in c
            && EditsOneSecret(db, after, stored, stored.name, WithKey(stored.data, key, value))
            && ContentOf(Stored(after, stored.projectId)) == c[stored.name := c[stored.name][key := value]]
  {
    MergeResult(db, stored, key, value);
    MergedIsEdit(db, stored, key, value);
    WrittenEdits(db, stored, Merged(stored, key, value));
    MergedContent(db, stored, key, value);
  }

  /** A merge without a key, of no project or of no secret of it, changes nothing. */
  lemma MergeMisses(db: Db, p: ProjectId, id: SecretId, key: JsString, value: JsString)
    requires key == [] || p !in db.projects || forall r | r in db.secrets && r.projectId == p :: r.id != id
    ensures MergeSection(db, p, id, key, value, Quiet(db))
         == (db, if key == [] then Invalid else if p !in db.projects then ProjectNotFound else SecretNotFound)
  {
    if key != [] && p in db.projects {
      assert Quiet(db)[0] in Quiet(db);
      FirstAttemptDecides(Quiet(db), p, id, key, value, 0);
    }
  }

  lemma MergedContent(db: Db, stored: SecretRow, key: JsString, value: JsString)
    requires Schema(db) && stored in db.secrets && WellFormed(Stored(db, stored.projectId))
    ensures var c := ContentOf(Stored(db, stored.projectId));
            && UniqueKeys(Merged(stored, key, value).data) && stored.name in c
            && ContentAfterEdit(c, stored, Merged(stored, key, value)) == c[stored.name := c[stored.name][key := value]]
  {
    ContentHasRow(db, stored);
    WithKeyChangesOneKey(stored.data, key, value);
  }

  lemma MergedIsEdit(db: Db, stored: SecretRow, key: JsString, value: JsString)
    requires Schema(db) && stored in db.secrets && key != []
    ensures IsEditOf(db, stored, Merged(stored, key, value))
  {
    WithKeyEntries(stored.data, key, value);
    forall r | r in db.secrets && r.projectId == stored.projectId && r.name == stored.name ensures r.id == stored.id {
      SameNameSameRow(db.secrets, r, stored);
    }
  }

  lemma MergeAttemptResult(db: Db, stored: SecretRow, key: JsString, value: JsString)
    requires Schema(db) && stored in db.secrets && key != []
    ensures MergeAttempt(Turn(db, db, db), stored.projectId, stored.id, key, value) == (Written(db, Merged(stored, key, value)), Done)
  {
    FindFinds(db, stored);
    MergedIsEdit(db, stored, key, value);
    WriteRowResult(db, stored, Merged(stored, key, value), stored.version);
  }

  /** With nobody ignoring the lock the first attempt writes into what it read. */
  lemma MergeResult(db: Db, stored: SecretRow, key: JsString, value: JsString)
    requires Consistent(db) && stored in db.secrets && key != []
    ensures MergeSection(db, stored.projectId, stored.id, key, value, Quiet(db)) == (Written(db, Merged(stored, key, value)), Done)
  {
    MergeAttemptResult(db, stored, key, value);
    assert Quiet(db)[0] in Quiet(db);
    FirstAttemptDecides(Quiet(db), stored.projectId, stored.id, key, value, 0);
  }

  lemma FirstAttemptDecides(turns: seq<Turn>, p: ProjectId, id: SecretId, key: JsString, value: JsString, first: nat)
    requires first < |turns| && MergeAttempt(turns[first], p, id, key, value).1 != Conflict
    ensures MergeAttempts(p, id, key, value, turns, first) == MergeAttempt(turns[first], p, id, key, value)
  {
  }

  /** A writer that ignores the lock but bumps the version of every row it changes. */
  ghost predicate BumpsVersions(before: Db, after: Db) {
    forall r, t | r in before.secrets && t in after.secrets && r.id == t.id && r.version == t.version :: r == t
  }

  /** `after` is `before` with the merge of one stored row, and a new hash on its project. */
  ghost predicate OnlyMerged(before: Db, after: Db, stored: SecretRow, key: JsString, value: JsString) {
    && stored in before.secrets
    && after.secrets == UpdatedRows(before.secrets, Merged(stored, key, value), stored.version)
    && exists hash :: after == WithCurrentHash(before.(secrets := after.secrets), stored.projectId, hash)
  }

  /** In one attempt the other writer bumps versions, and the tables it leaves for the statement have unique keys. */
  ghost predicate Bumps(turn: Turn) {
    BumpsVersions(turn.read, turn.write) && UniqueRows(turn.write.secrets)
  }

  /** The row an attempt lists was overtaken before its conditional statement, and still exists when the status is read. */
  ghost predicate Lost(turn: Turn, p: ProjectId, id: SecretId) {
    var row := Find(RowsOf(turn.read.secrets, p), id);
    && row.Some? && row.value !in turn.write.secrets
    && exists r :: r in turn.status.secrets && r.id == id && r.projectId == p
  }

  /** What one attempt leaves: exactly its merge of the row it listed, or the tables as the other writer left them. */
  lemma AttemptMergesOrLeaves(turn: Turn, p: ProjectId, id: SecretId, key: JsString, value: JsString)
    requires Bumps(turn)
    ensures var (after, outcome) := MergeAttempt(turn, p, id, key, value);
            var row := Find(RowsOf(turn.read.secrets, p), id);
            && (outcome == Done <==> row.Some? && row.value in turn.write.secrets)
            && (outcome == Done ==> OnlyMerged(turn.write, after, row.value, key, value))
            && (outcome != Done ==> after == if row.None? then turn.read else turn.status)
            && (outcome == Conflict <==> Lost(turn, p, id))
  {
    var row := Find(RowsOf(turn.read.secrets, p), id);
    if row.Some? {
      if row.value in turn.write.secrets {
        AttemptLands(turn, row.value, key, value);
      } else {
        AttemptMisses(turn, row.value, key, value);
      }
    }
  }

  lemma AttemptLands(turn: Turn, row: SecretRow, key: JsString, value: JsString)
    requires Find(RowsOf(turn.read.secrets, row.projectId), row.id) == Some(row)
    requires UniqueRows(turn.write.secrets) && row in turn.write.secrets
    ensures var (after, outcome) := MergeAttempt(turn, row.projectId, row.id, key, value);
            outcome == Done && OnlyMerged(turn.write, after, row, key, value)
  {
    var hash := ComputeSecretsHash(Bodies(Edited(RowsOf(turn.read.secrets, row.projectId), row.id, row.name, WithKey(row.data, key, value))));
    UpdateLands(turn.write, row, Merged(row, key, value), hash);
    assert MergeAttempt(turn, row.projectId, row.id, key, value).0
        == WithCurrentHash(turn.write.(secrets := UpdatedRows(turn.write.secrets, Merged(row, key, value), row.version)), row.projectId, hash);
  }

  lemma AttemptMisses(turn: Turn, row: SecretRow, key: JsString, value: JsString)
    requires Find(RowsOf(turn.read.secrets, row.projectId), row.id) == Some(row)
    requires BumpsVersions(turn.read, turn.write) && row !in turn.write.secrets
    ensures MergeAttempt(turn, row.projectId, row.id, key, value) == (turn.status, OutcomeOf(StatusOf(turn.status, row)))
  {
    var merged := Merged(row, key, value);
    assert forall r | r in turn.write.secrets :: !Matches(r, merged, row.version);
    assert StatusOf(turn.status, merged) == StatusOf(turn.status, row);
  }

  lemma UpdateLands(db: Db, stored: SecretRow, row: SecretRow, hash: Digest)
    requires UniqueRows(db.secrets) && stored in db.secrets && row == stored.(data := row.data)
    ensures UpdateStatement(db, row, stored.version, hash)
         == Ok(Some(WithCurrentHash(db.(secrets := UpdatedRows(db.secrets, row, stored.version)), row.projectId, hash)))
  {
    assert Matches(stored, row, stored.version);
    forall r | r in db.secrets && r.projectId == row.projectId && r.name == row.name ensures r.id == row.id {
      SameNameSameRow(db.secrets, r, stored);
    }
  }

  /** A retry ends with the first attempt that does not conflict, or with the last one. */
  lemma {:induction false} LastAttempt(run: Turn -> (Db, Outcome), turns: seq<Turn>, first: nat) returns (k: nat)
    requires first < |turns|
    ensures first <= k < |turns| && Retried(run, turns, first) == run(turns[k])
    ensures forall j | first <= j < k :: run(turns[j]).1 == Conflict
    ensures k == |turns| - 1 || run(turns[k]).1 != Conflict
    decreases |turns| - first
  {
    k := first;
    if run(turns[first]).1 == Conflict && first + 1 < |turns| {
      k := LastAttempt(run, turns, first + 1);
    }
  }

  /** What an attempt did, given the row it listed. */
  ghost predicate MergedOrLeft(turn: Turn, p: ProjectId, id: SecretId, key: JsString, value: JsString, result: (Db, Outcome)) {
    var row := Find(RowsOf(turn.read.secrets, p), id);
    && (result.1 == Done ==> row.Some? && OnlyMerged(turn.write, result.0, row.value, key, value))
    && (result.1 != Done ==> result.0 == if row.None? then turn.read else turn.status)
    && (result.1 == Conflict <==> Lost(turn, p, id))
  }

  ghost predicate MergesOrLeaves(run: Turn -> (Db, Outcome), p: ProjectId, id: SecretId, key: JsString, value: JsString) {
    forall turn | Bumps(turn) :: MergedOrLeft(turn, p, id, key, value, run(turn))
  }

  lemma EveryAttemptMergesOrLeaves(p: ProjectId, id: SecretId, key: JsString, value: JsString)
    ensures MergesOrLeaves(turn => MergeAttempt(turn, p, id, key, value), p, id, key, value)
  {
    forall turn | Bumps(turn) ensures MergedOrLeft(turn, p, id, key, value, MergeAttempt(turn, p, id, key, value)) {
      AttemptMergesOrLeaves(turn, p, id, key, value);
    }
  }

  lemma RetriedMergesOrLeaves(run: Turn -> (Db, Outcome), p: ProjectId, id: SecretId, key: JsString, value: JsString, turns: seq<Turn>, first: nat)
    returns (k: nat)
    requires first < |turns| && (forall t | t in turns :: Bumps(t)) && MergesOrLeaves(run, p, id, key, value)
    ensures first <= k < |turns| && forall j | first <= j < k :: Lost(turns[j], p, id)
    ensures MergedOrLeft(turns[k], p, id, key, value, Retried(run, turns, first))
    ensures Retried(run, turns, first).1 == Conflict <==> forall j | first <= j < |turns| :: Lost(turns[j], p, id)
  {
    k := LastAttempt(run, turns, first);
    forall j | first <= j < |turns| ensures MergedOrLeft(turns[j], p, id, key, value, run(turns[j])) {
      assert turns[j] in turns;
    }
  }

  /**
   * Against a writer that ignores the lock but bumps versions, whatever it does at any read or write of any attempt, the
   * retry ends with some attempt `k`, every earlier one lost. On success the row is what was stored immediately before
   * the conditional write of that attempt, with only the chosen key changed; on failure this request wrote nothing, and
   * the tables are the ones its last step saw.
   */
  lemma RetryMergesOrLeaves(p: ProjectId, id: SecretId, key: JsString, value: JsString, turns: seq<Turn>, first: nat) returns (k: nat)
    requires first < |turns| && forall t | t in turns :: Bumps(t)
    ensures first <= k < |turns| && forall j | first <= j < k :: Lost(turns[j], p, id)
    ensures var (after, outcome) := MergeAttempts(p, id, key, value, turns, first);
            var row := Find(RowsOf(turns[k].read.secrets, p), id);
            && (outcome == Done ==> row.Some? && OnlyMerged(turns[k].write, after, row.value, key, value))
            && (outcome != Done ==> after == if row.None? then turns[k].read else turns[k].status)
  {
    EveryAttemptMergesOrLeaves(p, id, key, value);
    k := RetriedMergesOrLeaves(turn => MergeAttempt(turn, p, id, key, value), p, id, key, value, turns, first);
  }

  /** The merge gives up exactly when every one of its attempts was overtaken. */
  lemma ConflictNeedsThreeLosses(p: ProjectId, id: SecretId, key: JsString, value: JsString, turns: seq<Turn>, first: nat)
    requires first < |turns| && forall t | t in turns :: Bumps(t)
    ensures MergeAttempts(p, id, key, value, turns, first).1 == Conflict <==> forall j | first <= j < |turns| :: Lost(turns[j], p, id)
  {
    EveryAttemptMergesOrLeaves(p, id, key, value);
    var k := RetriedMergesOrLeaves(turn => MergeAttempt(turn, p, id, key, value), p, id, key, value, turns, first);
  }
}
