/** What the schema and the write sections keep true of the tables. */
module SecretsDataFacts {
  import opened JsStrings
  import opened Model
  import opened SecretsHash
  import opened SecretsData
  import opened SecretNames

  ghost predicate UniqueRows(rows: seq<SecretRow>) {
    forall i, j | 0 <= i < j < |rows| ::
      && rows[i].id != rows[j].id
      && (rows[i].projectId == rows[j].projectId ==> rows[i].name != rows[j].name)
  }

  ghost predicate RowOk(r: SecretRow) {
    UniqueKeys(r.data) && HasKeys(r.data) && IsValidName(r.name) && r.version >= 1
  }

  /** Primary key, unique (project, name) index, foreign key, and rows every writer validated. */
  ghost predicate Schema(db: Db) {
    && UniqueRows(db.secrets)
    && forall r | r in db.secrets :: r.projectId in db.projects && RowOk(r)
  }

  /** The stored current hash is the canonical hash of the stored secrets. */
  ghost predicate HashesCurrent(db: Db) {
    forall p | p in db.projects :: db.projects[p].currentContentHash == Some(ComputeSecretsHash(Stored(db, p)))
  }

  ghost predicate Consistent(db: Db) {
    Schema(db) && HashesCurrent(db)
  }

  // ---- Row filters ----

  lemma RowsOfAppend(rows: seq<SecretRow>, x: SecretRow, p: ProjectId)
    ensures RowsOf(rows + [x], p) == RowsOf(rows, p) + (if x.projectId == p then [x] else [])
  {
    assert (rows + [x])[..|rows|] == rows;
  }

  lemma {:induction false} RowsOfConcat(rows: seq<SecretRow>, more: seq<SecretRow>, p: ProjectId)
    ensures RowsOf(rows + more, p) == RowsOf(rows, p) + RowsOf(more, p)
  {
    if more == [] {
      assert rows + more == rows;
    } else {
      var init, x := more[..|more| - 1], more[|more| - 1];
      assert rows + more == (rows + init) + [x] && more == init + [x];
      RowsOfConcat(rows, init, p);
      RowsOfAppend(rows + init, x, p);
      RowsOfAppend(init, x, p);
    }
  }

  lemma {:induction false} RowsOfOneProject(rows: seq<SecretRow>, q: ProjectId, p: ProjectId)
    requires forall r | r in rows :: r.projectId == q
    ensures RowsOf(rows, p) == if p == q then rows else []
  {
    if rows != [] {
      RowsOfOneProject(rows[..|rows| - 1], q, p);
      assert rows[|rows| - 1] in rows;
      assert rows == rows[..|rows| - 1] + [rows[|rows| - 1]];
    }
  }

  lemma {:induction false} RowsOfUpdated(rows: seq<SecretRow>, row: SecretRow, v: nat, p: ProjectId)
    ensures RowsOf(UpdatedRows(rows, row, v), p) == UpdatedRows(RowsOf(rows, p), row, v)
  {
    if rows == [] {
      assert UpdatedRows(rows, row, v) == [] && UpdatedRows([], row, v) == [];
    } else {
      var init, x := rows[..|rows| - 1], rows[|rows| - 1];
      RowsOfUpdated(init, row, v, p);
      var y := UpdatedRows([x], row, v)[0];
      assert UpdatedRows(rows, row, v) == UpdatedRows(init, row, v) + [y];
      RowsOfAppend(UpdatedRows(init, row, v), y, p);
      assert UpdatedRows(RowsOf(init, p) + [x], row, v) == UpdatedRows(RowsOf(init, p), row, v) + [y];
    }
  }

  lemma {:induction false} RowsOfWithoutId(rows: seq<SecretRow>, id: SecretId, p: ProjectId)
    ensures RowsOf(WithoutId(rows, id), p) == WithoutId(RowsOf(rows, p), id)
  {
    if rows != [] {
      var init, x := rows[..|rows| - 1], rows[|rows| - 1];
      RowsOfWithoutId(init, id, p);
      RowsOfAppend(WithoutId(init, id), x, p);
      assert (RowsOf(init, p) + [x])[..|RowsOf(init, p)|] == RowsOf(init, p);
    }
  }

  lemma {:induction false} RowsOfWithoutProject(rows: seq<SecretRow>, q: ProjectId, p: ProjectId)
    ensures RowsOf(WithoutProject(rows, q), p) == if p == q then [] else RowsOf(rows, p)
  {
    if rows != [] {
      var init, x := rows[..|rows| - 1], rows[|rows| - 1];
      RowsOfWithoutProject(init, q, p);
      RowsOfAppend(WithoutProject(init, q), x, p);
    }
  }

  lemma UniqueAppend(rows: seq<SecretRow>, x: SecretRow)
    requires UniqueRows(rows)
    requires forall r | r in rows :: r.id != x.id && (r.projectId == x.projectId ==> r.name != x.name)
    ensures UniqueRows(rows + [x])
  {
  }

  lemma {:induction false} RowsOfUnique(rows: seq<SecretRow>, p: ProjectId)
    requires UniqueRows(rows)
    ensures UniqueRows(RowsOf(rows, p))
  {
    if rows != [] {
      var init, x := rows[..|rows| - 1], rows[|rows| - 1];
      RowsOfUnique(init, p);
      if x.projectId == p {
        UniqueAppend(RowsOf(init, p), x);
      }
    }
  }

  lemma {:induction false} WithoutIdUnique(rows: seq<SecretRow>, id: SecretId)
    requires UniqueRows(rows)
    ensures UniqueRows(WithoutId(rows, id))
  {
    if rows != [] {
      var init, x := rows[..|rows| - 1], rows[|rows| - 1];
      WithoutIdUnique(init, id);
      if x.id != id {
        UniqueAppend(WithoutId(init, id), x);
      }
    }
  }

  lemma {:induction false} WithoutProjectUnique(rows: seq<SecretRow>, p: ProjectId)
    requires UniqueRows(rows)
    ensures UniqueRows(WithoutProject(rows, p))
  {
    if rows != [] {
      var init, x := rows[..|rows| - 1], rows[|rows| - 1];
      WithoutProjectUnique(init, p);
      if x.projectId != p {
        UniqueAppend(WithoutProject(init, p), x);
      }
    }
  }

  lemma UpdatedRowsUnique(rows: seq<SecretRow>, row: SecretRow, v: nat)
    requires UniqueRows(rows)
    requires forall r | r in rows :: r.projectId == row.projectId && r.name == row.name ==> r.id == row.id
    ensures UniqueRows(UpdatedRows(rows, row, v))
  {
    var u := UpdatedRows(rows, row, v);
    forall i, j | 0 <= i < j < |u|
      ensures u[i].id != u[j].id && (u[i].projectId == u[j].projectId ==> u[i].name != u[j].name)
    {
      assert rows[i] in rows && rows[j] in rows;
    }
  }

  /** The secrets listed for a project have unique names and unique keys. */
  lemma StoredIsWellFormed(db: Db, p: ProjectId)
    requires Schema(db)
    ensures WellFormed(Stored(db, p))
  {
    var rows := RowsOf(db.secrets, p);
    RowsOfUnique(db.secrets, p);
    forall i, j | 0 <= i < j < |rows| ensures rows[i].name != rows[j].name {
      assert rows[i] in rows && rows[j] in rows;
    }
    forall s | s in Stored(db, p) ensures UniqueKeys(s.data) {
      var i :| 0 <= i < |rows| && Stored(db, p)[i] == s;
      assert rows[i] in rows;
    }
  }

  // ---- Transactions keep the schema ----

  lemma InsertedKeeps(db: Db, row: SecretRow)
    requires Schema(db) && RowOk(row) && Inserted(db, row).Ok?
    ensures Schema(Inserted(db, row).value)
    ensures forall q :: RowsOf(Inserted(db, row).value.secrets, q) == RowsOf(db.secrets, q) + (if q == row.projectId then [row] else [])
    ensures Inserted(db, row).value.projects == db.projects
  {
    UniqueAppend(db.secrets, row);
    forall q ensures RowsOf(db.secrets + [row], q) == RowsOf(db.secrets, q) + (if q == row.projectId then [row] else []) {
      RowsOfAppend(db.secrets, row, q);
    }
  }

  lemma {:induction false} InsertedAllKeeps(db: Db, rows: seq<SecretRow>)
    requires Schema(db) && InsertedAll(db, rows).Ok?
    requires forall r | r in rows :: RowOk(r)
    ensures Schema(InsertedAll(db, rows).value)
    ensures InsertedAll(db, rows).value == db.(secrets := db.secrets + rows)
  {
    if rows == [] {
      assert db.secrets + rows == db.secrets;
    } else {
      var init, x := rows[..|rows| - 1], rows[|rows| - 1];
      assert x in rows && forall r | r in init :: r in rows;
      InsertedAllKeeps(db, init);
      InsertedKeeps(InsertedAll(db, init).value, x);
      assert db.secrets + init + [x] == db.secrets + rows;
    }
  }

  /** A replacement by valid rows with unused ids of an existing project never fails. */
  lemma {:induction false} InsertedAllSucceeds(db: Db, rows: seq<SecretRow>)
    requires UniqueRows(db.secrets + rows)
    requires forall r | r in rows :: r.projectId in db.projects
    ensures InsertedAll(db, rows) == Ok(db.(secrets := db.secrets + rows))
  {
    if rows == [] {
      assert db.secrets + rows == db.secrets;
    } else {
      var init, x := rows[..|rows| - 1], rows[|rows| - 1];
      assert x in rows && forall r | r in init :: r in rows;
      var all := db.secrets + rows;
      assert forall i | 0 <= i < |db.secrets + init| :: (db.secrets + init)[i] == all[i];
      InsertedAllSucceeds(db, init);
      var d := db.(secrets := db.secrets + init);
      forall r | r in d.secrets ensures r.id != x.id && (r.projectId == x.projectId ==> r.name != x.name) {
        var i :| 0 <= i < |d.secrets| && d.secrets[i] == r;
        assert all[i] == r && all[|all| - 1] == x;
      }
      assert db.secrets + init + [x] == db.secrets + rows;
    }
  }
}
