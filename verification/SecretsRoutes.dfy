/** The write sections of the secret routes (`SecretsRoutes.ts`): each runs alone under the project write lock. */
module SecretsRoutes {
  import opened JsStrings
  import opened Model
  import opened SecretNames
  import opened SecretsHash
  import opened SecretsData

  const PARTIAL_UPDATE_ATTEMPTS := 3

  datatype Outcome = Done | Invalid | ProjectNotFound | SecretNotFound | NameConflict | Conflict | Failed

  function OutcomeOf(status: UpdateStatus): Outcome {
    match status
    case Updated => Done
    case NotFound => SecretNotFound
    case VersionConflict => Conflict
  }

  function OutcomeOfError(error: DbError): Outcome {
    if error == UniqueViolation then NameConflict else Failed
  }

  /** The listed row with this id, if any. */
  function Find(list: seq<SecretRow>, id: SecretId): (r: Option<SecretRow>)
    ensures r.Some? ==> r.value in list && r.value.id == id
    ensures r.None? ==> forall x | x in list :: x.id != id
  {
    if list == [] then None
    else if list[0].id == id then Some(list[0])
    else Find(list[1..], id)
  }

  /** The list after the handler assigned `name` and `data` on the row with this id. */
  function Edited(list: seq<SecretRow>, id: SecretId, name: JsString, data: Data): (r: seq<SecretRow>)
    ensures |r| == |list|
    ensures forall i | 0 <= i < |r| :: r[i] == if list[i].id == id then list[i].(name := name, data := data) else list[i]
  {
    seq(|list|, i requires 0 <= i < |list| => if list[i].id == id then list[i].(name := name, data := data) else list[i])
  }

  // ---- Specification of the sections ----

  function CreateSection(db: Db, p: ProjectId, id: SecretId, name: JsString, data: Data): (Db, Outcome) {
    if !Validate(name, data) then (db, Invalid)
    else if p !in db.projects then (db, ProjectNotFound)
    else
      var list := RowsOf(db.secrets, p);
      if exists r | r in list :: r.name == name then (db, NameConflict)
      else AddRow(db, list, SecretRow(id, p, name, data, 1))
  }

  /** `SecretsDataAdd` of a new row, with the hash of the list it joins. */
  function AddRow(db: Db, list: seq<SecretRow>, row: SecretRow): (Db, Outcome) {
    match AddTx(db, row, ComputeSecretsHash(Bodies(list + [row])))
    case Ok(d) => (d, Done)
    case Err(e) => (db, OutcomeOfError(e))
  }

  function UpdateSection(db: Db, p: ProjectId, id: SecretId, newName: Option<JsString>, newData: Option<Data>, version: nat): (Db, Outcome) {
    if version < 1 || (newName.None? && newData.None?) then (db, Invalid)
    else if p !in db.projects then (db, ProjectNotFound)
    else
      var list := RowsOf(db.secrets, p);
      match Find(list, id)
      case None => (db, SecretNotFound)
      case Some(stored) => UpdateListed(db, list, stored, NewBody(stored, newName, newData), version)
  }

  function NewBody(stored: SecretRow, newName: Option<JsString>, newData: Option<Data>): SecretRow {
    stored.(name := if newName.Some? then newName.value else stored.name,
            data := if newData.Some? then newData.value else stored.data)
  }

  function UpdateListed(db: Db, list: seq<SecretRow>, stored: SecretRow, row: SecretRow, version: nat): (Db, Outcome) {
    if !Validate(row.name, row.data) then (db, Invalid)
    else if row.name != stored.name && exists r | r in list :: r.id != stored.id && r.name == row.name then (db, NameConflict)
    else WriteRow(db, list, row, version)
  }

  /** `SecretsDataUpdate` of an edited row, with the hash of the edited list. */
  function WriteRow(db: Db, list: seq<SecretRow>, row: SecretRow, version: nat): (Db, Outcome) {
    WriteWithHash(db, row, version, ComputeSecretsHash(Bodies(Edited(list, row.id, row.name, row.data))))
  }

  function WriteWithHash(db: Db, row: SecretRow, version: nat, hash: Digest): (Db, Outcome) {
    GuardedWrite(db, db, row, version, hash)
  }

  /** The conditional statement runs on `write`; when it changed nothing, its status is read on `status`. */
  function GuardedWrite(write: Db, status: Db, row: SecretRow, version: nat, hash: Digest): (Db, Outcome) {
    match UpdateStatement(write, row, version, hash)
    case Ok(Some(d)) => (d, Done)
    case Ok(None) => (status, OutcomeOf(StatusOf(status, row)))
    case Err(e) => (write, OutcomeOfError(e))
  }

  function DeleteSection(db: Db, p: ProjectId, id: SecretId): (Db, Outcome) {
    if p !in db.projects then (db, ProjectNotFound)
    else
      var list := RowsOf(db.secrets, p);
      if Find(list, id).None? then (db, SecretNotFound)
      else (DeleteTx(db, id, p, ComputeSecretsHash(Bodies(WithoutId(list, id)))), Done)
  }

  /**
   * What a writer that ignores the lock leaves in the tables for one attempt of the merge: at its listing, at its
   * conditional statement, and at the read of its status.
   */
  datatype Turn = Turn(read: Db, write: Db, status: Db)

  /** Nobody ignores the lock. */
  function Quiet(db: Db): (turns: seq<Turn>)
    ensures |turns| == PARTIAL_UPDATE_ATTEMPTS && forall t | t in turns :: t == Turn(db, db, db)
  {
    seq(PARTIAL_UPDATE_ATTEMPTS, _ => Turn(db, db, db))
  }

  /** The partial merge with its bounded retry. */
  function MergeSection(db: Db, p: ProjectId, id: SecretId, key: JsString, value: JsString, turns: seq<Turn>): (Db, Outcome)
    requires |turns| == PARTIAL_UPDATE_ATTEMPTS
  {
    if key == [] then (db, Invalid)
    else if p !in db.projects then (db, ProjectNotFound)
    else MergeAttempts(p, id, key, value, turns, 0)
  }

  /** One listing, merge and conditional write. */
  function MergeAttempt(turn: Turn, p: ProjectId, id: SecretId, key: JsString, value: JsString): (Db, Outcome) {
    var list := RowsOf(turn.read.secrets, p);
    match Find(list, id)
    case None => (turn.read, SecretNotFound)
    case Some(row) =>
      var data := WithKey(row.data, key, value);
      GuardedWrite(turn.write, turn.status, row.(data := data), row.version, ComputeSecretsHash(Bodies(Edited(list, row.id, row.name, data))))
  }

  /** Up to one attempt per turn, the next one only after a conflict. */
  function Retried(attempt: Turn -> (Db, Outcome), turns: seq<Turn>, first: nat): (Db, Outcome)
    requires first < |turns|
    decreases |turns| - first
  {
    var (d, outcome) := attempt(turns[first]);
    if outcome == Conflict && first + 1 < |turns| then Retried(attempt, turns, first + 1) else (d, outcome)
  }

  function MergeAttempts(p: ProjectId, id: SecretId, key: JsString, value: JsString, turns: seq<Turn>, first: nat): (Db, Outcome)
    requires first < |turns|
  {
    Retried(turn => MergeAttempt(turn, p, id, key, value), turns, first)
  }

  // ---- The handlers ----

  method CreateSecret(db: Database, p: ProjectId, id: SecretId, name: JsString, data: Data) returns (o: Outcome)
    modifies db
    ensures (db.State(), o) == CreateSection(old(db.State()), p, id, name, data)
  {
    if !Validate(name, data) {
      return Invalid;
    }
    if p !in db.projects {
      return ProjectNotFound;
    }
    var list := db.ListForProject(p);
    if exists r | r in list :: r.name == name {
      return NameConflict;
    }
    o := SaveNewRow(db, list, SecretRow(id, p, name, data, 1));
  }

  method SaveNewRow(db: Database, list: seq<SecretRow>, row: SecretRow) returns (o: Outcome)
    modifies db
    ensures (db.State(), o) == AddRow(old(db.State()), list, row)
  {
    var joined := list + [row];
    var error := db.Add(row, ComputeSecretsHash(Bodies(joined)));
    return if error.Some? then OutcomeOfError(error.value) else Done;
  }

  method UpdateSecret(db: Database, p: ProjectId, id: SecretId, newName: Option<JsString>, newData: Option<Data>, version: nat)
    returns (o: Outcome)
    modifies db
    ensures (db.State(), o) == UpdateSection(old(db.State()), p, id, newName, newData, version)
  {
    if version < 1 || (newName.None? && newData.None?) {
      return Invalid;
    }
    if p !in db.projects {
      return ProjectNotFound;
    }
    var list := db.ListForProject(p);
    var found := Find(list, id);
    if found.None? {
      return SecretNotFound;
    }
    var secret := found.value;
    var name := if newName.Some? then newName.value else secret.name;
    if !Validate(name, if newData.Some? then newData.value else secret.data) {
      return Invalid;
    }
    if name != secret.name && exists r | r in list :: r.id != id && r.name == name {
      return NameConflict;
    }
    secret := secret.(name := name);
    if newData.Some? {
      secret := secret.(data := newData.value);
    }
    o := SaveRow(db, list, secret, version);
  }

  method SaveRow(db: Database, list: seq<SecretRow>, row: SecretRow, version: nat) returns (o: Outcome)
    modifies db
    ensures (db.State(), o) == WriteRow(old(db.State()), list, row, version)
  {
    var r := db.Update(row, version, ComputeSecretsHash(Bodies(Edited(list, row.id, row.name, row.data))));
    return if r.Err? then OutcomeOfError(r.error) else OutcomeOf(r.value);
  }

  method DeleteSecret(db: Database, p: ProjectId, id: SecretId) returns (o: Outcome)
    modifies db
    ensures (db.State(), o) == DeleteSection(old(db.State()), p, id)
  {
    if p !in db.projects {
      return ProjectNotFound;
    }
    var list := db.ListForProject(p);
    if Find(list, id).None? {
      return SecretNotFound;
    }
    db.Delete(id, p, ComputeSecretsHash(Bodies(WithoutId(list, id))));
    return Done;
  }

  method MergeKey(db: Database, p: ProjectId, id: SecretId, rawKey: JsString, value: JsString, turns: seq<Turn>) returns (o: Outcome)
    requires |turns| == PARTIAL_UPDATE_ATTEMPTS
    modifies db
    ensures (db.State(), o) == MergeSection(old(db.State()), p, id, Trim(rawKey), value, turns)
  {
    var key := Trim(rawKey);
    if key == [] {
      return Invalid;
    }
    if p !in db.projects {
      return ProjectNotFound;
    }
    o := MergeKeyWithRetry(db, p, id, key, value, turns, 0);
  }

  method MergeKeyWithRetry(db: Database, p: ProjectId, id: SecretId, key: JsString, value: JsString, turns: seq<Turn>, first: nat) returns (o: Outcome)
    requires first < |turns| == PARTIAL_UPDATE_ATTEMPTS
    modifies db
    ensures (db.State(), o) == MergeAttempts(p, id, key, value, turns, first)
  {
    ghost var run := (turn: Turn) => MergeAttempt(turn, p, id, key, value);
    ghost var goal := Retried(run, turns, first);
    for attempt := first to PARTIAL_UPDATE_ATTEMPTS
      invariant goal == if attempt < |turns| then Retried(run, turns, attempt) else (db.State(), Conflict)
    {
      o := MergeKeyOnce(db, p, id, key, value, turns[attempt]);
      if o != Conflict {
        return;
      }
    }
    return Conflict;
  }

  method MergeKeyOnce(db: Database, p: ProjectId, id: SecretId, key: JsString, value: JsString, turn: Turn) returns (o: Outcome)
    modifies db
    ensures (db.State(), o) == MergeAttempt(turn, p, id, key, value)
  {
    db.Overwrite(turn.read);
    var list := db.ListForProject(p);
    var found := Find(list, id);
    if found.None? {
      return SecretNotFound;
    }
    var secret := found.value;
    secret := secret.(data := WithKey(secret.data, key, value));
    var hash := ComputeSecretsHash(Bodies(Edited(list, secret.id, secret.name, secret.data)));
    db.Overwrite(turn.write);
    var affected := db.UpdateIfVersion(secret, secret.version, hash);
    if affected.Err? {
      return OutcomeOfError(affected.error);
    }
    if affected.value {
      return Done;
    }
    db.Overwrite(turn.status);
    return OutcomeOf(StatusOf(turn.status, secret));
  }
}
