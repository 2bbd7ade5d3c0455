/** Snapshot folders, snapshot identification and the write sections of the synchronizations (`SyncService.ts`). */
module SyncService {
  import opened JsStrings
  import opened Model
  import opened SecretNames
  import opened SecretsHash
  import opened SecretsData
  import opened Snapshots

  datatype SyncError = SnapshotNotFound | ProjectNotFound | RepositoryChanged | PreviewStale | NewerSnapshot
                     | NeverSynchronized | ConcurrentSync | InvalidContent | Unidentified | DatabaseFailure

  // ---- Snapshot folders ----

  const JSON_SUFFIX: JsString := ['.' as CodeUnit, 'j' as CodeUnit, 's' as CodeUnit, 'o' as CodeUnit, 'n' as CodeUnit]

  predicate IsJsonFile(f: SnapshotFile) {
    f.isFile && |f.fileName| >= |JSON_SUFFIX| && f.fileName[|f.fileName| - |JSON_SUFFIX|..] == JSON_SUFFIX
  }

  function SecretName(f: SnapshotFile): JsString
    requires IsJsonFile(f)
  {
    f.fileName[..|f.fileName| - |JSON_SUFFIX|]
  }

  /** The JSON files of the folder as secrets, in listing order; the first invalid name or content rejects the folder. */
  function ReadJsonFiles(files: seq<SnapshotFile>): Result<seq<Secret>, SyncError> {
    if files == [] then Ok([])
    else
      match ReadJsonFiles(files[..|files| - 1])
      case Err(e) => Err(e)
      case Ok(secrets) =>
        var f := files[|files| - 1];
        if !IsJsonFile(f) then Ok(secrets)
        else if !IsValidName(SecretName(f)) || f.data.None? then Err(InvalidContent)
        else Ok(secrets + [Secret(SecretName(f), f.data.value)])
  }

  /** A folder holding only ignored files is rejected too. */
  function SnapshotContent(files: seq<SnapshotFile>): Result<seq<Secret>, SyncError> {
    match ReadJsonFiles(files)
    case Err(e) => Err(e)
    case Ok(secrets) => if secrets == [] && exists f | f in files :: f.isFile then Err(InvalidContent) else Ok(secrets)
  }

  method ReadSnapshotSecrets(files: seq<SnapshotFile>) returns (r: Result<seq<Secret>, SyncError>)
    ensures r == SnapshotContent(files)
  {
    var secrets: seq<Secret> := [];
    for i := 0 to |files|
      invariant ReadJsonFiles(files[..i]) == Ok(secrets)
    {
      var f := files[i];
      assert files[..i + 1][..i] == files[..i];
      if !IsJsonFile(f) {
        continue;
      }
      if !IsValidName(SecretName(f)) || f.data.None? {
        ReadFailureSpreads(files, i + 1);
        return Err(InvalidContent);
      }
      secrets := secrets + [Secret(SecretName(f), f.data.value)];
    }
    assert files[..|files|] == files;
    if secrets == [] && exists f | f in files :: f.isFile {
      return Err(InvalidContent);
    }
    return Ok(secrets);
  }

  lemma {:induction false} ReadFailureSpreads(files: seq<SnapshotFile>, i: nat)
    requires i <= |files| && ReadJsonFiles(files[..i]).Err?
    ensures ReadJsonFiles(files) == ReadJsonFiles(files[..i])
  {
    if i < |files| {
      assert files[..|files| - 1][..i] == files[..i];
      ReadFailureSpreads(files[..|files| - 1], i);
    } else {
      assert files[..i] == files;
    }
  }

  /** The files a push writes: one `<name>.json` per secret. */
  function FilesOf(secrets: seq<Secret>): (files: seq<SnapshotFile>)
    ensures |files| == |secrets|
    ensures forall i | 0 <= i < |files| ::
      files[i] == SnapshotFile(secrets[i].name + JSON_SUFFIX, true, Some(secrets[i].data))
  {
    seq(|secrets|, i requires 0 <= i < |secrets| => SnapshotFile(secrets[i].name + JSON_SUFFIX, true, Some(secrets[i].data)))
  }

  /** A folder: unique file names, and own-key maps without an empty key in the files that parse. */
  ghost predicate IsFolder(files: seq<SnapshotFile>) {
    && (forall i, j | 0 <= i < j < |files| :: files[i].fileName != files[j].fileName)
    && (forall f | f in files && f.data.Some? :: UniqueKeys(f.data.value) && HasKeys(f.data.value))
  }

  ghost predicate ValidSecrets(secrets: seq<Secret>) {
    WellFormed(secrets) && forall s | s in secrets :: IsValidName(s.name) && HasKeys(s.data)
  }

  lemma ReadOneMoreFile(files: seq<SnapshotFile>, secrets: seq<Secret>, s: Secret)
    requires ReadJsonFiles(files) == Ok(secrets) && IsValidName(s.name)
    ensures ReadJsonFiles(files + [SnapshotFile(s.name + JSON_SUFFIX, true, Some(s.data))]) == Ok(secrets + [s])
  {
    var f := SnapshotFile(s.name + JSON_SUFFIX, true, Some(s.data));
    PushedFileIsReadable(s);
    assert (files + [f])[..|files|] == files;
  }

  lemma {:induction false} PushedFilesRead(secrets: seq<Secret>)
    requires forall s | s in secrets :: IsValidName(s.name)
    ensures ReadJsonFiles(FilesOf(secrets)) == Ok(secrets)
  {
    if secrets == [] {
      assert FilesOf(secrets) == [];
    } else {
      var init, s := secrets[..|secrets| - 1], secrets[|secrets| - 1];
      assert s in secrets && forall x | x in init :: x in secrets;
      PushedFilesRead(init);
      ReadOneMoreFile(FilesOf(init), init, s);
      assert secrets == init + [s];
      assert FilesOf(secrets) == FilesOf(init) + [SnapshotFile(s.name + JSON_SUFFIX, true, Some(s.data))];
    }
  }

  /** Reading back what a push wrote gives exactly the pushed secrets. */
  lemma PushedFilesReadBack(secrets: seq<Secret>)
    requires forall s | s in secrets :: IsValidName(s.name)
    ensures ReadJsonFiles(FilesOf(secrets)) == Ok(secrets) && SnapshotContent(FilesOf(secrets)) == Ok(secrets)
  {
    PushedFilesRead(secrets);
  }

  lemma PushedFileIsReadable(s: Secret)
    ensures var f := SnapshotFile(s.name + JSON_SUFFIX, true, Some(s.data)); IsJsonFile(f) && SecretName(f) == s.name
  {
    assert (s.name + JSON_SUFFIX)[|s.name|..] == JSON_SUFFIX && (s.name + JSON_SUFFIX)[..|s.name|] == s.name;
  }

  /** What is read from a folder are valid secrets with unique names, each one a JSON file of the folder. */
  lemma {:induction false} ReadSecretsAreValid(files: seq<SnapshotFile>)
    requires IsFolder(files) && ReadJsonFiles(files).Ok?
    ensures ValidSecrets(ReadJsonFiles(files).value)
    ensures forall s | s in ReadJsonFiles(files).value :: exists f :: f in files && f.fileName == s.name + JSON_SUFFIX
  {
    if files != [] {
      var init, f := files[..|files| - 1], files[|files| - 1];
      assert f in files && forall x | x in init :: x in files;
      ReadSecretsAreValid(init);
      if IsJsonFile(f) {
        assert f.fileName == SecretName(f) + JSON_SUFFIX;
        var secrets := ReadJsonFiles(init).value;
        forall i | 0 <= i < |secrets| ensures secrets[i].name != SecretName(f) {
          assert secrets[i] in secrets;
          var g :| g in init && g.fileName == secrets[i].name + JSON_SUFFIX;
        }
      }
    }
  }

  /** A regular file named `<name>.json`. */
  predicate IsSecretFile(f: SnapshotFile, name: JsString) {
    f.isFile && f.fileName == name + JSON_SUFFIX
  }

  lemma JsonFileIff(f: SnapshotFile, name: JsString)
    ensures IsSecretFile(f, name) <==> IsJsonFile(f) && SecretName(f) == name
  {
    if IsSecretFile(f, name) {
      assert f.fileName[|name|..] == JSON_SUFFIX && f.fileName[..|name|] == name;
    }
    if IsJsonFile(f) {
      assert f.fileName == SecretName(f) + JSON_SUFFIX;
    }
  }

  /** A file that names a secret has a valid name and a map of values. */
  ghost predicate IsReadable(f: SnapshotFile) {
    forall name | IsSecretFile(f, name) :: IsValidName(name) && f.data.Some?
  }

  lemma ReadableIff(f: SnapshotFile)
    ensures IsReadable(f) <==> (IsJsonFile(f) ==> IsValidName(SecretName(f)) && f.data.Some?)
  {
    forall name ensures IsSecretFile(f, name) <==> IsJsonFile(f) && SecretName(f) == name {
      JsonFileIff(f, name);
    }
  }

  /** Every regular file `<name>.json` of the folder becomes the secret of that name with its data, and nothing else does. */
  lemma {:induction false} FolderIsReadCompletely(files: seq<SnapshotFile>)
    ensures ReadJsonFiles(files).Ok? <==> forall f | f in files :: IsReadable(f)
    ensures ReadJsonFiles(files).Ok? ==>
              forall s :: s in ReadJsonFiles(files).value <==> exists f :: f in files && IsSecretFile(f, s.name) && f.data == Some(s.data)
  {
    if files != [] {
      var init, f := files[..|files| - 1], files[|files| - 1];
      FolderIsReadCompletely(init);
      assert files == init + [f];
      assert f in files && forall x | x in init :: x in files;
      ReadableIff(f);
      forall name ensures IsSecretFile(f, name) <==> IsJsonFile(f) && SecretName(f) == name {
        JsonFileIff(f, name);
      }
    }
  }

  /** A folder is refused exactly for an unreadable secret file, or when it holds regular files and none of them names a secret. */
  lemma FolderRejectedIff(files: seq<SnapshotFile>)
    ensures SnapshotContent(files).Ok? || SnapshotContent(files) == Err(InvalidContent)
    ensures SnapshotContent(files).Err? <==>
              || (exists f :: f in files && !IsReadable(f))
              || ((exists f :: f in files && f.isFile) && forall f, name | f in files :: !IsSecretFile(f, name))
  {
    FolderIsReadCompletely(files);
    OnlyInvalidContent(files);
    if ReadJsonFiles(files).Ok? {
      var secrets := ReadJsonFiles(files).value;
      if secrets != [] {
        assert secrets[0] in secrets;
      }
      if f, name :| f in files && IsSecretFile(f, name) {
        assert IsReadable(f);
        assert Secret(name, f.data.value) in secrets;
      }
    }
  }

  lemma {:induction false} OnlyInvalidContent(files: seq<SnapshotFile>)
    ensures ReadJsonFiles(files).Err? ==> ReadJsonFiles(files) == Err(InvalidContent)
  {
    if files != [] {
      OnlyInvalidContent(files[..|files| - 1]);
    }
  }

  // ---- Which snapshot a backup created ----

  const LOOKUPS := 3

  /** The snapshots of the listing that were unknown before the backup. */
  function NewSnapshots(listing: seq<Snapshot>, known: set<SnapshotId>): (r: seq<Snapshot>)
    ensures forall s :: s in r <==> s in listing && s.id !in known
  {
    if listing == [] then []
    else if listing[0].id in known then NewSnapshots(listing[1..], known)
    else [listing[0]] + NewSnapshots(listing[1..], known)
  }

  /** The first exact read that found something. */
  function Answered(lookups: seq<Option<Snapshot>>): (r: Option<Snapshot>)
    ensures r.Some? <==> exists l | l in lookups :: l.Some?
    ensures r.Some? ==> exists k :: 0 <= k < |lookups| && r == lookups[k] && forall j | 0 <= j < k :: lookups[j].None?
  {
    if lookups == [] then None else if lookups[0].Some? then lookups[0] else Answered(lookups[1..])
  }

  function Resolved(createdId: Option<SnapshotId>, known: set<SnapshotId>, lookups: seq<Option<Snapshot>>, listing: seq<Snapshot>): Result<Snapshot, SyncError> {
    if createdId.Some? && Answered(lookups).Some? then Ok(Answered(lookups).value)
    else if createdId.Some? && FindSnapshot(listing, createdId.value).Some? then Ok(FindSnapshot(listing, createdId.value).value)
    else if |NewSnapshots(listing, known)| == 1 then Ok(NewSnapshots(listing, known)[0])
    else Err(Unidentified)
  }

  /**
   * `lookups` are the answers to the exact reads of the created id, in order; `listing` is the one made when
   * every read failed or no id was reported.
   */
  method ResolveCreatedSnapshot(createdId: Option<SnapshotId>, known: set<SnapshotId>, lookups: seq<Option<Snapshot>>, listing: seq<Snapshot>)
    returns (r: Result<Snapshot, SyncError>)
    requires |lookups| == LOOKUPS
    requires createdId.Some? ==> forall l | l in lookups && l.Some? :: l.value.id == createdId.value
    ensures r.Ok? && createdId.Some? && r.value.id != createdId.value ==>
              && (forall l | l in lookups :: l.None?)
              && (forall s | s in listing :: s.id != createdId.value)
    ensures r.Ok? && (createdId.None? || r.value.id != createdId.value) ==> NewSnapshots(listing, known) == [r.value]
    ensures createdId.Some? && ((exists l | l in lookups :: l.Some?) || (exists s | s in listing :: s.id == createdId.value)) ==>
              r.Ok? && r.value.id == createdId.value
    ensures r.Err? ==> r.error == Unidentified && |NewSnapshots(listing, known)| != 1
    ensures r == Resolved(createdId, known, lookups, listing)
  {
    if createdId.Some? {
      for k := 0 to LOOKUPS
        invariant forall j | 0 <= j < k :: lookups[j].None?
        invariant Answered(lookups) == Answered(lookups[k..])
      {
        if lookups[k].Some? {
          assert lookups[k] in lookups;
          return Ok(lookups[k].value);
        }
      }
      assert forall l | l in lookups :: l.None?;
      for k := 0 to |listing|
        invariant forall j | 0 <= j < k :: listing[j].id != createdId.value
        invariant FindSnapshot(listing, createdId.value) == FindSnapshot(listing[k..], createdId.value)
      {
        if listing[k].id == createdId.value {
          return Ok(listing[k]);
        }
      }
    }
    var candidates := NewSnapshots(listing, known);
    if |candidates| == 1 {
      return Ok(candidates[0]);
    }
    return Err(Unidentified);
  }

  /** Once the listing shows the push's own snapshot, no other snapshot can be taken for it. */
  lemma ListedOwnSnapshotIsTheOnlyCandidate(own: Snapshot, known: set<SnapshotId>, listing: seq<Snapshot>, picked: Snapshot)
    requires own in listing && own.id !in known && NewSnapshots(listing, known) == [picked]
    ensures picked == own
  {
    assert own in NewSnapshots(listing, known);
  }

  /**
   * A push records its own snapshot exactly when some exact read answered, or the last listing shows it: what it can see
   * at that moment decides.
   */
  lemma RecordsItsOwnIff(own: SnapshotId, createdId: Option<SnapshotId>, known: set<SnapshotId>, lookups: seq<Option<Snapshot>>, listing: seq<Snapshot>)
    requires createdId.Some? ==> createdId.value == own && forall l | l in lookups && l.Some? :: l.value.id == own
    requires own !in known && Resolved(createdId, known, lookups, listing).Ok?
    ensures Resolved(createdId, known, lookups, listing).value.id == own
       <==> (createdId.Some? && exists l :: l in lookups && l.Some?) || exists x :: x in listing && x.id == own
  {
    var r := Resolved(createdId, known, lookups, listing).value;
    if x :| x in listing && x.id == own {
      assert x in NewSnapshots(listing, known);
    }
    if |NewSnapshots(listing, known)| == 1 {
      assert NewSnapshots(listing, known)[0] in NewSnapshots(listing, known);
    }
  }

  // ---- Target selection and conflict detection ----

  /** What a preview or a confirmation asks for. */
  datatype Target = Latest | LatestPinned(id: SnapshotId) | Pinned(id: SnapshotId) | LastSynchronized

  function FindSnapshot(listing: seq<Snapshot>, id: SnapshotId): (r: Option<Snapshot>)
    ensures r.Some? ==> r.value in listing && r.value.id == id
    ensures r.None? ==> forall s | s in listing :: s.id != id
  {
    if listing == [] then None
    else if listing[0].id == id then Some(listing[0])
    else FindSnapshot(listing[1..], id)
  }

  function SelectTarget(target: Target, listing: seq<Snapshot>): Result<Snapshot, SyncError> {
    match target
    case Latest =>
      var latest := LatestSnapshot(listing);
      if latest.None? then Err(SnapshotNotFound) else Ok(latest.value)
    case LatestPinned(id) =>
      var latest := LatestSnapshot(listing);
      if latest.None? then Err(SnapshotNotFound)
      else if latest.value.id != id then Err(RepositoryChanged)
      else Ok(latest.value)
    case Pinned(id) =>
      var found := FindSnapshot(listing, id);
      if found.None? then Err(SnapshotNotFound) else Ok(found.value)
    case LastSynchronized => Err(NeverSynchronized)
  }

  /**
   * A pull and its preview take the listed snapshot that is newer than every other one; a confirmed pull only when it is
   * the pinned one; a restore takes the listed snapshot with its id. Each refusal has its own error.
   */
  lemma TargetIsSelectedIff(target: Target, listing: seq<Snapshot>, x: Snapshot)
    requires UniqueIds(listing)
    ensures SelectTarget(target, listing) == Ok(x) <==>
              match target
              case Latest => IsNewest(x, listing)
              case LatestPinned(id) => IsNewest(x, listing) && x.id == id
              case Pinned(id) => x in listing && x.id == id
              case LastSynchronized => false
    ensures SelectTarget(target, listing) == Err(SnapshotNotFound) <==>
              match target
              case Latest => listing == []
              case LatestPinned(id) => listing == []
              case Pinned(id) => forall y | y in listing :: y.id != id
              case LastSynchronized => false
    ensures SelectTarget(target, listing) == Err(RepositoryChanged) <==>
              target.LatestPinned? && exists y :: IsNewest(y, listing) && y.id != target.id
  {
    if listing != [] {
      LatestIsMaximum(listing);
      assert IsNewest(LatestSnapshot(listing).value, listing);
      forall y | IsNewest(y, listing) ensures LatestSnapshot(listing) == Some(y) {
        MaximumIsUnique(listing, y);
      }
      if IsNewest(x, listing) {
        MaximumIsUnique(listing, x);
      }
    }
    if target.Pinned? && x in listing && x.id == target.id {
      var found := FindSnapshot(listing, target.id);
      SameListedId(listing, x, found.value);
    }
  }

  lemma SameListedId(listing: seq<Snapshot>, x: Snapshot, y: Snapshot)
    requires UniqueIds(listing) && x in listing && y in listing && x.id == y.id
    ensures x == y
  {
  }

  /** A push is rejected when the latest snapshot is not the last one this project synchronized. */
  function EnsureNoNewerSnapshot(lastSync: Option<SnapshotId>, listing: seq<Snapshot>): Option<SyncError> {
    var latest := LatestSnapshot(listing);
    if latest.None? then None
    else if lastSync.None? || latest.value.id != lastSync.value then Some(NewerSnapshot)
    else None
  }

  /** A push goes on exactly when the listing is empty, or the last synchronized snapshot is newer than every other one listed. */
  lemma PushGoesOnIff(lastSync: Option<SnapshotId>, listing: seq<Snapshot>)
    requires UniqueIds(listing)
    ensures EnsureNoNewerSnapshot(lastSync, listing).None? <==> listing == [] || exists m :: IsNewest(m, listing) && lastSync == Some(m.id)
    ensures EnsureNoNewerSnapshot(lastSync, listing) in {None, Some(NewerSnapshot)}
  {
    if listing != [] {
      LatestIsMaximum(listing);
      if m :| IsNewest(m, listing) && lastSync == Some(m.id) {
        MaximumIsUnique(listing, m);
      }
    }
  }

  /** `needsPull` of the status: the repository holds a snapshot, and its latest is not the last one synchronized. */
  predicate NeedsPull(lastSync: Option<SnapshotId>, listing: seq<Snapshot>) {
    var latest := LatestSnapshot(listing);
    latest.Some? && lastSync != Some(latest.value.id)
  }

  /** The status asks for a pull exactly when a push that saw the same listing would be refused. */
  lemma NeedsPullMeansPushIsRefused(lastSync: Option<SnapshotId>, listing: seq<Snapshot>)
    requires UniqueIds(listing)
    ensures NeedsPull(lastSync, listing) <==> EnsureNoNewerSnapshot(lastSync, listing).Some?
    ensures NeedsPull(lastSync, listing) <==> exists m :: IsNewest(m, listing) && lastSync != Some(m.id)
  {
    if listing != [] {
      LatestIsMaximum(listing);
      assert IsNewest(LatestSnapshot(listing).value, listing);
      forall m | IsNewest(m, listing) ensures LatestSnapshot(listing) == Some(m) {
        MaximumIsUnique(listing, m);
      }
    }
  }

  // ---- Write sections ----

  function RowsFor(p: ProjectId, secrets: seq<Secret>, ids: seq<SecretId>): (rows: seq<SecretRow>)
    requires |ids| == |secrets|
    ensures |rows| == |secrets|
    ensures forall i | 0 <= i < |rows| :: rows[i] == SecretRow(ids[i], p, secrets[i].name, secrets[i].data, 1)
  {
    seq(|secrets|, i requires 0 <= i < |secrets| => SecretRow(ids[i], p, secrets[i].name, secrets[i].data, 1))
  }

  function ApplySection(db: Db, p: ProjectId, expected: Digest, rows: seq<SecretRow>, id: SnapshotId, time: Option<int>): (Db, Option<SyncError>) {
    if p !in db.projects then (db, Some(ProjectNotFound))
    else if ComputeSecretsHash(Stored(db, p)) != expected then (db, Some(PreviewStale))
    else
      match ReplaceTx(db, p, rows, SyncState(id, time, ComputeSecretsHash(Bodies(rows))))
      case Ok(d) => (d, None)
      case Err(_) => (db, Some(DatabaseFailure))
  }

  method ApplySnapshotSecrets(db: Database, p: ProjectId, expected: Digest, rows: seq<SecretRow>, id: SnapshotId, time: Option<int>)
    returns (error: Option<SyncError>)
    modifies db
    ensures (db.State(), error) == ApplySection(old(db.State()), p, expected, rows, id, time)
  {
    if p !in db.projects {
      return Some(ProjectNotFound);
    }
    var current := db.ListForProject(p);
    if ComputeSecretsHash(Bodies(current)) != expected {
      return Some(PreviewStale);
    }
    var failed := db.ReplaceForProject(p, rows, SyncState(id, time, ComputeSecretsHash(Bodies(rows))));
    return if failed.Some? then Some(DatabaseFailure) else None;
  }

  function FinalizeSection(db: Db, p: ProjectId, observed: Option<SnapshotId>, id: SnapshotId, time: Option<int>, pushedHash: Digest): (Db, Option<SyncError>) {
    if p !in db.projects then (db, Some(ProjectNotFound))
    else if db.projects[p].lastSyncSnapshotId != observed then (db, Some(ConcurrentSync))
    else (WithSyncState(db, p, id, time, pushedHash, ComputeSecretsHash(Stored(db, p))), None)
  }

  method FinalizePush(db: Database, p: ProjectId, observed: Option<SnapshotId>, id: SnapshotId, time: Option<int>, pushedHash: Digest)
    returns (error: Option<SyncError>)
    modifies db
    ensures (db.State(), error) == FinalizeSection(old(db.State()), p, observed, id, time, pushedHash)
  {
    if p !in db.projects {
      return Some(ProjectNotFound);
    }
    var current := db.projects[p];
    if current.lastSyncSnapshotId != observed {
      return Some(ConcurrentSync);
    }
    var freshSecrets := db.ListForProject(p);
    db.SetSyncState(p, id, time, pushedHash, ComputeSecretsHash(Bodies(freshSecrets)));
    return None;
  }

  function DeleteProjectSection(db: Db, p: ProjectId): (Db, Option<SyncError>) {
    if p !in db.projects then (db, Some(ProjectNotFound)) else (DeleteCascadeTx(db, p), None)
  }

  method DeleteProject(db: Database, p: ProjectId) returns (error: Option<SyncError>)
    modifies db
    ensures (db.State(), error) == DeleteProjectSection(old(db.State()), p)
  {
    if p !in db.projects {
      return Some(ProjectNotFound);
    }
    db.DeleteCascade(p);
    return None;
  }
}
