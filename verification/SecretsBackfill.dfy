/** The startup backfill of content hashes (`SecretsHashBackfillAll`). */
module SecretsBackfill {
  import opened JsStrings
  import opened Sorting
  import opened Model
  import opened SecretsHash
  import opened SecretsData
  import opened SecretsDataFacts

  predicate IsLegacyBaseline(project: Project, secrets: seq<Secret>) {
    && project.lastSyncContentHash.Some?
    && project.lastSyncContentHash != Some(ComputeSecretsHash(secrets))
    && project.lastSyncContentHash == Some(ComputeSecretsHashLegacy(secrets))
  }

  function BackfilledProject(project: Project, secrets: seq<Secret>): Project {
    if project.currentContentHash.Some? then project
    else
      project.(currentContentHash := Some(ComputeSecretsHash(secrets)),
               lastSyncContentHash := if IsLegacyBaseline(project, secrets) then Some(ComputeSecretsHash(secrets))
                                      else project.lastSyncContentHash)
  }

  function Backfilled(db: Db): Db {
    db.(projects := map p | p in db.projects :: BackfilledProject(db.projects[p], Stored(db, p)))
  }

  method SetBaseline(db: Database, p: ProjectId, baseline: Digest)
    modifies db`projects
    ensures db.projects == if p in old(db.projects)
                           then old(db.projects)[p := old(db.projects)[p].(lastSyncContentHash := Some(baseline))]
                           else old(db.projects)
  {
    if p in db.projects {
      db.projects := db.projects[p := db.projects[p].(lastSyncContentHash := Some(baseline))];
    }
  }

  /** One round of the startup loop, on the row as it was listed. */
  method BackfillProject(db: Database, p: ProjectId, project: Project)
    requires p in db.projects && db.projects[p] == project
    modifies db`projects
    ensures db.projects == old(db.projects)[p := BackfilledProject(project, Stored(old(db.State()), p))]
  {
    if project.currentContentHash.Some? {
      return;
    }
    var secrets := db.ListForProject(p);
    var canonical := ComputeSecretsHash(Bodies(secrets));
    db.SetCurrentHash(p, canonical);
    if project.lastSyncContentHash.Some? && project.lastSyncContentHash != Some(canonical)
       && project.lastSyncContentHash == Some(ComputeSecretsHashLegacy(Bodies(secrets))) {
      SetBaseline(db, p, canonical);
    }
  }

  /** `listed` are the ids of the projects read at startup, in listing order. */
  method BackfillAll(db: Database, listed: seq<ProjectId>)
    requires forall p :: p in listed <==> p in db.projects
    requires forall i, j | 0 <= i < j < |listed| :: listed[i] != listed[j]
    modifies db`projects
    ensures db.State() == Backfilled(old(db.State()))
  {
    var projects := db.projects;
    ghost var before := db.State();
    for i := 0 to |listed|
      invariant BackfilledUpTo(before, db.State(), listed, i)
    {
      assert listed[i] in listed;
      ghost var now := db.State();
      BackfillProject(db, listed[i], projects[listed[i]]);
      BackfilledOneMore(before, now, db.State(), listed, i);
    }
    BackfilledPointwise(before, db.State(), listed);
  }

  ghost predicate BackfilledUpTo(before: Db, now: Db, listed: seq<ProjectId>, i: nat) {
    && now.secrets == before.secrets && now.projects.Keys == before.projects.Keys
    && i <= |listed| && (forall p | p in listed :: p in before.projects)
    && (forall p | p in listed[..i] :: now.projects[p] == BackfilledProject(before.projects[p], Stored(before, p)))
    && (forall p | p in listed[i..] :: now.projects[p] == before.projects[p])
  }

  lemma BackfilledOneMore(before: Db, now: Db, next: Db, listed: seq<ProjectId>, i: nat)
    requires i < |listed| && BackfilledUpTo(before, now, listed, i)
    requires forall k | i < k < |listed| :: listed[i] != listed[k]
    requires next == now.(projects := now.projects[listed[i] := BackfilledProject(now.projects[listed[i]], Stored(now, listed[i]))])
    ensures BackfilledUpTo(before, next, listed, i + 1)
  {
    var p := listed[i];
    assert p in listed[i..] && now.projects[p] == before.projects[p] && Stored(now, p) == Stored(before, p);
    assert next.projects.Keys == before.projects.Keys;
    assert listed[..i + 1] == listed[..i] + [p];
    assert forall q | q in listed[i + 1..] :: q in listed[i..] && q != p;
  }

  lemma BackfilledPointwise(before: Db, after: Db, listed: seq<ProjectId>)
    requires forall p :: p in listed <==> p in before.projects
    requires BackfilledUpTo(before, after, listed, |listed|)
    ensures after == Backfilled(before)
  {
    assert listed[..|listed|] == listed;
    assert after.projects == Backfilled(before).projects;
  }

  // ---- What the backfill keeps and restores ----

  /** Hashes that are stored are up to date; some may be missing. */
  ghost predicate HashesCurrentIfStored(db: Db) {
    forall p | p in db.projects && db.projects[p].currentContentHash.Some? ::
      db.projects[p].currentContentHash == Some(ComputeSecretsHash(Stored(db, p)))
  }

  /** After the backfill every stored hash is the hash of the stored secrets. */
  lemma BackfillRestoresConsistency(db: Db)
    requires Schema(db) && HashesCurrentIfStored(db)
    ensures Consistent(Backfilled(db)) && Backfilled(db).secrets == db.secrets
  {
    BackfillKeepsSchema(db, Backfilled(db));
    BackfillSetsHashes(db);
  }

  /** A second backfill changes nothing. */
  lemma BackfillIsIdempotent(db: Db)
    ensures Backfilled(Backfilled(db)) == Backfilled(db)
  {
    var after := Backfilled(db);
    assert forall p | p in after.projects :: after.projects[p].currentContentHash.Some?;
    BackfillOfHashed(after);
  }

  lemma BackfillSetsHashes(db: Db)
    requires HashesCurrentIfStored(db)
    ensures HashesCurrent(Backfilled(db))
  {
    forall p | p in db.projects
      ensures Backfilled(db).projects[p].currentContentHash == Some(ComputeSecretsHash(Stored(Backfilled(db), p)))
    {
      assert Stored(Backfilled(db), p) == Stored(db, p);
    }
  }

  lemma BackfillOfHashed(db: Db)
    requires forall p | p in db.projects :: db.projects[p].currentContentHash.Some?
    ensures Backfilled(db) == db
  {
    assert Backfilled(db).projects == db.projects;
  }

  lemma BackfillKeepsSchema(db: Db, after: Db)
    requires Schema(db) && after.secrets == db.secrets && after.projects.Keys == db.projects.Keys
    ensures Schema(after)
  {
  }

  lemma NamedKeysAreUnique(list: seq<Secret>)
    requires WellFormed(list)
    ensures UniqueKeys(Named(list)) && UniqueKeys(KeysSorted(list))
  {
  }

  /** The legacy hash identifies the content together with the insertion order of every secret's keys. */
  lemma LegacyHashIdentifiesOrderedContent(a: seq<Secret>, b: seq<Secret>)
    requires WellFormed(a) && WellFormed(b)
    requires UniqueKeys(Named(a)) && UniqueKeys(Named(b)) && UniqueKeys(KeysSorted(b))
    ensures ComputeSecretsHashLegacy(a) == ComputeSecretsHashLegacy(b) <==> MapOf(Named(a)) == MapOf(Named(b))
    ensures ComputeSecretsHashLegacy(a) == ComputeSecretsHash(b) <==> MapOf(Named(a)) == MapOf(KeysSorted(b))
  {
    SortedEntriesDetermineMap(Named(a), Named(b));
    SortedEntriesDetermineMap(Named(a), KeysSorted(b));
  }

  lemma NamedDeterminesContent(a: seq<Secret>, b: seq<Secret>)
    requires WellFormed(a) && WellFormed(b) && UniqueKeys(Named(a)) && UniqueKeys(Named(b))
    requires MapOf(Named(a)) == MapOf(Named(b))
    ensures ContentOf(a) == ContentOf(b)
  {
    NamesMatch(a);
    NamesMatch(b);
    forall n | n in ContentOf(a) ensures ContentOf(a)[n] == ContentOf(b)[n] {
      var s := ContentComesFrom(a, n);
      var t := ContentComesFrom(b, n);
      NamedHas(a, s);
      NamedHas(b, t);
    }
  }

  lemma NamedHas(list: seq<Secret>, s: Secret)
    requires WellFormed(list) && UniqueKeys(Named(list)) && s in list
    ensures s.name in MapOf(Named(list)) && MapOf(Named(list))[s.name] == s.data
  {
    var i :| 0 <= i < |list| && list[i] == s;
    assert Named(list)[i] in Named(list);
  }

  lemma NamesMatch(list: seq<Secret>)
    requires WellFormed(list) && UniqueKeys(Named(list))
    ensures MapOf(Named(list)).Keys == ContentOf(list).Keys
  {
    var x := Named(list);
    forall n ensures n in MapOf(x) <==> n in ContentOf(list) {
      if n in MapOf(x) {
        var i :| 0 <= i < |x| && x[i] == Entry(n, MapOf(x)[n]);
        ContentHas(list, list[i]);
      }
      if n in ContentOf(list) {
        var s := ContentComesFrom(list, n);
        NamedHas(list, s);
      }
    }
  }

  lemma SortedEntryContent(a: seq<Secret>, b: seq<Secret>, n: JsString)
    requires WellFormed(a) && WellFormed(b) && UniqueKeys(Named(a)) && UniqueKeys(KeysSorted(b))
    requires MapOf(Named(a)) == MapOf(KeysSorted(b)) && n in ContentOf(a) && n in ContentOf(b)
    ensures ContentOf(a)[n] == ContentOf(b)[n]
  {
    var s := ContentComesFrom(a, n);
    var t := ContentComesFrom(b, n);
    NamedHas(a, s);
    SortedMapHas(b, t);
    SortIsListing(t.data);
  }

  lemma NamedSortedDeterminesContent(a: seq<Secret>, b: seq<Secret>)
    requires WellFormed(a) && WellFormed(b) && UniqueKeys(Named(a)) && UniqueKeys(KeysSorted(b))
    requires MapOf(Named(a)) == MapOf(KeysSorted(b))
    ensures ContentOf(a) == ContentOf(b)
  {
    var c, d := ContentOf(a), ContentOf(b);
    SameNamesSorted(a, b);
    forall n | n in c ensures c[n] == d[n] {
      SortedEntryContent(a, b, n);
    }
  }

  lemma SameNamesSorted(a: seq<Secret>, b: seq<Secret>)
    requires WellFormed(a) && WellFormed(b) && UniqueKeys(Named(a)) && UniqueKeys(KeysSorted(b))
    requires MapOf(Named(a)) == MapOf(KeysSorted(b))
    ensures ContentOf(a).Keys == ContentOf(b).Keys
  {
    NamesMatch(a);
    SortedMapMatchesContent(b);
  }

  /** What was stored when the baseline was recorded, and which hash recorded it. */
  predicate IsBaseline(project: Project, synced: seq<Secret>, legacy: bool) {
    project.lastSyncContentHash == Some(if legacy then ComputeSecretsHashLegacy(synced) else ComputeSecretsHash(synced))
  }

  /** The rewritten baseline is always the hash of content equal to the current one: a legacy match proves it unchanged. */
  lemma RewrittenBaselineHadTheCurrentContent(project: Project, synced: seq<Secret>, legacy: bool, stored: seq<Secret>)
    requires WellFormed(synced) && WellFormed(stored)
    requires IsBaseline(project, synced, legacy) && IsLegacyBaseline(project, stored)
    ensures ContentOf(synced) == ContentOf(stored)
  {
    NamedKeysAreUnique(synced);
    NamedKeysAreUnique(stored);
    LegacyHashIdentifiesOrderedContent(synced, stored);
    LegacyHashIdentifiesOrderedContent(stored, synced);
    if legacy {
      NamedDeterminesContent(synced, stored);
    } else {
      NamedSortedDeterminesContent(stored, synced);
    }
  }

  /**
   * After the backfill of a synchronized project the flag is exact for a canonical baseline. For a legacy one it never
   * hides a change, and it shows a change that is none exactly when the key order differs from both orders the
   * backfill can recognize: the one recorded and the sorted one.
   */
  lemma BackfillNeverHidesAChange(project: Project, synced: seq<Secret>, legacy: bool, stored: seq<Secret>, secretCount: nat)
    requires WellFormed(synced) && WellFormed(stored)
    requires UniqueKeys(Named(synced)) && UniqueKeys(Named(stored)) && UniqueKeys(KeysSorted(stored))
    requires IsBaseline(project, synced, legacy) && project.currentContentHash.None? && project.lastSyncSnapshotId.Some?
    ensures var flag := ComputeHasLocalChanges(BackfilledProject(project, stored), secretCount);
            && (ContentOf(synced) != ContentOf(stored) ==> flag)
            && (!legacy ==> (flag <==> ContentOf(synced) != ContentOf(stored)))
            && (legacy ==> (flag <==> MapOf(Named(synced)) != MapOf(Named(stored)) && MapOf(Named(synced)) != MapOf(KeysSorted(stored))))
  {
    if legacy {
      LegacyFlag(project, synced, stored, secretCount);
      if MapOf(Named(synced)) == MapOf(Named(stored)) {
        NamedDeterminesContent(synced, stored);
      }
      if MapOf(Named(synced)) == MapOf(KeysSorted(stored)) {
        NamedSortedDeterminesContent(synced, stored);
      }
    } else {
      CanonicalFlag(project, synced, stored, secretCount);
    }
  }

  /**
   * Before the backfill reached a synchronized project, its flag errs on the safe side: on with a recorded baseline, off
   * without one. The backfill keeps a missing baseline missing, and touches no row that has its hash.
   */
  lemma FlagWithoutHashes(project: Project, stored: seq<Secret>, secretCount: nat)
    requires project.lastSyncSnapshotId.Some?
    ensures project.currentContentHash.None? ==> (ComputeHasLocalChanges(project, secretCount) <==> project.lastSyncContentHash.Some?)
    ensures project.lastSyncContentHash.None? ==> !ComputeHasLocalChanges(BackfilledProject(project, stored), secretCount)
    ensures project.currentContentHash.Some? ==> BackfilledProject(project, stored) == project
  {
  }

  lemma CanonicalFlag(project: Project, synced: seq<Secret>, stored: seq<Secret>, secretCount: nat)
    requires WellFormed(synced) && WellFormed(stored)
    requires IsBaseline(project, synced, false) && project.currentContentHash.None? && project.lastSyncSnapshotId.Some?
    ensures ComputeHasLocalChanges(BackfilledProject(project, stored), secretCount) <==> ContentOf(synced) != ContentOf(stored)
  {
    HashIdentifiesContent(synced, stored);
    if IsLegacyBaseline(project, stored) {
      RewrittenBaselineHadTheCurrentContent(project, synced, false, stored);
    }
  }

  lemma LegacyFlag(project: Project, synced: seq<Secret>, stored: seq<Secret>, secretCount: nat)
    requires WellFormed(synced) && WellFormed(stored)
    requires UniqueKeys(Named(synced)) && UniqueKeys(Named(stored)) && UniqueKeys(KeysSorted(stored))
    requires IsBaseline(project, synced, true) && project.currentContentHash.None? && project.lastSyncSnapshotId.Some?
    ensures ComputeHasLocalChanges(BackfilledProject(project, stored), secretCount)
       <==> MapOf(Named(synced)) != MapOf(Named(stored)) && MapOf(Named(synced)) != MapOf(KeysSorted(stored))
  {
    LegacyHashIdentifiesOrderedContent(synced, stored);
  }

  // Two keys recorded as b, a and stored again as a, b.

  const RECORDED: Data := [Entry([98], []), Entry([97], [])]
  const REORDERED: Data := [Entry([97], []), Entry([98], [])]

  lemma ReorderedDataIsSorted()
    ensures UniqueKeys(RECORDED) && UniqueKeys(REORDERED)
    ensures MapOf(RECORDED) == MapOf(REORDERED)
    ensures SortByKey(REORDERED) == REORDERED
  {
    EntriesDetermineMap(RECORDED, MapOf(REORDERED));
    assert Less([97], [98]) && !Less([98], [97]);
    assert SortedBy<Entry<JsString>>(KeyBefore, REORDERED);
    SortOfListing(REORDERED, MapOf(REORDERED));
  }

  lemma OneEntryMap<V>(key: JsString, value: V)
    ensures UniqueKeys([Entry(key, value)]) && MapOf([Entry(key, value)]) == map[key := value]
  {
    var s := [Entry(key, value)];
    assert s[0] in s;
    EntriesDetermineMap(s, map[key := value]);
  }

  lemma OneSecretContent(name: JsString, data: Data)
    requires UniqueKeys(data)
    ensures WellFormed([Secret(name, data)]) && ContentOf([Secret(name, data)]) == map[name := MapOf(data)]
  {
    var list := [Secret(name, data)];
    ContentHas(list, list[0]);
    assert ContentOf(list).Keys == {name};
  }

  lemma OneSecretEntries(name: JsString, data: Data)
    ensures UniqueKeys(Named([Secret(name, data)])) && UniqueKeys(KeysSorted([Secret(name, data)]))
    ensures MapOf(Named([Secret(name, data)])) == map[name := data]
    ensures MapOf(KeysSorted([Secret(name, data)])) == map[name := SortByKey(data)]
  {
    assert Named([Secret(name, data)]) == [Entry(name, data)];
    assert KeysSorted([Secret(name, data)]) == [Entry(name, SortByKey(data))];
    OneEntryMap(name, data);
    OneEntryMap(name, SortByKey(data));
  }

  /** The flag the backfill cannot repair: equal content whose keys were reordered into an order it does not recognize. */
  lemma ReorderedKeysKeepAFalseFlag(project: Project, name: JsString, secretCount: nat)
    requires project.currentContentHash.None? && project.lastSyncSnapshotId.Some?
    requires IsBaseline(project, [Secret(name, RECORDED)], true)
    ensures var synced, stored := [Secret(name, RECORDED)], [Secret(name, REORDERED)];
            && WellFormed(synced) && WellFormed(stored) && ContentOf(synced) == ContentOf(stored)
            && ComputeHasLocalChanges(BackfilledProject(project, stored), secretCount)
  {
    ReorderedDataIsSorted();
    OneSecretContent(name, RECORDED);
    OneSecretContent(name, REORDERED);
    OneSecretEntries(name, RECORDED);
    OneSecretEntries(name, REORDERED);
    assert RECORDED[0] != REORDERED[0];
    assert map[name := RECORDED][name] != map[name := REORDERED][name];
    LegacyFlag(project, [Secret(name, RECORDED)], [Secret(name, REORDERED)], secretCount);
  }
}
