# Verified model of the restic secrets manager

The application stores the secrets of projects in a database and synchronizes each project with a restic repository:
a pull, a restore of an older snapshot or a discard replaces the stored secrets with those of a snapshot, a push backs
the stored secrets up. Several replicas of the service do this at once, beside users who edit secrets. This project
models that behaviour in Dafny and proves what keeps it correct. `dafny verify dfyconfig.toml` checks all of it.

## The parts

- **Synchronization protocol** (`SyncProtocol`, `SyncInvariant`, `SyncTheorems`, `SyncOperations`, `SyncRaces`,
  `SyncExamples`; `SyncRuns` builds runs). A step machine: every restic call and every database read is one step,
  every section under the project write lock is one step, and any other step may come in between. The state is the two
  tables, the append-only repositories, and every operation in flight with the values it captured. Listings may lag,
  foreign writers may add snapshots at any time, operations may stop anywhere, and operations of one project may
  overlap, which covers both the replicas and the in-process queue. Runs start from projects whose creation has
  completed. `log`, `previews` and `rows` only record the history of a run, so that results can speak about it.
  `SyncOperations` follows single operations from their request to their commit, `SyncExamples` holds concrete runs
  that refute stronger claims.
- **Write sections** (`SecretsData`, `SecretsRoutes`, `SyncService` and their `Facts`). The tables are a class whose
  methods are the transactions; the handlers are methods over it, proved against functions on table values, and the
  facts say what each section changes, exactly when it succeeds, and what it keeps.
- **Content** (`Model`, `SecretsHash`, `SecretsBackfill`, `Difference`, `SecretsDiff`). The content of a list of
  secrets is its name-to-key-to-value map. The hash, the local-changes flag and the difference are shown to be
  functions of it.
- **Snapshots** (`Snapshots`, `SnapshotHistory`). Recency order, latest snapshot, cursor pagination on both sides.
- **Status cache** (`SyncStatusCache`, `SyncStatusCacheFacts`, `SyncStatusCacheTheorems`, `SyncStatusOutcomes`). The
  module state is a class with one method per synchronous piece of the module, up to the next turn of the event loop.
  What a run or caller is spread over (its promise, its controller, its token set, its hub) is kept in separate
  fields, as the objects are. `clock`, `startedAt`, `invalidatedAt` and `producer` only record the history.
- **Promise chains** (`SyncLocks`). One step per microtask, in any order.
- **`.env` files** (`SecretEnv`, `SecretImport`, `EnvRoundTrip`, `ImportFacts`). Strings are sequences of UTF-16 code
  units. The printer and the parser are modelled apart and proved inverse.

## Assumptions

- SHA-256 of a serialized list is injective: a digest carries what was hashed. Identifiers of new rows are UUIDs, never
  used before.
- The write lock (the in-process chain plus the PostgreSQL advisory lock) is a mutex: a section is one atomic step, and a
  committed transaction is atomic. `SyncLocks` proves the in-process half.
- An empty column (`""` in the source) is `None`. A parsed snapshot time is an optional integer.

## Where a stronger claim is false

- *The flag tells the difference from the recorded snapshot.* Not always after a push whose snapshot could not be read
  back: the fallback may record a foreign snapshot (`SyncExamples.MisattributedPushHidesADifference`). In every reachable
  state it does exactly when the recorded snapshot holds the synchronized content, or the stored content is neither of the
  two (`SyncTheorems.FlagFollowsRecordedSnapshotIff`); so it always does when the push recorded its own snapshot
  (`SyncTheorems.FlagIsExact`), and that is the case exactly when some exact read answered or the last listing shows the
  snapshot (`SyncTheorems.ResolutionRecordsItsOwnIff`).
- *Two pushes that observed the same sync id both commit only if a pull, restore or discard set that id back between
  them.* A slow push that created the snapshot with that id, and is recorded only after a restore of another one, sets it
  back too (`SyncExamples.RacingPushesWithoutAnApplyOfTheirId`). Seen from the first commit the claim holds, for every
  continuation, exactly when no such slow push is in flight that can still commit
  (`SyncRaces.RacingPushesNeedTheirIdAppliedIff`).
- *The startup backfill avoids a false "local changes" badge* (`SecretsHash.ts:92-97`). Only when the recorded key order
  is the current or the sorted one (`SecretsBackfill.BackfillNeverHidesAChange`, with a counterexample in
  `SecretsBackfill.ReorderedKeysKeepAFalseFlag`).
- *An export imports back unchanged* (`SecretEnv.ts:27-34`). Not an unquoted value that starts or ends with a non-ASCII
  space, which the import trims (`EnvRoundTrip.NoBreakSpaceIsLost`); exactly those fail
  (`EnvRoundTrip.ExportRoundTripsIff`).

## Model

| member | source | states |
|---|---|---|
| `SyncTheorems.PreviewedIsApplied` | `restic-secrets-manager-server/src/restic/SyncService.ts:247-281` | Over every run: a confirmed pull or restore carrying a preview's snapshot id and content hash commits exactly when the project exists and its stored content is the one the preview read; it then stores exactly the previewed secrets, so the difference made is the one the preview returned; otherwise the tables do not change |
| `SyncTheorems.ConfirmationReplacesOnlyTheExpectedContent` | `restic-secrets-manager-server/src/restic/SyncService.ts:726-772` | Any confirmation, a discard included, replaces the stored secrets exactly while they have the content its token names |
| `SyncOperations.OperationsTakeTheNamedSnapshot` | `restic-secrets-manager-server/src/restic/SyncService.ts:159-175` | From the start of a pull, a restore or a preview of one, whatever happens in between: it keeps its project, target and token, and the snapshot it is located on or fetched from is one its target named in a listing it saw. The latest one is newer than every other one listed; a confirmed pull also needs it to be the pinned one; a restore needs its id |
| `SyncOperations.LocateTakesTheNamed` | `restic-secrets-manager-server/src/restic/SyncPreview.ts:98-110` | At its listing an operation goes on exactly when its target names a listed snapshot, on that one, and changes nothing else |
| `SyncOperations.DiscardsUseTheRecordedSnapshot` | `restic-secrets-manager-server/src/restic/SyncService.ts:756-772` | A discard and its preview end at their start exactly when no sync id is recorded; otherwise they use the snapshot with the id recorded at that moment, whatever is recorded later, and no other |
| `SyncOperations.DiscardRestoresTheRecordedSnapshot` | `restic-secrets-manager-server/src/restic/SyncService.ts:746-772` | At its end a discard previews, or stores and records, the snapshot with the id recorded when it started, or changes nothing |
| `SyncOperations.CapturedTokenProtects` | `restic-secrets-manager-server/src/restic/SyncService.ts:210-221` | A confirmation whose client sent no token commits exactly when the project exists and its stored content is still the one at the moment the operation captured a token |
| `SyncOperations.PreviewShowsWhatIsStored` | `restic-secrets-manager-server/src/restic/SyncPreview.ts:249-277` | A preview answers the content stored at that moment, its hash, the content of its snapshot, and every difference between the two once, in order; it changes nothing |
| `SyncOperations.ConfirmationStoresItsSnapshot` | `restic-secrets-manager-server/src/restic/SyncService.ts:247-281` | The end of a confirmation either changes nothing, or stores the content of the snapshot it holds and records its id and time, leaving other projects alone |
| `SyncOperations.RecordedTimeIsTheSnapshots` | `restic-secrets-manager-server/src/restic/SyncService.ts:435-442` | In every reachable state the recorded id and time of a project are those of one snapshot of its repository |
| `SyncTheorems.FlagComparesWithSyncedContent` | `restic-secrets-manager-server/src/secrets/SecretsHash.ts:58-72` | In every reachable state of a synchronized project the recorded id and baseline are those of the last commit, and the flag holds exactly when the stored content differs from the content last synchronized, after any mix of edits, pulls, restores, discards and pushes |
| `SyncTheorems.FlagIsExact` | `restic-secrets-manager-server/src/restic/SyncService.ts:377-445` | When the last synchronization recorded its own snapshot (always, for a pull, restore or discard), that snapshot is in the repository, the baseline is its hash, and the flag holds exactly when the stored content differs from it |
| `SyncTheorems.FlagBeforeTheFirstSync` | `restic-secrets-manager-server/src/secrets/SecretsHash.ts:62-64` | A project never synchronized has local changes exactly when it holds a secret |
| `SyncTheorems.FlagFollowsRecordedSnapshotIff` | `restic-secrets-manager-server/src/restic/SyncService.ts:435-442` | In every reachable state, whatever snapshot the last synchronization recorded: the flag agrees with the difference between the stored content and that snapshot if and only if the snapshot holds the content synchronized, or the stored content is neither of the two |
| `SyncTheorems.ResolutionRecordsItsOwnIff` | `restic-secrets-manager-server/src/restic/SyncService.ts:464-506` | In every reachable state every answer of the resolution is a step of the protocol, and it is the snapshot of the push itself exactly when an exact read answered or the last listing shows it |
| `SyncExamples.MisattributedPushHidesADifference` | `restic-secrets-manager-server/src/restic/SyncService.ts:494-500` | A reachable state where the one new snapshot was a foreign one: the flag is off although the stored content differs from the recorded snapshot |
| `SyncExamples.MisattributionIsResolved` | `restic-secrets-manager-server/src/restic/SyncService.ts:471-492` | Three empty exact reads and a listing with only the foreign snapshot resolve to it |
| `SyncTheorems.CommittedStatesAreConsistent` | `restic-secrets-manager-server/src/secrets/SecretsRoutes.ts:126-147` | In every reachable state the stored current hash is the canonical hash of the stored secrets, names are unique in each project, and a project that does not exist has no secret |
| `SyncTheorems.DeletedProjectsStayDeleted` | `restic-secrets-manager-server/src/projects/ProjectsRoutes.ts:284-309` | From any reachable state without the project, no continuation, however many synchronizations were in flight, brings its row or a secret of it back |
| `SyncTheorems.PushCommitsOnWhatItObserved` | `restic-secrets-manager-server/src/restic/SyncService.ts:413-445` | A push commits exactly when the project still records the sync id the push observed; it leaves the secrets alone, and afterwards local changes are reported exactly when the content at commit differs from the content backed up |
| `SyncOperations.PushCommitsOnTheIdAtItsStart` | `restic-secrets-manager-server/src/restic/SyncService.ts:362-365` | From the start of a push to its end, whatever happens in between: it commits exactly when the project exists and records the sync id recorded when the push started |
| `SyncOperations.PushBacksUpWhatItRead` | `restic-secrets-manager-server/src/restic/SyncService.ts:377-385` | From the read of a push on, whatever is edited meanwhile: its own snapshot is in the repository and reads back as exactly the secrets stored at that moment |
| `SyncOperations.PushStopsAtANewerSnapshot` | `restic-secrets-manager-server/src/restic/SyncService.ts:393-400` | After its listing a push is in flight exactly when the listing is empty, or the snapshot it observed is listed and newer than every other one; it then knows exactly the listed ids |
| `SyncOperations.PushesNeverOverwriteANewerSnapshot` | `restic-secrets-manager-server/src/restic/SyncService.ts:778-794` | A push that backed up saw a listing without a snapshot newer than the one recorded when it started |
| `SyncOperations.PushRecordsItsSnapshot` | `restic-secrets-manager-server/src/restic/SyncService.ts:413-445` | The end of a push either changes nothing, or records the snapshot it resolved with its time, the hash of what it backed up and the hash of what is stored, and touches no secret |
| `SyncTheorems.RacingPushesNeedAnApplyBetween` | `restic-secrets-manager-server/src/restic/SyncService.ts:423-428` | Two pushes that observed the same sync id both commit only if a pull, restore or discard of the project committed between them (pushes recording their own snapshots) |
| `SyncTheorems.RacingPushesNeedTheIdSetBack` | `restic-secrets-manager-server/src/restic/SyncService.ts:423-428` | Between two committed pushes that observed the same sync id, the last commit of the project recorded that id again |
| `SyncRaces.RacingPushesNeedTheirIdAppliedIff` | `restic-secrets-manager-server/src/restic/SyncService.ts:413-445` | The exact condition, at the state after a committed push that observed id x: in every continuation with pushes recording their own snapshots, another push that observed x commits only after a pull, restore or discard of x, if and only if the project is gone or no push that backed x up is still in flight having observed a sync id whose snapshot can be read |
| `SyncRaces.RacingPushesNeedTheirIdApplied` | `restic-secrets-manager-server/src/restic/SyncService.ts:423-428` | One half: without such a push in flight, a pull, restore or discard set the id back between the two commits |
| `SyncRaces.LatePushSetsItBack` | `restic-secrets-manager-server/src/restic/SyncService.ts:400-445` | The other half: with such a push in flight, the continuation in which both commit and nothing applies the id |
| `SyncRaces.PushWasInFlight` | `restic-secrets-manager-server/src/restic/SyncService.ts:404-442` | A push committed later whose own snapshot the repository already lists was in flight already, with the sync id it observed |
| `SyncExamples.RacingPushesWithoutAnApplyOfTheirId` | `restic-secrets-manager-server/src/restic/SyncService.ts:413-445` | A reachable state with two such pushes where no pull, restore or discard between them set that id back: a third push that finished late did, after a restore of another snapshot |
| `SyncTheorems.VersionDeterminesRow` | `restic-secrets-manager-server/src/secrets/SecretsData.ts:355-356` | Over every run, a secret id and version name one project, name and data |
| `SyncTheorems.VersionsStrictlyIncrease` | `restic-secrets-manager-server/src/secrets/SecretsData.ts:144-206` | A row stored after any continuation of the run is the row seen before, or carries a higher version |
| `SyncTheorems.UpdateOverwritesWhatWasRead` | `restic-secrets-manager-server/src/secrets/SecretsRoutes.ts:189-241` | A full update that succeeds overwrites exactly the row its client read at any earlier point of the run, across replacements that delete and re-insert rows: that row, and no other, gets the name and the data of the request, the ones read where the request has none, and the next version |
| `SyncInvariant.StepKeeps` | `restic-secrets-manager-server/src/restic/SyncService.ts:354-454` | Every step of every operation, in every order, keeps the invariant the results above are read from |
| `SyncService.ApplySnapshotSecrets` | `restic-secrets-manager-server/src/restic/SyncService.ts:247-281` | The write section of a pull, restore or discard: state and error of the compare-and-swap and the replacement |
| `SyncServiceFacts.ApplyReplacesContent` | `restic-secrets-manager-server/src/restic/SyncService.ts:255-280` | The section succeeds exactly when the project exists and the stored hash is the expected one, and its error tells which of the two failed; it then stores exactly the secrets of the snapshot and its sync state, keeps the tables consistent and other projects untouched; otherwise nothing changes |
| `SyncService.FinalizePush` | `restic-secrets-manager-server/src/restic/SyncService.ts:413-445` | The write section of a push: state and error of the compare on the sync id and the state write |
| `SyncServiceFacts.FinalizeRecordsPush` | `restic-secrets-manager-server/src/restic/SyncService.ts:416-442` | The section succeeds exactly when the observed sync id is still recorded; it never touches a secret nor another project |
| `SyncService.DeleteProject` | `restic-secrets-manager-server/src/projects/ProjectsRoutes.ts:284-309` | The write section of a project deletion |
| `SyncServiceFacts.DeleteRemovesProject` | `restic-secrets-manager-server/src/projects/ProjectsData.ts:95-129` | A deletion removes the row and every secret of the project and nothing else |
| `SyncService.ReadSnapshotSecrets` | `restic-secrets-manager-server/src/restic/SyncService.ts:289-325` | The loop over the restored folder: secrets in listing order, the first invalid name or content rejected, a folder of ignored files only rejected |
| `SyncService.ReadSecretsAreValid` | `restic-secrets-manager-server/src/restic/SyncService.ts:289-325` | What is read has valid, unique names and unique keys, each secret from a JSON file of the folder |
| `SyncService.PushedFilesReadBack` | `restic-secrets-manager-server/src/restic/SyncService.ts:382-385` | Reading back what a push wrote gives exactly the pushed secrets |
| `SyncService.FolderIsReadCompletely` | `restic-secrets-manager-server/src/restic/SyncService.ts:292-317` | Every regular file <name>.json becomes the secret of that name with its data, nothing else does, and the read fails exactly when such a file has an invalid name or content |
| `SyncService.FolderRejectedIff` | `restic-secrets-manager-server/src/restic/SyncService.ts:297-323` | A folder is refused exactly for such a file, or for regular files none of which is named so |
| `SyncService.ResolveCreatedSnapshot` | `restic-secrets-manager-server/src/restic/SyncService.ts:464-506` | The retries and the fallback: an exact answer always wins, otherwise only a single new snapshot of the listing is accepted, and the error means there was not exactly one |
| `SyncService.FindSnapshot` | `restic-secrets-manager-server/src/restic/SyncService.ts:689-695` | The listed snapshot with the requested id, or none when absent |
| `SyncService.TargetIsSelectedIff` | `restic-secrets-manager-server/src/restic/SyncService.ts:159-175` | Which snapshot each kind of request takes from a listing: the one newer than every other one, the same if it is the pinned one, or the one with the requested id; and each refusal with its own error |
| `SyncService.PushGoesOnIff` | `restic-secrets-manager-server/src/restic/SyncService.ts:778-794` | A push goes on exactly when the listing is empty or the last synchronized snapshot is newer than every other one listed |
| `SyncService.NeedsPullMeansPushIsRefused` | `restic-secrets-manager-server/src/restic/SyncService.ts:525-539` | The status asks for a pull exactly when a push on the same listing is refused |
| `SecretsRoutes.CreateSecret` | `restic-secrets-manager-server/src/secrets/SecretsRoutes.ts:126-147` | The create section |
| `SecretsRoutesFacts.CreateAddsOneSecret` | `restic-secrets-manager-server/src/secrets/SecretsRoutes.ts:126-147` | Each answer with its exact condition, in the order of the checks; a success adds exactly that secret and keeps the tables consistent; otherwise nothing changes |
| `SecretsRoutesFacts.LateUpdateClashes` | `restic-secrets-manager-server/src/secrets/SecretsRoutes.ts:261-265` | A name taken between the check and the statement, by a writer that ignores the lock, answers a name conflict and changes nothing |
| `SecretsRoutes.UpdateSecret` | `restic-secrets-manager-server/src/secrets/SecretsRoutes.ts:189-243` | The versioned update section |
| `SecretsRoutesFacts.UpdateChangesOneSecret` | `restic-secrets-manager-server/src/secrets/SecretsRoutes.ts:189-243` | Each answer with its exact condition, in the order of the checks; a success gives exactly that row the name and the data of the request, the stored ones where the request has none, and the next version, and the content follows; otherwise nothing changes |
| `SecretsRoutes.DeleteSecret` | `restic-secrets-manager-server/src/secrets/SecretsRoutes.ts:381-409` | The delete section |
| `SecretsRoutesFacts.DeleteRemovesOneSecret` | `restic-secrets-manager-server/src/secrets/SecretsRoutes.ts:381-409` | Each answer with its exact condition; a success removes exactly the listed secret; otherwise nothing changes |
| `SecretsRoutes.MergeKey` | `restic-secrets-manager-server/src/secrets/SecretsRoutes.ts:311-351` | The partial merge section when writers take the lock |
| `SecretsRoutes.MergeKeyWithRetry` | `restic-secrets-manager-server/src/secrets/SecretsRoutes.ts:320-349` | The loop over the attempts, against a writer that may change the tables at every listing, statement and status read |
| `SecretsRoutes.MergeKeyOnce` | `restic-secrets-manager-server/src/secrets/SecretsRoutes.ts:325-348` | One listing, merge, conditional write and status read, each on the tables of that moment |
| `SecretsRoutesFacts.MergeChangesOneKey` | `restic-secrets-manager-server/src/secrets/SecretsRoutes.ts:311-351` | Between cooperating writers a merge of a listed secret always succeeds, changes exactly the chosen key, and gives that row alone the next version |
| `SecretsRoutesFacts.RetryMergesOrLeaves` | `restic-secrets-manager-server/src/secrets/SecretsRoutes.ts:320-349` | Against a writer that ignores the lock but bumps versions, at any read or write of any attempt: the retry ends with an attempt k after only lost ones; on success the row is what was stored immediately before the conditional write of attempt k with only the chosen key changed; otherwise this request wrote nothing and the tables are those its last step saw |
| `SecretsRoutesFacts.ConflictNeedsThreeLosses` | `restic-secrets-manager-server/src/secrets/SecretsRoutes.ts:320-349` | The merge answers a conflict exactly when every one of its attempts was overtaken |
| `SecretNames.WithKeyChangesOneKey` | `restic-secrets-manager-server/src/secrets/SecretsRoutes.ts:335` | The spread sets the chosen key, keeps every other key and value, and keeps the keys in place |
| `SecretNames.NameRefusedIff` | `restic-secrets-manager-server/src/model/Secret.ts:80-147` | A secret name is refused exactly when it is empty, starts with a separator, or holds anything but ASCII letters, digits, dot, underscore and hyphen; a new secret also for more than 200 characters or an empty key |
| `SecretsData.Database.ListForProject` | `restic-secrets-manager-server/src/secrets/SecretsData.ts:18-35` | The rows of a project, in stored order |
| `SecretsData.Database.Add` | `restic-secrets-manager-server/src/secrets/SecretsData.ts:94-137` | Insert and hash in one transaction; a unique or foreign key violation leaves everything as it was |
| `SecretsData.Database.Update` | `restic-secrets-manager-server/src/secrets/SecretsData.ts:144-206` | The conditional statement with its version guard, the hash only when the row changed, and the three statuses |
| `SecretsData.Database.UpdateIfVersion` | `restic-secrets-manager-server/src/secrets/SecretsData.ts:159-195` | The conditional statement alone: it changes at most the row that still carries the expected version, with the hash |
| `SecretsData.Database.Delete` | `restic-secrets-manager-server/src/secrets/SecretsData.ts:213-248` | Delete and hash in one transaction |
| `SecretsData.Database.ReplaceForProject` | `restic-secrets-manager-server/src/secrets/SecretsData.ts:257-309` | Delete, re-insert and record the sync state in one transaction; any failure restores what was there |
| `SecretsData.Database.DeleteCascade` | `restic-secrets-manager-server/src/projects/ProjectsData.ts:95-129` | Secrets and project deleted together |
| `SecretsData.Database.SetSyncState` | `restic-secrets-manager-server/src/projects/ProjectsData.ts:138-153` | The sync columns of the row |
| `SecretsData.Database.SetCurrentHash` | `restic-secrets-manager-server/src/projects/ProjectsData.ts:156-165` | The current hash of the row |
| `SecretsDataFacts.StoredIsWellFormed` | `restic-secrets-manager-server/src/secrets/SecretsData.ts:18-35` | What is listed for a project has unique names and unique keys |
| `SecretsDataFacts.InsertedAllSucceeds` | `restic-secrets-manager-server/src/secrets/SecretsData.ts:270-272` | The inserts of a replacement succeed for unique names and unused ids of an existing project |
| `SecretsHash.HashIdentifiesContent` | `restic-secrets-manager-server/src/secrets/SecretsHash.ts:17-29` | With unique names, two lists have the same hash exactly when they hold the same name-to-key-to-value content, whatever the order of secrets and keys |
| `SecretsBackfill.BackfillAll` | `restic-secrets-manager-server/src/secrets/SecretsHash.ts:100-123` | The startup loop: the state after it, project by project |
| `SecretsBackfill.BackfillProject` | `restic-secrets-manager-server/src/secrets/SecretsHash.ts:104-121` | One round: missing hash computed, baseline rewritten only on a legacy match |
| `SecretsBackfill.SetBaseline` | `restic-secrets-manager-server/src/projects/ProjectsData.ts:168-177` | The baseline of the row |
| `SecretsBackfill.BackfillRestoresConsistency` | `restic-secrets-manager-server/src/secrets/SecretsHash.ts:90-123` | Afterwards every stored current hash is the hash of the stored secrets |
| `SecretsBackfill.LegacyHashIdentifiesOrderedContent` | `restic-secrets-manager-server/src/secrets/SecretsHash.ts:37-42` | The legacy hash identifies the content together with the insertion order of every secret's keys |
| `SecretsBackfill.RewrittenBaselineHadTheCurrentContent` | `restic-secrets-manager-server/src/secrets/SecretsHash.ts:111-121` | A rewritten baseline was the hash of content equal to the current one |
| `SecretsBackfill.BackfillNeverHidesAChange` | `restic-secrets-manager-server/src/secrets/SecretsHash.ts:90-121` | After the backfill a changed content is always flagged; a canonical baseline is exact; a legacy one shows a change that is none exactly when the recorded key order is neither the current nor the sorted one |
| `SecretsBackfill.ReorderedKeysKeepAFalseFlag` | `restic-secrets-manager-server/src/secrets/SecretsHash.ts:111-121` | Two keys recorded as b, a and stored as a, b: equal content, and the flag stays on |
| `SecretsDiff.ComputeSecretsDiff` | `restic-secrets-manager-server/src/secrets/SecretsDiff.ts:46-97` | The whole algorithm: every secret and key that differs, once, in order; added when only the incoming list has it, removed when only the current one has it, changed when both have it differently; each with the lengths of the values on its own side. The six counters are the sizes of those sets of names and keys |
| `SecretsDiff.DiffSecretKeys` | `restic-secrets-manager-server/src/secrets/SecretsDiff.ts:99-127` | The keys that differ between two versions of a secret, once, in order, each added, removed or changed with its lengths, and counted |
| `SecretsDiff.DiffIncoming` | `restic-secrets-manager-server/src/secrets/SecretsDiff.ts:65-81` | One round over the incoming secrets: one more entry exactly when the two lists differ on the name, added when the current list lacks it and changed otherwise |
| `SecretsDiff.DiffCurrent` | `restic-secrets-manager-server/src/secrets/SecretsDiff.ts:83-93` | One round over the current secrets: one more entry, removed, exactly when the incoming list lacks the name |
| `Difference.SecretsAreListed` | `restic-secrets-manager-server/src/secrets/SecretsDiff.ts:30-45` | What the entries say, in order, leaves one possible answer: a list describes the difference of two contents exactly when it is the listing of the changes |
| `Difference.CountersCount` | `restic-secrets-manager-server/src/secrets/SecretsDiff.ts:52-61` | In any such list the counters are the numbers of names and keys that only one side has, or that both have differently |
| `JsStrings.LessIff` | `restic-secrets-manager-server/src/secrets/SecretsDiff.ts:95` | The order of names and keys: a proper prefix first, otherwise the smaller code unit at the first difference |
| `SecretsDiffFacts.EmptyDiffMeansEqualContent` | `restic-secrets-manager-server/src/secrets/SecretsDiff.ts:46-97` | The difference is empty exactly when the contents are equal |
| `SecretsDiffFacts.SwappingSidesMirrorsTheDiff` | `restic-secrets-manager-server/src/secrets/SecretsDiff.ts:46-131` | Swapping the arguments swaps added with removed and before with after, entry by entry |
| `SecretsDiffFacts.SwappingSidesSwapsTheCounters` | `restic-secrets-manager-server/src/secrets/SecretsDiff.ts:65-93` | Swapping the arguments swaps the added and removed counters and keeps the changed ones |
| `Snapshots.RecencyIsStrictTotalOrder` | `restic-secrets-manager-server/src/restic/ResticClient.ts:276-304` | Recency is a strict total order on snapshots with distinct ids, missing and unparsable times included |
| `Snapshots.NewerIff` | `restic-secrets-manager-server/src/restic/ResticClient.ts:276-304` | Newer means a later instant; a missing or unparsable time is older than any; equal instants go by id |
| `Snapshots.LatestIsMaximum` | `restic-secrets-manager-server/src/restic/ResticClient.ts:310-319` | The reduce picks the snapshot every other one is older than |
| `Snapshots.LatestForgetsListingOrder` | `restic-secrets-manager-server/src/restic/ResticClient.ts:310-319` | The latest snapshot does not depend on the order of the listing |
| `Snapshots.LatestHeadsHistory` | `restic-secrets-manager-server/src/restic/SyncService.ts:554-557` | The first row of the sorted history is the latest snapshot |
| `Snapshots.HistoryIsNewestFirst` | `restic-secrets-manager-server/src/restic/SyncService.ts:554-557` | The history lists every snapshot once, each one more recent than all those after it |
| `SnapshotHistory.MergedKeepsBoth` | `restic-secrets-manager-web/utils/snapshot-history.ts:31-44` | Whatever pages overlap: what was loaded stays a prefix, no id is repeated or lost, and exactly entries of the new page are appended, each the first of its id there, in its order |
| `SnapshotHistory.MergeSnapshotPages` | `restic-secrets-manager-web/utils/snapshot-history.ts:31-44` | The client loop computes that merge |
| `SnapshotHistory.FollowingCursorsLoadsTheFirstListing` | `restic-secrets-manager-server/src/restic/SnapshotHistory.ts:76-100` | Following nextBefore ends within as many requests as the first listing has entries, for any positive limits, and the merged pages are exactly that listing, even when newer snapshots appear ahead of the cursor between requests |
| `SnapshotHistory.FollowFrom` | `restic-secrets-manager-server/src/restic/SnapshotHistory.ts:93-99` | Until the last page, what is loaded is exactly the newest part of the first listing |
| `SnapshotHistory.PageContinues` | `restic-secrets-manager-server/src/restic/SnapshotHistory.ts:81-99` | A page holds exactly the next limit entries after its cursor, and its own cursor is its last entry while there are more |
| `SyncLocks.Chains.RunInChain` | `restic-secrets-manager-server/src/restic/SyncLocks.ts:37-55` | A submission: the previous tail it waits for and the new tail of the project |
| `SyncLocks.Chains.PreviousSettled` | `restic-secrets-manager-server/src/restic/SyncLocks.ts:43` | The reaction to the previous tail: its task runs after a fulfilled tail, and is skipped after a rejected one |
| `SyncLocks.Chains.ResultSettled` | `restic-secrets-manager-server/src/restic/SyncLocks.ts:44-47` | The tail is fulfilled whatever the result |
| `SyncLocks.Chains.TailSettled` | `restic-secrets-manager-server/src/restic/SyncLocks.ts:49-53` | The entry is dropped only by the tail it still holds |
| `SyncLocks.StartsIffHead` | `restic-secrets-manager-server/src/restic/SyncLocks.ts:37-55` | Over every order of callbacks: a waiting task may start exactly when it is the head of its project's queue |
| `SyncLocks.RunningIsHead` | `restic-secrets-manager-server/src/restic/SyncLocks.ts:37-55` | The running task of a project is the head of its queue, so there is at most one |
| `SyncLocks.EarlierTasksHaveFinished` | `restic-secrets-manager-server/src/restic/SyncLocks.ts:42-43` | Once a task started, every earlier task of its project has finished |
| `SyncLocks.QueueMoves` | `restic-secrets-manager-server/src/restic/SyncLocks.ts:37-55` | A queue grows only at its end, by a submission, and shrinks only at its head: the chains refine one FIFO mutex per project |
| `SyncLocks.HeadCanMove` | `restic-secrets-manager-server/src/restic/SyncLocks.ts:44-47` | The head of a queue can always move on, whether its task succeeded, failed or has not run |
| `SyncLocks.NeverSkipped` | `restic-secrets-manager-server/src/restic/SyncLocks.ts:44-47` | No tail is ever rejected, so a failed task never skips a later one |
| `SyncLocks.ProjectsAreIndependent` | `restic-secrets-manager-server/src/restic/SyncLocks.ts:42-48` | What happens to one project leaves every task of another as startable as before |
| `SyncLocks.EntryUntilLastIsCleaned` | `restic-secrets-manager-server/src/restic/SyncLocks.ts:49-53` | A missing entry means an empty queue, and an entry lasts exactly until the reaction of the project's last task |
| `SyncLocks.SubmissionGetsItsTasksResult` | `restic-secrets-manager-server/src/restic/SyncLocks.ts:43-48` | In every continuation the promise of a submission is fulfilled exactly when its own task succeeded, and rejected exactly when its own task failed |
| `SyncStatusCache.StatusCache.TakeSlot` | `restic-secrets-manager-server/src/restic/SyncStatusCache.ts:137-182` | The slot counter, the queue and the outcome of a run that asks for a slot |
| `SyncStatusCache.StatusCache.FreeSlot` | `restic-secrets-manager-server/src/restic/SyncStatusCache.ts:184-192` | A slot is freed or handed to the head of the queue |
| `SyncStatusCache.StatusCache.AbortRun` | `restic-secrets-manager-server/src/restic/SyncStatusCache.ts:164-176` | An abort removes a queued run from the queue at once |
| `SyncStatusCache.StatusCache.Start` | `restic-secrets-manager-server/src/restic/SyncStatusCache.ts:194-241` | A run is created, asks for its slot and is put in flight |
| `SyncStatusCache.StatusCache.RunnerSettled` | `restic-secrets-manager-server/src/restic/SyncStatusCache.ts:214-235` | A settled runner: value cached unless aborted or invalidated, slot freed, flight left |
| `SyncStatusCache.StatusCache.SlotRefused` | `restic-secrets-manager-server/src/restic/SyncStatusCache.ts:227-235` | A refused run fails without a slot and leaves the flight |
| `SyncStatusCache.StatusCache.Join` | `restic-secrets-manager-server/src/restic/SyncStatusCache.ts:249-280` | A caller joins a run and subscribes on its signal |
| `SyncStatusCache.StatusCache.Finish` | `restic-secrets-manager-server/src/restic/SyncStatusCache.ts:258-266` | A caller is settled once |
| `SyncStatusCache.StatusCache.CallerDisconnected` | `restic-secrets-manager-server/src/restic/SyncStatusCache.ts:267-274` | The disconnect callback: the caller settles, the run is aborted when it was the last one |
| `SyncStatusCache.StatusCache.SignalAborted` | `restic-secrets-manager-server/src/restic/SyncStatusCache.ts:72-78` | The hub of a signal is dropped, then every callback runs in order |
| `SyncStatusCache.StatusCache.StatusGet` | `restic-secrets-manager-server/src/restic/SyncStatusCache.ts:294-326` | A request: fresh value, stale value with a background run, joined run, or new run |
| `SyncStatusCache.StatusCache.StatusInvalidate` | `restic-secrets-manager-server/src/restic/SyncStatusCache.ts:340-348` | An invalidation |
| `SyncStatusCache.StatusCache.RunSettled` | `restic-secrets-manager-server/src/restic/SyncStatusCache.ts:275-278` | The reaction of a caller to its run |
| `SyncStatusCacheTheorems.SlotsAreExact` | `restic-secrets-manager-server/src/restic/SyncStatusCache.ts:137-192` | In every reachable state the counter is the number of runs holding a slot, at most three; the queue holds exactly the waiting runs in order of arrival; a non-empty queue means all slots are busy |
| `SyncStatusCacheTheorems.CompletionServesTheHead` | `restic-secrets-manager-server/src/restic/SyncStatusCache.ts:184-192` | Each completion lowers active plus queued by exactly one and gives its slot to the head of the queue |
| `SyncStatusCacheTheorems.QueueDrainsInOrder` | `restic-secrets-manager-server/src/restic/SyncStatusCache.ts:184-192` | With completions only, after n of them exactly the first n waiters were served |
| `SyncStatusCacheTheorems.StartedRunWaitsItsTurn` | `restic-secrets-manager-server/src/restic/SyncStatusCache.ts:137-150` | A new run holds a slot exactly when one was free, is refused exactly when all are busy and the queue is full, and otherwise waits at the end |
| `SyncStatusCacheTheorems.SingleFlight` | `restic-secrets-manager-server/src/restic/SyncStatusCache.ts:194-241` | A project has at most one unfinished run of its current generation: the in-flight one, a background run exactly when a value is cached |
| `SyncStatusCacheTheorems.NoCallerJoinsABackgroundRun` | `restic-secrets-manager-server/src/restic/SyncStatusCache.ts:308-316` | No caller ever waits for a background run |
| `SyncStatusCacheTheorems.RequestsAreServed` | `restic-secrets-manager-server/src/restic/SyncStatusCache.ts:294-326` | A connected request is answered at once exactly when a value is cached, however old, and otherwise waits for the one run in flight; a fresh value starts nothing, a stale one leaves a run in flight, and at most one run starts, of that project |
| `SyncStatusCacheTheorems.CachedValuesAreFresh` | `restic-secrets-manager-server/src/restic/SyncStatusCache.ts:216-225` | However runs, aborts and invalidations overlap, a cached value is the answer of a run that started after the last invalidation of the project and was not aborted when it settled |
| `SyncStatusCacheTheorems.OnlyTheRunInFlightIsCached` | `restic-secrets-manager-server/src/restic/SyncStatusCache.ts:214-235` | A settled run stores its value exactly when it is in flight and not aborted, a failure is never stored, and the run leaves the flight |
| `SyncStatusCacheTheorems.GoneClientsWaitForNothing` | `restic-secrets-manager-server/src/restic/SyncStatusCache.ts:64-95` | In every reachable state no caller of a disconnected client is unsettled, and no run holds a token for one, whatever was requested before or after the disconnect |
| `SyncStatusCacheTheorems.InvalidationDetaches` | `restic-secrets-manager-server/src/restic/SyncStatusCache.ts:340-348` | An invalidation drops the value, detaches and aborts the run in flight, and leaves other projects' values |
| `SyncStatusCacheTheorems.TokensAreTheUnsettledCallers` | `restic-secrets-manager-server/src/restic/SyncStatusCache.ts:253-266` | The token set of a run is exactly its unsettled callers |
| `SyncStatusCacheTheorems.SettledCallersStaySettled` | `restic-secrets-manager-server/src/restic/SyncStatusCache.ts:256-266` | A caller settles at most once, over every turn |
| `SyncStatusCacheTheorems.DisconnectAnswersOnlyItsCallers` | `restic-secrets-manager-server/src/restic/SyncStatusCache.ts:64-95` | A disconnect gives a 499 to exactly the unsettled callers of that client |
| `SyncStatusCacheTheorems.AbortedOnlyByInvalidationOrLastDisconnect` | `restic-secrets-manager-server/src/restic/SyncStatusCache.ts:267-274` | A run becomes aborted if and only if it is invalidated while in flight, or all its remaining callers, at least one, disconnect with the same client |
| `SyncStatusCacheTheorems.ConnectedCallersGetTheirRunsAnswer` | `restic-secrets-manager-server/src/restic/SyncStatusCache.ts:275-278` | A settled caller whose client stayed connected has exactly the answer of its run |
| `SyncStatusOutcomes.RunsMoveOn` | `restic-secrets-manager-server/src/restic/SyncStatusCache.ts:137-241` | Every turn leaves a run where it is, grants or cancels a queued one, settles one that holds a slot, or fails a refused one with the reason of its refusal |
| `SyncStatusOutcomes.RefusedCallersAreTold` | `restic-secrets-manager-server/src/restic/SyncStatusCache.ts:137-150` | A run that was refused a slot never gets one: in every continuation it fails with that very reason, and a connected caller is told it |
| `SyncStatusOutcomes.OnlyAbortedRunsAreToldDisconnected` | `restic-secrets-manager-server/src/restic/SyncStatusCache.ts:164-176` | In every reachable state a refused run was refused for a full queue, or it was aborted and fails as disconnected |
| `SyncStatusCacheTheorems.StepKeeps` | `restic-secrets-manager-server/src/restic/SyncStatusCache.ts:294-348` | Every turn of the event loop keeps the invariant the results above are read from |
| `SecretEnv.ComputeNeedsQuoting` | `restic-secrets-manager-server/src/secrets/SecretEnv.ts:81-101` | The scan that decides on quotes |
| `SecretEnv.EscapeEnvValue` | `restic-secrets-manager-server/src/secrets/SecretEnv.ts:47-79` | The printed form of a value |
| `EnvRoundTrip.ExportFailsIff` | `restic-secrets-manager-server/src/secrets/SecretEnv.ts:35-40` | The export fails exactly when some key is empty, starts with a digit, or holds anything but ASCII letters, digits and underscores, and names exactly those keys |
| `EnvRoundTrip.NamedKeysInOrder` | `restic-secrets-manager-server/src/secrets/SecretEnv.ts:36-40` | The named keys are the keys that are not portable, each at its turn: none missing, added, repeated or moved |
| `EnvRoundTrip.ExportIsOneLinePerKey` | `restic-secrets-manager-server/src/secrets/SecretEnv.ts:41-45` | An exported file is one line per key in order, each ended by a line feed, and nothing for an empty map |
| `EnvRoundTrip.PrintedValueIsPrintable` | `restic-secrets-manager-server/src/secrets/SecretEnv.ts:81-92` | No control character is ever written into a value |
| `EnvRoundTrip.PrintedBareIff` | `restic-secrets-manager-server/src/secrets/SecretEnv.ts:81-101` | A value is written without quotes exactly when it is not empty and holds neither white space nor control characters nor a quote, backslash, hash or equals sign |
| `EnvRoundTrip.UnescapeUndoesEscape` | `restic-secrets-manager-web/utils/secret-import.ts:110-132` | The client's unescape undoes the server's escape, for every string |
| `EnvRoundTrip.EscapesReadAs` | `restic-secrets-manager-web/utils/secret-import.ts:110-132` | What each escape of a double-quoted value reads as; an unknown one stays as it is |
| `EnvRoundTrip.UnicodeEscapesReadAs` | `restic-secrets-manager-web/utils/secret-import.ts:110-132` | A unicode escape reads as the code unit its four hexadecimal digits spell, in either case |
| `EnvRoundTrip.ExportImportsBack` | `restic-secrets-manager-web/utils/secret-import.ts:60-107` | Every export of a non-empty map imports back to the same keys in order without a warning: quoted values exactly, unquoted ones trimmed |
| `EnvRoundTrip.ExportRoundTripsIff` | `restic-secrets-manager-server/src/secrets/SecretEnv.ts:35-45` | All values come back unchanged if and only if no unquoted value starts or ends with a character that trim strips |
| `EnvRoundTrip.NoBreakSpaceIsLost` | `restic-secrets-manager-server/src/secrets/SecretEnv.ts:81-101` | A value that starts with a no-break space is exported without quotes and comes back without it |
| `EnvRoundTrip.AsciiRoundTrips` | `restic-secrets-manager-server/src/secrets/SecretEnv.ts:35-45` | ASCII values always come back unchanged |
| `SecretImport.ParseSecretImport` | `restic-secrets-manager-web/utils/secret-import.ts:16-25` | The choice between nothing, JSON text and .env text |
| `ImportFacts.ImportKindIff` | `restic-secrets-manager-web/utils/secret-import.ts:16-25` | Text is JSON exactly when its first visible character is an opening brace or bracket, and nothing to import exactly when it has none |
| `SecretImport.ParseEnvImport` | `restic-secrets-manager-web/utils/secret-import.ts:60-107` | The loop over the lines, its rows, warnings and errors |
| `SecretImport.AddRow` | `restic-secrets-manager-web/utils/secret-import.ts:93-101` | One assignment: the last value wins and keeps the first place |
| `SecretImport.LastValueWins` | `restic-secrets-manager-web/utils/secret-import.ts:93-101` | Each key has one row with the last value assigned to it, and every other assignment is a warning |
| `SecretImport.EarlierRowsKeepTheirPlaces` | `restic-secrets-manager-web/utils/secret-import.ts:93-101` | A row stands where its key was first assigned, whatever lines follow, and the warnings follow the order of the lines |
| `SecretImport.FirstRejectedLineIsNamed` | `restic-secrets-manager-web/utils/secret-import.ts:74-86` | The import fails exactly when a line is rejected, and the error names the first one |
| `ImportFacts.CommentsAreSkipped` | `restic-secrets-manager-web/utils/secret-import.ts:67-70` | After any white space, a line is skipped exactly when it is a comment |
| `ImportFacts.ExportPrefixIsIgnored` | `restic-secrets-manager-web/utils/secret-import.ts:71-73` | An export prefix changes nothing |
| `ImportFacts.SingleQuotedIsLiteral` | `restic-secrets-manager-web/utils/secret-import.ts:87-92` | A single-quoted value is taken literally, without escapes or trimming |
| `ImportFacts.LineEndingsDoNotMatter` | `restic-secrets-manager-web/utils/secret-import.ts:64` | Unix, Windows and old Macintosh line endings give the same import |

## Left out

- SyncTheorems.RacingPushesNeedAnApplyBetween: assumes the pushes in question recorded their own snapshots; a push that recorded a foreign snapshot may move the recorded id backwards.
- SyncRaces.RacingPushesNeedTheirIdAppliedIff: speaks of continuations in which pushes record their own snapshots.
- SyncTheorems.FlagIsExact: assumes the last commit recorded its own snapshot, see the refutation above.
- SyncStatusCacheTheorems.CachedValuesAreFresh: speaks of when the run started, not of the project row its request had read before.
- SyncStatusCacheTheorems.ConnectedCallersGetTheirRunsAnswer: that answer may be a 499 when the joined run was already aborted.
- SecretImport.ParseSecretImport: JSON text is handed over unparsed; the JSON syntax and its import rows are not modelled.
- SyncStatusCache.StatusCache.TakeSlot: the configured queue limit is a natural number; a fractional one acts as its ceiling.
- SyncStatusCache.StatusCache.AbortRun: the one callback on a run's own controller signal is the cancellation of its waiter, so it is not kept in a hub of its own.
- SecretsData.Database.ListForProject: `ORDER BY "name"` is not modelled; no result depends on the order of the list.
- SecretImport.ParseEnvImport: `byKey` holds the index of a row instead of a reference to it.
- Project creation, its unlocked hash refresh, and the project list and status routes.
- Creation and update dates, normalization of request values to strings, and the request checks in front of the write sections that only reject malformed bodies or ids.
- SQL dialects, migrations, connection handling, the advisory lock itself, and the JSON text of the `data` column.
- Restic processes, output parsing, timeouts, temporary directories and permissions: a restic call is a step that may fail or be late.
- JavaScript object corner cases: names inherited from `Object.prototype`, the key `__proto__`, and the reordering of integer-like keys.
- Snapshot attribution (`pushed-by` tags), connection test, counts in answers, error texts, headers, scopes, notifications and telemetry.
- The query parsing in front of the pagination and the state of the history modal.
