# Verified model of the archive, recovery and protocol code of the tabletop API

A Dafny model of the logic under `apps/api/src` that moves campaign data in and out of the
engine and of the small stateful protocols around it, with machine-checked proofs. It covers:

- **Import recovery** (`Recovery*.dfy`): the inverse steps an archive import records, the plan of
  a partial rollback (including the shrinking fixpoint over references), its application, its
  execution against an object store that may fail, and whole runs of attempts.
- **Archive graph operations** (`ExportClosure`, `ExportReferences`, `IdRegeneration`,
  `Scene*.dfy`): closure of an export under
  references, what an import then misses, copying under fresh ids, duplicating scenes.
- **Transport** (`ArchiveFraming`, `ArchiveStream`, `Base64`): the framed stream over arbitrarily
  chunked input, and base64 with a carry.
- **Compensating storage** (`AssetRestore`, `AssetRestoreRuns`, `PairedBackup`): the restore journal
  and its runs, and capturing and restoring managed asset objects.
- **Controlled creatures** (`Creature*.dfy`): ending a creature under its revision set, and
  transforming and reverting an actor.
- **Protocols** (`LoginThrottle*`, `BoundedVerifier`, `JobLeases`, `Webhook*`, `StablePrinter*`,
  `OperatorTargets`, `IdentityPruning`, `OperationalRetention`): login throttling, the bounded
  password verifier, job leases, webhook delivery retention, and operator mutations bound to a
  previewed digest.

`dafny verify dfyconfig.toml` checks everything. `Json`, `Texts`, `Sequences` and `Revisions` hold shared
definitions.

## How the model reads the code

- Code that changes state step by step is a class with methods, or a method with a loop, proved
  against a function of the old state; the lemmas are about those functions.
- Timestamps are integers; `localeCompare` is a total order on names (lexicographic on characters).
- Digests and the text forms of metadata and headers are function parameters. A digest is assumed
  not to collide only where a contract says so (`NoCollisions`, `NewNamesUnused` and `GroupsApart` on the ids
  one operation copies, `Digest`, `NeverCollides`, and `NoConfusion` for the checksum of replaced bytes).
- Ids are unique within a collection where a contract says so. Import steps need it: two steps with
  one (collection, id) would share one entry of the map of active deletes
  (campaign-archive-import-recovery.ts:445-449).
- Numbers in JSON values are integers.
- Records keep the members that decide something as fields and all others as one JSON value.
  Undefined members and absent members are the same; optional texts that the code tests for
  truth count as absent when empty.
- Copying before writing is value semantics here, so "unchanged" is stated as equality.
- Randomness, clocks, failures of storage and answers of foreign code are parameters or
  nondeterministic choices of the modelled store.

## Findings

Where a promise does not hold of the code for every input, the code is modelled as it is, a lemma
gives a concrete input, and the exact condition is proved.

- *Stable printer*: a list that holds one `undefined` prints like the empty list
  (`StablePrinterMeaning.HolesCollide`); nothing else collides (`StablePrinter.PrintsAlikeIff`).
- *Ending a creature*: a record of kind `transformation` without a remembered state removes the
  actor's items, which its revision set does not list (`CreatureWrites.ForgottenItemIsUnlisted`);
  exactly then the set fails to cover the writes (`CreatureWrites.EndWritesListedIff`).
- *Reverting a transformation*: it fails exactly when a suppressed item belongs to another campaign,
  because suppression looks at the holder and restoration at the campaign
  (`CreatureRevert.RevertUndoesTransform`, with the input in `CreatureRevert.ForeignItemBlocksRevert`).
- *Export then import*: actors that combat actions updated or affected are checked on import and not
  followed on export (`ExportReferences.AffectedActorIsLeftOut`); nothing else is missed
  (`ExportReferences.ExportMissesOnlyActionActors`).
- *Base64*: non-zero spare bits pass the shape check, so decoding is not injective
  (`Base64.SpareBitsIgnored`); re-encoding gives the text back exactly when they are zero
  (`Base64.EncodeDecodeIff`).
- *Restore journal*: against a store that may choose another key for a put, a rollback that succeeds
  can leave a destination without its old bytes; `AssetRestoreRuns.SomeRunLoses` gives the run: the
  file is stored under its default key, the rollback deletes it, and the old bytes go under another
  key. A destination comes back in every run exactly when the provider uses the default keys, as both
  providers of the repository do, or the destination was absent (`AssetRestoreRuns.PutBackIff`).
- *Scene duplication*: the check that annotations affect copied tokens only lets one through whose
  first foreign token has the empty id (`SceneDuplicationLaws.UnnamedTokenIsLetThrough`); exactly then,
  or when a token has the empty actor and a copied record the empty id, a copy refers to something
  that is no copy (`SceneDuplicationLaws.CopiesStayTogether`).
- *Annotation groups of a duplicated scene* are renamed like references before they get their new
  names, so a group named like a selected record and one named like that record's copy are merged
  (`SceneDuplicationLaws.GroupsAreMerged`); all others stay as they were
  (`SceneDuplicationLaws.GroupsArePreserved`).
- *Webhook deliveries*: the next attempt number is taken from the ledger, so a number is given again
  exactly when the latest attempt at an event was pruned before the event is retried
  (`WebhookHistory.NumbersDistinctIff`). That happens when an earlier attempt is kept for the sake of
  a queued retry (`WebhookReuse.NumberGivenTwice`).
- *Restoring a snapshot* whose entries share a ref and disagree, as verification allows
  (`PairedBackup.DisagreeingIsSound`), keeps the last of them; exactly otherwise every captured object
  is reproduced (`PairedBackup.RestoreSnapshot`). Capturing makes no such entries as long as the
  source stays as it is.
- *Session pruning and risk revocation* disagree exactly on a session whose expiry does not parse
  (`IdentityPruning.UnparsedExpiry`): it goes when expired sessions are revoked and stays when they
  are pruned (`IdentityPruning.RevokedButNotPruned`).

## Model

| member | source | states |
|---|---|---|
| RecoveryReferences.SequentialIsSimultaneous | apps/api/src/campaign-archive-import-recovery.ts:464-482 | splicing, overwriting and pushing one decision after the other has exactly the effect of all applied decisions at once, in whatever order they come |
| RecoveryReferences.StateWithRecordDecisions | apps/api/src/campaign-archive-import-recovery.ts:464-482 | the loop builds the state in which the active deletes and all restores are applied |
| RecoveryReferences.FewerDeletesMentionMore | apps/api/src/campaign-archive-import-recovery.ts:464-499 | withdrawing deletes can only add mentions of an id, never remove one |
| RecoveryReferences.SurvivorsGreatest | apps/api/src/campaign-archive-import-recovery.ts:444-462 | among the planned deletes there is a greatest set such that the state after those deletes and all restores mentions none of the deleted ids outside operational collections |
| RecoveryReferences.AddReferenceConflicts | apps/api/src/campaign-archive-import-recovery.ts:444-462 | the loop terminates and, whatever order a round visits, marks as reference conflicts exactly the planned deletes outside that greatest set |
| RecoveryReferences.WithdrawMentioned | apps/api/src/campaign-archive-import-recovery.ts:450-460 | one round either withdraws a mentioned delete, losing no consistent set, or finds the remaining deletes consistent |
| RecoveryState.CanonicalMentions | apps/api/src/campaign-archive-import-recovery.ts:484-525 | the comparable form of a value mentions exactly the ids the value mentions, at every depth |
| RecoveryState.MentionsIff | apps/api/src/campaign-archive-import-recovery.ts:494-499 | a value mentions an id exactly when the id is the text at some path whose last step is not through a member named id |
| RecoveryState.SameRecordsMentionSame | apps/api/src/campaign-archive-import-recovery.ts:494-525 | records that compare as the same mention the same ids |
| RecoveryPlan.RollbackPlan | apps/api/src/campaign-archive-import-recovery.ts:317-371 | the planning loops decide every unsettled record and asset step as the specification says and report exactly its conflicts |
| RecoveryPlan.InitialApplicable | apps/api/src/campaign-archive-import-recovery.ts:322-328 | every step the plan decides to apply finds its record in the state, and no two decisions concern one record |
| RecoveryPlan.PlanCouples | apps/api/src/campaign-archive-import-recovery.ts:331-369 | after planning, an asset's record decision and its byte decision conflict together or not at all |
| RecoverySettle.RemainingIffConflicts | apps/api/src/campaign-archive-import-recovery.ts:402-415 | after an attempt some step is open exactly when the attempt had a conflict, and the status is rolled back exactly when it had none |
| RecoverySettle.SettlesRecord | apps/api/src/campaign-archive-import-recovery.ts:402-410 | a settled record step keeps its time; an open one is settled exactly when its decision is no conflict |
| RecoverySettle.SettlesAsset | apps/api/src/campaign-archive-import-recovery.ts:402-410 | the same for byte steps |
| RecoveryRuns.StateForRollback | apps/api/src/campaign-archive-import-recovery.ts:373-442 | applying a plan yields the specified state (records, revisions, audit rows) and the settled operation |
| RecoveryRuns.AttemptChangesOnly | apps/api/src/campaign-archive-import-recovery.ts:380-424 | an attempt changes a record only if a decision on it is applied, and then to exactly that decision's inverse; a campaign besides gets a revision |
| RecoveryRuns.SettledRecordLeft | apps/api/src/campaign-archive-import-recovery.ts:322-328 | an attempt leaves the record of a step that is already settled exactly as it is, a campaign's revision aside |
| RecoveryRuns.RunKeeps | apps/api/src/campaign-archive-import-recovery.ts:317-415 | over every run of attempts and edits: settled steps stay as they are, an asset's record and bytes settle together, and the operation is rolled back exactly when the last attempt had no conflict |
| RecoveryEdits.EditedRecordStays | apps/api/src/campaign-archive-import-recovery.ts:322-328 | a record that users changed since the import, so that it is neither what the import left nor what the step would make of it, stays as it is, its step stays open, the operation stays partially rolled back, and the conflict is reported |
| RecoveryEdits.BackRecordStays | apps/api/src/campaign-archive-import-recovery.ts:324-325 | a record that is already gone or already restored stays as it is, and its step settles unless the bytes of the same asset were edited |
| RecoveryEdits.UneditedRecordUndone | apps/api/src/campaign-archive-import-recovery.ts:322-369 | a record that is as the import left it is deleted or restored and its step settles, unless its asset's bytes were edited or it is to be deleted while something refers to it; then record and step stay |
| RecoveryEdits.EditedBytesStay | apps/api/src/campaign-archive-import-recovery.ts:331-359 | bytes that are neither the imported ones nor those to be put back stay, their step stays open, and the conflict is reported; bytes that are already back stay |
| RecoveryEdits.UneditedBytesReturn | apps/api/src/campaign-archive-import-recovery.ts:331-369 | bytes that are as the import wrote them are put back, or removed where there were none, exactly when their step settles |
| RecoveryEdits.SameRecordIff | apps/api/src/campaign-archive-import-recovery.ts:501-525 | a record counts as unchanged exactly when its id and members, whatever their order and apart from undefined ones, are the same and, but for a campaign, so is its revision |
| RecoveryEdits.AuditTrail | apps/api/src/campaign-archive-import-recovery.ts:425-441 | an attempt appends one audit record per campaign of the operation, or one without a campaign, each naming the operation |
| RecoveryRoundTrip.UpsertRecords | apps/api/src/archive-operations.ts:1790-1828 | upserting overwrites a record with the same id in place and appends the others in order |
| RecoveryRoundTrip.MergeArchive | apps/api/src/archive-operations.ts:1378-1456 | merging upserts collection by collection |
| RecoveryRoundTrip.ImportAt | apps/api/src/archive-operations.ts:1378-1456 | in each collection an import is one upsert of the records for it, and collections the merge does not take are untouched |
| RecoveryRoundTrip.CreateRecordSteps | apps/api/src/campaign-archive-import-recovery.ts:155-187 | the recorded steps are those of the records that are new or changed by the import |
| RecoveryRoundTrip.StepsUnique | apps/api/src/campaign-archive-import-recovery.ts:155-187 | no record gets two inverse steps |
| RecoveryIdentity.PlannedAreCreated | apps/api/src/campaign-archive-import-recovery.ts:322-328 | right after an import the planned deletes are exactly the ids the import created |
| RecoveryIdentity.BackToBefore | apps/api/src/campaign-archive-import-recovery.ts:380-400 | undoing all steps of an import gives each collection its old sequence, order included |
| RecoveryIdentity.ImmediateRollbackConflicts | apps/api/src/campaign-archive-import-recovery.ts:317-371 | an immediate rollback has no conflict exactly when the state before the import mentioned none of the ids it created |
| RecoveryIdentity.ImportThenRollbackIsIdentity | apps/api/src/campaign-archive-import-recovery.ts:373-424 | with the imported bytes intact, import followed by immediate rollback is then the identity on every collection but the audit log, apart from campaign revisions |
| RecoveryExecute.RecoveryService.Rollback | apps/api/src/campaign-archive-import-recovery.ts:249-309 | on success state, operation and object store are those of the plan; on a compensated failure all three are as before; on any failure state and operation are |
| RecoveryExecute.RecoveryService.WriteAssets | apps/api/src/campaign-archive-import-recovery.ts:262-275 | the decided byte writes are applied in order up to the first failure |
| RecoveryExecute.RecoveryService.Compensate | apps/api/src/campaign-archive-import-recovery.ts:284-303 | compensating in reverse order restores exactly the bytes there were |
| RecoveryBytes.PrepareAssetSteps | apps/api/src/campaign-archive-import-recovery.ts:82-126 | before an import writes, each destination whose bytes it will change gets an inverse step and, if it has bytes, a copy of them; after a failure only copies may have gone again |
| RecoveryBytes.PlanPutsBack | apps/api/src/campaign-archive-import-recovery.ts:331-369 | right after an import that created nothing already mentioned, the plan has no conflict and decides to put every destination's bytes back |
| RecoveryBytes.ImportedBytesReturn | apps/api/src/campaign-archive-import-recovery.ts:82-309 | whatever store a successful immediate rollback leaves agrees, outside the keys of the copies, with the store before the import, byte for byte |
| ArchiveFraming.WordRoundTrip | apps/api/src/archive-stream.ts:508-515 | a four-byte length reads back as the number written |
| ArchiveFraming.WireParses | apps/api/src/archive-stream.ts:288-402 | the parser accepts every wire text of acceptable metadata and frames and returns them, consuming every byte |
| ArchiveFraming.OnlyWireParses | apps/api/src/archive-stream.ts:288-402 | whatever the parser accepts is the wire text of what it returns |
| ArchiveFraming.WireInjective | apps/api/src/archive-stream.ts:130-222 | different archives have different wire texts |
| ArchiveFraming.AcceptableIff | apps/api/src/archive-stream.ts:322-389 | the frames let through are those whose header describes an embeddable listed asset and whose body has its size and checksum, each asset at most once, with the number of files and their bytes together within the limits |
| ArchiveStream.Cursor.ReadExactly | apps/api/src/archive-stream.ts:420-426 | for every chunking (empty chunks included) it returns the next bytes, or fails exactly when there are fewer |
| ArchiveStream.Cursor.ConsumeExactly | apps/api/src/archive-stream.ts:428-441 | the pieces handed out are the next bytes, in order |
| ArchiveStream.Cursor.AssertEnd | apps/api/src/archive-stream.ts:443-447 | it succeeds exactly at the end, where the digest covers the whole input |
| ArchiveStream.ParseArchiveStream | apps/api/src/archive-stream.ts:288-402 | the streaming parser's result and digest depend on the concatenated bytes only |
| ArchiveStream.AssertExportSize | apps/api/src/archive-stream.ts:81-113 | it refuses exactly the archives over the byte, file or per-asset limits |
| ArchiveStream.EncodeArchiveStream | apps/api/src/archive-stream.ts:130-222 | encoding succeeds exactly when sizes, checksums and availability allow it, and what it emits is the wire text |
| ArchiveStream.ExportThenImport | apps/api/src/archive-stream.ts:130-402 | what a successful export writes, an import within the same limits reads back |
| Base64.EncodeSplit | apps/api/src/archive-operations.ts:463-490 | whole triples encode independently of what follows |
| Base64.EncodeStream | apps/api/src/archive-operations.ts:460-490 | streaming with a carry equals encoding the whole, for every chunking, and gives up exactly over the limit |
| Base64.CanonicalBase64Shape | apps/api/src/archive-asset-restore.ts:315-336 | it accepts exactly texts of the right length with symbols up to the padding and only padding after |
| Base64.ShapeGivesSize | apps/api/src/archive-asset-restore.ts:289-336 | an accepted text decodes to exactly the declared number of bytes |
| Base64.DecodeEncode | apps/api/src/archive-asset-restore.ts:289-313 | decoding undoes encoding |
| Base64.EncodeShape | apps/api/src/archive-asset-restore.ts:315-336 | every encoding is accepted for its size |
| Base64.EncodeDecodeIff | apps/api/src/archive-asset-restore.ts:289-336 | an accepted text is the encoding of its decoding exactly when its spare bits are zero |
| Base64.SpareBitsIgnored | apps/api/src/archive-asset-restore.ts:315-336 | two different accepted texts decode to the same byte |
| Base64.Base64RoundTrip | apps/api/src/archive-operations.ts:460-490 | an embedded file written by an export, in whatever chunks it was read, is accepted and reads back as its bytes |
| Base64.DecodeBase64File | apps/api/src/archive-asset-restore.ts:289-313 | decoding slice by slice equals decoding the whole, for accepted texts only |
| Base64.CanonicalBase64Checksum | apps/api/src/archive-validation.ts:490-518 | the validator's checksum is that of the decoded bytes, or absent for texts of the wrong shape |
| AssetRestore.RestoreFiles | apps/api/src/archive-asset-restore.ts:133-193 | a restore succeeds exactly when no store call throws and it is not cancelled, and has then stored every body; a failed one leaves a journal rolled back, or one whose rollback can be repeated |
| AssetRestore.Snapshot | apps/api/src/archive-asset-restore.ts:145-165 | the journal remembers the previous bytes of every destination; it is built exactly unless a read throws or the restore is cancelled |
| AssetRestore.WriteFiles | apps/api/src/archive-asset-restore.ts:169-184 | files are stored in order until one fails or the restore is cancelled, before a put or after it, and the journal can then be rolled back |
| AssetRestore.Journal.Write | apps/api/src/archive-asset-restore.ts:166-185 | a put that may write and then throw still leaves its entry marked as attempted; only a put that returned another key leaves its destination unexposed |
| AssetRestore.Journal.Rollback | apps/api/src/archive-asset-restore.ts:218-262 | whenever it returns normally on an uncommitted journal, a destination holds its exact previous bytes if the provider uses the default keys, or it was absent, or no put wrote to it, however many earlier calls failed part-way; it returns normally exactly when no store call throws; after commit it changes nothing |
| AssetRestore.Journal.PerformRollback | apps/api/src/archive-asset-restore.ts:229-261 | attempted entries are undone last first, failures are counted and leave their entries to be tried again |
| AssetRestore.Journal.RollBackEntry | apps/api/src/archive-asset-restore.ts:225-250 | one entry is undone or left to be tried again, and no other entry is touched |
| AssetRestore.Journal.Commit | apps/api/src/archive-asset-restore.ts:212-217 | a commit deactivates the journal and forgets the previous bytes |
| AssetRestore.UndoKeeps | apps/api/src/archive-asset-restore.ts:232-255 | undoing one entry, whatever its two store calls do, keeps every other destination and all foreign objects, and puts back or leaves recoverable its own |
| AssetRestoreRuns.RunPutsBack | apps/api/src/archive-asset-restore.ts:166-262 | after any run of writes and failed rollbacks that ends with a successful one, a destination is as before if the provider uses the default keys or it was absent |
| AssetRestoreRuns.SomeRunLoses | apps/api/src/archive-asset-restore.ts:232-246 | for any destination that existed, a provider of other keys has a run that ends with a successful rollback and without its bytes |
| AssetRestoreRuns.PutBackIff | apps/api/src/archive-asset-restore.ts:195-262 | every run puts a destination back exactly when the provider uses the default keys or the destination did not exist |
| AssetRestoreRuns.NoRunLosesIff | apps/api/src/archive-asset-restore.ts:195-262 | no run loses bytes exactly when the provider uses the default keys or no destination existed |
| PairedBackup.CaptureAll | apps/api/src/paired-storage-backup.ts:127-159 | every expected object is captured with the bytes stored at its ref, and the totals count them |
| PairedBackup.SnapshotObjectsAre | apps/api/src/paired-storage-backup.ts:314-327 | the objects of a snapshot are those of the assets and of all their renditions, with their recorded sizes and checksums, expected exactly while the asset is not deleted and, for the asset itself, stored |
| PairedBackup.SnapshotInOrder | apps/api/src/paired-storage-backup.ts:314-327 | they are listed by campaign, asset and kind, the asset's own object first, whatever the order of the assets |
| PairedBackup.CreateSnapshot | apps/api/src/paired-storage-backup.ts:107-199 | a created snapshot is sound, named by its manifest, and captures every object of the assets |
| PairedBackup.VerifySnapshot | apps/api/src/paired-storage-backup.ts:207-245 | it accepts exactly snapshots whose identity, files, checksums and totals fit the manifest |
| PairedBackup.DisagreeingIsSound | apps/api/src/paired-storage-backup.ts:225-241 | a snapshot that passes verification with two different captures of one ref |
| PairedBackup.PutBack | apps/api/src/paired-storage-backup.ts:263-276 | every retained ref ends with the bytes of its last entry, so all captured objects are written back byte for byte exactly when entries that share a ref agree; nothing else changes |
| PairedBackup.DeleteOutside | apps/api/src/paired-storage-backup.ts:358-375 | every known removable object whose ref is not retained is deleted, and no other ref is touched |
| PairedBackup.RestoreSnapshot | apps/api/src/paired-storage-backup.ts:248-285 | success reproduces every captured object exactly when entries that share a ref agree, and otherwise the last of them; it leaves no unretained known object and changes nothing else; a retained ref never disappears, whatever fails |
| PairedBackup.BackUpAndRestore | apps/api/src/paired-storage-backup.ts:107-285 | after capture and restore each expected object is in the target with the bytes it had in the source |
| ExportClosure.AddRecordsById | apps/api/src/archive-operations.ts:167-188 | exactly the wanted source records not yet present are added, and the flag says whether any was |
| ExportClosure.FollowIs | apps/api/src/archive-operations.ts:216-319 | collection by collection, the references an export follows are those of exactly the listed fields |
| ExportClosure.CloseRecordDependencies | apps/api/src/archive-operations.ts:190-324 | the loop terminates with the least superset of the selection that is closed under the followed references |
| ExportClosure.SatisfiedIsClosed | apps/api/src/archive-operations.ts:200-322 | a round that adds nothing means the selection is closed |
| ExportReferences.CheckedIs | apps/api/src/archive-operations.ts:1614-1706 | the import checks exactly the references the export follows, but for those of world records, world relations and overrides, readers of journals, replies and rolls of combat actions, and besides them the actors that combat actions updated or affected |
| ExportReferences.ExportMissesOnlyActionActors | apps/api/src/archive-operations.ts:1542-1742 | importing a closed export of a complete campaign misses a reference exactly when an actor updated or affected by an exported combat's action is neither exported nor present |
| ExportReferences.AffectedActorIsLeftOut | apps/api/src/archive-operations.ts:1577-1742 | a complete campaign and a closed selection of it that the import refuses for such an actor |
| IdRegeneration.BuildIdMap | apps/api/src/archive-operations.ts:1151-1160 | every record with an id gets its own fresh id, and nothing else is mapped |
| IdRegeneration.RemapShape | apps/api/src/archive-operations.ts:1343-1350 | remapping changes texts only: structure, member names and other values stay |
| IdRegeneration.CopyRenames | apps/api/src/archive-operations.ts:1151-1160 | every record of the archive has a copy in its place with the same structure, in which every regenerated id has its new name and every other text is as it was |
| IdRegeneration.CopyRecoversOriginal | apps/api/src/archive-operations.ts:1151-1160 | remapping with the inverse map recovers the original data |
| IdRegeneration.ReferencesCorrespond | apps/api/src/archive-operations.ts:1151-1160 | a reference resolves in the copy exactly when it did before, and to the copy of the same record |
| IdRegeneration.CopyForgets | apps/api/src/archive-operations.ts:1343-1350 | no regenerated id occurs in a remapped value |
| SceneDuplication.AddRecordIds | apps/api/src/scene-duplication.ts:281-296 | every listed record is mapped to the id derived for it, and the other mappings stay |
| SceneCopies.DuplicateAnnotations | apps/api/src/scene-duplication.ts:237-245 | the table of group ids gives every annotation the id derived from its group |
| SceneCopies.DuplicateScenes | apps/api/src/scene-duplication.ts:222-266 | the loop makes the specified copies, inactive and in order |
| SceneCopies.PrepareSceneDuplication | apps/api/src/scene-duplication.ts:42-149 | a prepared duplication has one copy of each selected record, in order, under an id derived from the record that nothing in the state has; it is refused as already done exactly when some derived id is taken |
| SceneSelection.SelectsFor | apps/api/src/scene-duplication.ts:58-86 | selected are the requested scenes under their trimmed names, their tokens, the actors those name in order of first mention, the items these hold, their overrides that are not cleared, and the encounters of selected tokens only |
| SceneSelection.SelectsIff | apps/api/src/scene-duplication.ts:58-77 | scenes can be selected exactly when they are the campaign's and their copies get proper names, the actors of their tokens are the campaign's, and their covers and annotations are about tokens of the selected scenes, or the first other token of an annotation has the empty id |
| SceneSelection.PreparesIff | apps/api/src/scene-duplication.ts:42-115 | a duplication is prepared exactly when the request is well-formed, the scenes can be selected, none of the ids its records get is that of a record in the copied collections or of an audit record, and the shared references are allowed |
| SceneSelection.NewIdIs | apps/api/src/scene-duplication.ts:106-113 | every selected record and no other gets a new id, the one the digest gives for the last copied collection that has its id |
| SceneCopyContents.SceneReadsBack | apps/api/src/scene-duplication.ts:222-266 | with its new ids renamed back a copied scene is its original but for name and activation, with one annotation, terrain and cover for each of the original's, in order |
| SceneCopyContents.CopiesCarryOriginals | apps/api/src/scene-duplication.ts:116-122 | in each of the six collections the i-th copy, with its new ids renamed back, is the i-th selected record but for the members the duplication sets |
| SceneCopies.StateStore.Commit | apps/api/src/scene-duplication.ts:151-202 | a commit appends the copies to unchanged collections and advances the campaign's revision; a failed one restores the state |
| SceneDuplicationLaws.CopiesMentionNoSource | apps/api/src/scene-duplication.ts:117-122 | no copied scene, annotation, terrain, cover, token, actor, item, override or encounter refers to a selected record |
| SceneDuplicationLaws.CopiesStayTogether | apps/api/src/scene-duplication.ts:66-122 | scene, actor and token references of the copies lead to copies, exactly when no annotation has the empty id as its first foreign token and no token the empty actor while a record without an id is copied |
| SceneDuplicationLaws.UnnamedTokenIsLetThrough | apps/api/src/scene-duplication.ts:313-324 | a scene whose annotation affects a token without an id and then a foreign one is copied, with a copy that refers to the foreign token |
| SceneDuplicationLaws.DuplicationKeepsIdsUnique | apps/api/src/scene-duplication.ts:298-311 | ids stay unique in all six copied collections |
| SceneDuplicationLaws.CopiesSortLast | apps/api/src/scene-duplication.ts:116-117 | the copies' sort orders exceed those of all scenes of the campaign and follow the request |
| SceneDuplicationLaws.GroupsArePreserved | apps/api/src/scene-duplication.ts:237-245 | two annotations of a copied scene share a group exactly when their originals did, unless one group is named like a selected record and the other like its copy |
| SceneDuplicationLaws.GroupsAreMerged | apps/api/src/scene-duplication.ts:237-245 | a scene whose two annotations are in different groups and whose copies are in one |
| SceneDuplicationLaws.RepeatIsRefused | apps/api/src/scene-duplication.ts:298-311 | repeating a committed request is refused as already done |
| CreatureEngine.Engine.Unlink | apps/api/src/dnd-controlled-creatures.ts:307-333 | the loops take the linked tokens out of tokens, combats, encounters and covers as specified |
| CreatureEngine.Engine.EndCreature | apps/api/src/dnd-controlled-creatures.ts:269-346 | ending succeeds exactly when specified and then leaves the specified state |
| CreatureEnding.EndLeaves | apps/api/src/dnd-controlled-creatures.ts:307-346 | ending a creature that has nothing to revert to succeeds exactly when it is active and, to expire, has run out; its tokens leave, of combats, encounters and covers exactly what hangs on them leaves, turns stay where they are or move to the last place, and all else stays as it was and in order; a companion stays, dismissed, any other creature goes with the items it holds |
| CreatureEngine.Engine.RevertInPlace | apps/api/src/dnd-controlled-creatures.ts:280-305 | restoring in place gives the specified state, and even a failure touches no token, encounter or scene |
| CreatureEngine.Engine.TransformActor | apps/api/src/dnd-controlled-creatures.ts:374-447 | transforming in place gives the specified state; a failure changes nothing |
| CreatureShapes.TransformChanges | apps/api/src/dnd-controlled-creatures.ts:374-458 | a transformation fails exactly when the actor or the combat is missing, the request leaves something open, or there is no initiative for the actor's turns; otherwise the actor has the requested name and data but keeps its ledgers, and its hit points if asked, its record remembers what it was, held and rolled, its items are set aside if asked, its turns have the new initiative in turn order, and all else stays |
| CreatureShapes.RevertAdvances | apps/api/src/dnd-controlled-creatures.ts:280-305 | reverting gives the actor exactly the remembered shape, leaves every other actor, and gives each record it writes a later revision |
| CreatureEngine.ShiftInPlace | apps/api/src/dnd-controlled-creatures.ts:390-393 | the actor's combatants get their new initiative and the old ones are remembered; a failure changes none |
| CreatureWrites.EndWritesListedIff | apps/api/src/dnd-controlled-creatures.ts:233-253 | ending writes only records whose revisions are listed, unless a transformation remembers nothing and the actor holds items |
| CreatureWrites.ForgottenItemIsUnlisted | apps/api/src/dnd-controlled-creatures.ts:335-344 | a state in which ending removes an item no revision guards |
| CreatureWrites.PassedCheckCoversWrites | apps/api/src/dnd-controlled-creatures.ts:118-141 | after a passed revision check every record that ending changes or removes has the revision the caller saw, unless a transformation remembers nothing and its actor holds items |
| CreatureWrites.NothingMentionsRemoved | apps/api/src/dnd-controlled-creatures.ts:307-333 | afterwards no token is left, no combat or encounter of the campaign and no scene that held one refers to them, and turns are in range |
| CreatureTurns.ShiftThenRestore | apps/api/src/dnd-controlled-creatures.ts:295-303 | restoring shifted turns one by one, sorting after each, ends in the original combatants, sorted unless the order is manual |
| CreatureRevert.SuppressedItemsReturn | apps/api/src/dnd-controlled-creatures.ts:288-294 | suppressed items come back apart from revisions, exactly when they are of the actor's campaign |
| CreatureRevert.RevertUndoesTransform | apps/api/src/dnd-controlled-creatures.ts:269-305 | reverting an untouched transformation restores actor, items, initiatives and turn order apart from revisions, and says exactly when it can |
| CreatureRevert.ForeignItemBlocksRevert | apps/api/src/dnd-controlled-creatures.ts:288-294 | an actor that holds an item of another campaign is transformed with its items suppressed and cannot be reverted |
| CreatureRevert.SortedOrderReturns | apps/api/src/dnd-controlled-creatures.ts:295-303 | a combat that was in turn order, or is ordered manually, is back exactly |
| LoginThrottle.LoginAttemptThrottle.Consume | apps/api/src/auth-security.ts:208-247 | one attempt is pruned, counted per account, network and pair, judged and bounded as specified; the index holds exactly the live pairs and the map order is recency order |
| LoginThrottle.LoginAttemptThrottle.EvictKey | apps/api/src/auth-security.ts:279-287 | evicting drops the bucket and its index entry and leaves no empty entry |
| LoginThrottle.LoginAttemptThrottle.EnforceMaxBuckets | apps/api/src/auth-security.ts:271-277 | at most maxBuckets buckets remain |
| LoginThrottle.LoginAttemptThrottle.Reset | apps/api/src/auth-security.ts:249-257 | an account and all its pairs are forgotten, nothing else |
| LoginThrottleRuns.PruningIsInvisible | apps/api/src/auth-security.ts:208-269 | with advancing time and no bound-driven eviction every decision equals that of plain fixed-window counters that never forget |
| LoginThrottlePolicy.HistoryAgrees | apps/api/src/auth-security.ts:208-257 | plain counters hold, for every network, account and pair, the window its last attempts are in and their number since the account was last forgotten |
| LoginThrottlePolicy.AttemptsJudged | apps/api/src/auth-security.ts:213-247 | with advancing time and no bound-driven eviction an attempt is refused exactly when it is one too many in the current window of its network, of its account or, unless the account has used up its attempts, of the two together; the delay is the least number of whole seconds, at least one, until the last exceeded window ends, and an audit is recommended exactly at a first crossing |
| LoginThrottleRuns.BoundDropsOldest | apps/api/src/auth-security.ts:271-277 | the bound evicts least recently counted keys first |
| LoginThrottleRuns.BoundSize | apps/api/src/auth-security.ts:271-277 | enforcing the bound keeps everything that fits and exactly maxBuckets otherwise |
| BoundedVerifier.StepKeeps | apps/api/src/auth-security.ts:39-157 | every submit, finish and timeout keeps: slots and queue bounded, nobody waiting while a slot is free, starts in submission order, each request in one place, counters adding up |
| BoundedVerifier.SubmitDecides | apps/api/src/auth-security.ts:115-138 | a request starts exactly when a slot is free, waits exactly when none is but the queue has room, and is turned away otherwise, which alone is counted as a saturation |
| BoundedVerifier.FinishDecides | apps/api/src/auth-security.ts:60-157 | finished work is answered and counted by kind or as a failure, and its slot goes to the head of the queue |
| BoundedVerifier.TimeoutDecides | apps/api/src/auth-security.ts:121-138 | a waiting request that times out is taken out of the queue, answered as saturated and counted; any other is left alone |
| BoundedVerifier.AnswersStay | apps/api/src/auth-security.ts:104-148 | an answer never changes and nothing started is forgotten |
| BoundedVerifier.RunKeeps | apps/api/src/auth-security.ts:39-157 | all of that holds after every interleaving |
| BoundedVerifier.PasswordVerifier.SubmitWork | apps/api/src/auth-security.ts:104-148 | a request starts, waits or is turned away as the protocol step says |
| BoundedVerifier.PasswordVerifier.FinishWork | apps/api/src/auth-security.ts:108-157 | finishing settles the request, frees its slot and drains the queue |
| BoundedVerifier.PasswordVerifier.ExpireWork | apps/api/src/auth-security.ts:126-148 | a timeout removes a waiting request and nothing else |
| JobLeases.NextJob | apps/api/src/admin-job-operations.ts:122-129 | the loop finds the first eligible job in queue order |
| JobLeases.FirstIsTheOne | apps/api/src/admin-job-operations.ts:122-129 | it is eligible, queued earliest, and the first of those; none is found exactly when none is eligible |
| JobLeases.LeaseDecided | apps/api/src/admin-job-operations.ts:110-129 | a request id used before is replayed for the same worker and wish and a conflict otherwise; a new one gets, of the jobs of a wanted kind with attempts left that wait or whose lease has ended, the first of those queued earliest, and none exactly when there is no such job |
| JobLeases.TransitionDecided | apps/api/src/admin-job-operations.ts:393-408 | waiting jobs start or are cancelled, running ones succeed, fail or are cancelled; only an administrator cancels, a start needs an attempt, and each refusal says which of these it is |
| JobLeases.JobQueue.LeaseNext | apps/api/src/admin-job-operations.ts:110-150 | a lease request is granted, replayed, refused or idle as specified, and only a grant changes a job |
| JobLeases.JobQueue.Transition | apps/api/src/admin-job-operations.ts:393-424 | a transition is refused or performed as specified and releases finished jobs |
| JobLeases.GrantsOnlyFree | apps/api/src/admin-job-operations.ts:122-149 | only a waiting job with attempts left or one whose lease ran out is granted, never a finished one; the grant uses an attempt, raises the revision and touches no other job |
| JobLeases.RunKeeps | apps/api/src/admin-job-operations.ts:110-424 | over every run: attempts stay bounded, a lease request stays with one job, finished jobs are frozen, revisions only grow, and grants are bounded by the attempts that remained |
| JobLeases.LeaseIsExclusive | apps/api/src/admin-job-operations.ts:122-149 | until its lease runs out or it is moved, a leased job stays exactly as granted, whatever others request |
| JobLeases.ReplayWhileLeased | apps/api/src/admin-job-operations.ts:114-120 | meanwhile the same request is replayed with the same job and a different one under its id is a conflict; neither changes anything |
| WebhookRetention.KeepTerminalChain | apps/api/src/campaign-webhook-ledger.ts:66-77 | the walk along retries terminates, keeps at most the limit and leaves at most one kept delivery without its parent |
| WebhookRetention.RetainedDeliveryIds | apps/api/src/campaign-webhook-ledger.ts:59-84 | all queued deliveries are kept; everything that fits; otherwise exactly min(limit, terminal count) terminal ones, at most one of them without its parent, those that queued deliveries retry before all others, and none instead of a newer one that was not on the chain of a queued or newer delivery |
| WebhookLedger.NextDelivery | apps/api/src/campaign-webhook-ledger.ts:20-53 | a new delivery is the next attempt at its event and strictly newer than everything of its webhook |
| WebhookLedger.Ledger.Create | apps/api/src/campaign-webhook-ledger.ts:20-57 | creating gives the next number after those in the ledger, keeps the ledger's attempts distinct and children newer than parents, and no queued or foreign delivery is dropped |
| WebhookHistory.GivenAgainIff | apps/api/src/campaign-webhook-ledger.ts:26-31 | after any history of creating, finishing and pruning, a new delivery gets a number given before exactly when the latest attempt at its event has been pruned |
| WebhookHistory.NumbersDistinctIff | apps/api/src/campaign-webhook-ledger.ts:20-107 | over a whole history the attempts at each event get different numbers exactly when the latest attempt was still in the ledger at every creation |
| WebhookReuse.LatestIsPruned | apps/api/src/campaign-webhook-ledger.ts:59-84 | in a full ledger a latest attempt that nothing retries is pruned, while an earlier one is kept for its queued retry |
| WebhookReuse.NumberGivenTwice | apps/api/src/campaign-webhook-ledger.ts:20-107 | a history in which two deliveries of one event get the same number |
| WebhookLedger.Ledger.Prune | apps/api/src/campaign-webhook-ledger.ts:86-102 | pruning a group keeps what retention says and leaves all others in place |
| WebhookLedger.Ledger.PruneLedgers | apps/api/src/campaign-webhook-ledger.ts:104-107 | the webhook's deliveries are pruned to 500, then the campaign's to 5000 |
| WebhookLedger.Ledger.Finish | apps/api/src/campaign-webhook-ledger.ts:104-107 | when a caller has recorded the outcome of a queued delivery (app.ts lines 1239-1244), the pruning that follows keeps the ledger's invariant and every other queued delivery |
| StablePrinter.TextUnambiguous | apps/api/src/operator-mutation.ts:34-42 | two printed values that start one text are the same but for lists of one undefined value, and end at the same place |
| StablePrinter.PrintsAlikeIff | apps/api/src/operator-mutation.ts:34-42 | two values print alike exactly when their sorted forms agree but for such lists |
| StablePrinterMeaning.CanonicalIffSame | apps/api/src/operator-mutation.ts:37-41 | sorted forms agree exactly for values that differ only in member order and undefined members |
| StablePrinterMeaning.PrintsAlikeIffSame | apps/api/src/operator-mutation.ts:34-42 | on values without undefined list items the printer identifies exactly those |
| StablePrinterMeaning.HolesCollide | apps/api/src/operator-mutation.ts:35-36 | two different values that print alike |
| OperatorTargets.HashIdentifiesTargets | apps/api/src/admin-identity-operations.ts:425-435 | equal digests mean equal sets of (id, revision) pairs, and the other way round |
| OperatorTargets.PreviewDecides | apps/api/src/admin-identity-operations.ts:413-423 | a previewed digest lets an execution proceed exactly when its targets are the previewed ones |
| OperatorTargets.CheckDecides | apps/api/src/admin-identity-operations.ts:413-423 | a digest sent along is accepted exactly when it is the current one, whatever blanks surround it and whatever case it is in; a missing or blank one is asked for |
| OperatorTargets.RemovalIsExact | apps/api/src/admin-identity-operations.ts:333-336 | filtering by the matched ids removes the matched records and no other |
| IdentityPruning.ExecutionRemovesPreviewed | apps/api/src/admin-identity-operations.ts:306-395 | executing with a previewed digest changes nothing or removes exactly the previewed (id, revision) pairs |
| IdentityPruning.IdentityStore.PruneSessions | apps/api/src/admin-identity-operations.ts:328-347 | sessions whose expiry parses and is not after now, and no others, are previewed, or removed under a matching digest |
| IdentityPruning.IdentityStore.RevokeRiskSessions | apps/api/src/admin-identity-operations.ts:306-326 | the same for sessions at risk for one of the given reasons |
| IdentityPruning.AtRiskIs | apps/api/src/admin-identity-operations.ts:249-277 | a session is at risk for the given reasons exactly when it has expired, or is live and was last seen at least the given days ago, or its user is disabled or unknown, and that reason was given |
| IdentityPruning.IdentityStore.RevokeUserSessions | apps/api/src/admin-identity-operations.ts:378-395 | the same for the sessions of one user |
| IdentityPruning.IdentityStore.PruneResets | apps/api/src/admin-identity-operations.ts:349-376 | the same for used or expired password resets |
| IdentityPruning.UnparsedExpiry | apps/api/src/admin-identity-operations.ts:252-258 | a session is expired for the risk report exactly when pruning matches it or its expiry does not parse |
| IdentityPruning.RevokedButNotPruned | apps/api/src/admin-identity-operations.ts:252-258 | a session without a readable expiry that executing a revocation removes and executing a pruning never does |
| OperationalRetention.CollectEligible | apps/api/src/admin-retention-operations.ts:111-132 | the loop collects the candidates of the eligible records in order |
| OperationalRetention.CandidatesAre | apps/api/src/admin-retention-operations.ts:111-134 | the candidates are exactly those of finished records of the requested classes completed before the cutoff |
| OperationalRetention.HashIdentifiesCandidates | apps/api/src/admin-retention-operations.ts:154-156 | the digest determines the list of candidates, order included |
| OperationalRetention.PreviewedListIsPlanned | apps/api/src/admin-retention-operations.ts:70-95 | with a previewed digest the candidates planned now are the previewed list, and its first batchSize are selected |
| OperationalRetention.RetentionDeletesSelected | apps/api/src/admin-retention-operations.ts:97-109 | an execution deletes a record exactly when its candidate is selected |
| OperationalRetention.RetentionDeletesOldest | apps/api/src/admin-retention-operations.ts:70-134 | every deleted record is finished, of a requested class and completed more than the requested days ago; all such records go if they fit the batch size, otherwise exactly that many, and none that stays precedes a deleted one by completion text, class and id; the others stay in order |
| OperationalRetention.OperationalRecords.Apply | apps/api/src/admin-retention-operations.ts:97-109 | a dry run, an invalid request, a missing reason or a changed target set deletes nothing; otherwise the oldest records that the request lets go are deleted, as many as the batch size allows |

## Left out

- ArchiveStream.EncodeArchiveStream: does not say which of several failures is reported, because that depends on chunk boundaries; success and output are specified exactly.
- CreatureEngine.Engine.RevertInPlace: does not say which items and turns were already restored when it fails; as in the code, they stay restored.
- HTTP routes, permissions, audit text beyond its ids, metrics, transports, environment parsing and CLIs.
- What happens to the merged state before the inverse steps are recorded: the migration of stored armour classes and the revision bump of the imported campaign.
- Staging files, abort signals, and the promise that concurrent rollback calls of one journal share.
- JSON text of metadata and headers in the stream: parsing and printing them are parameters.
- Collections of the engine state beyond the fifteen typed ones of the closure and the fields shown; character transfers and token proposals in the closure; handouts, fog presets and AI records.
- World scope of an export, which filters assets again after closing.
- Ownership rewrites and content-import rollback after id regeneration.
- Fog, walls and lights of a duplicated scene, its histories and timestamps, the skipped-reference report, and the availability of the audit id; the check of shared worlds, assets and actors is a parameter.
- Analysis and validation of controlled-creature requests, commands, confirming summons, and whether a duration has expired (a parameter); which mismatch the revision check reports first.
- Directory layout, the parsing of snapshot manifests, and pruning of unreferenced snapshots; a storage ref is a triple, not its joined text.
- Job progress, heartbeats, alerts and operation summaries; user-facing normalisation of inputs.
- Email outbox, plugin registry lock and snapshot history.
- Whitespace trimmed by the request checks is blank, tab, line feed and carriage return only; lone surrogates in printed texts.
