# Doll: a verified model of its hardest parts

Doll keeps a local workspace: a SQLite state with a revision number, managed artifact
files, an audit trail, and archives that back it all up. This project models the parts of
it whose correctness is not visible from reading one function, and proves what they promise:

* **Backups.** `BackupProtocol` is a state machine in which any number of backup calls run
  among writers that commit and publish files and outsiders that put files at outputs or take
  them away; `BackupOutcomes` is what every run of it leaves behind, `BackupScenarios` and
  `BackupStateCall` hold particular runs; `BackupPublication` is one call with a fault possible
  at every step; `ArtifactStore` is artifact creation and the collector that reads artifacts
  back; `ArchiveFormat`, `BackupArchive` (builder), `BackupLoader` (verifier), `BackupAgreement` (the two against each other), `BackupMeaning` and `BackupIntegrity` (what
  acceptance says about the bytes) and `BackupFile` (the end of the file, and backups as
  files) are the archive itself; `WorkspaceBackups` goes from creations to accepted backups.
  `ManagedPaths` and `PathMeaning` hold path and member-name syntax and case folding,
  `AuditTrail` the creation events.
* **Numbered exports.** `NumberedAggregation` is the in-memory aggregator, `NumberedProjection`
  and `NumberedProjector` are the streaming, disk-backed projector, `NumberedRefinement`
  relates the two; `NumberedMembers` is the stage they share, `NumberedIdentity` says which
  conversations are one and the same, and what is hashed, `NumberedSelection` when a projection
  succeeds.
* **Conversation mapping.** `ConversationMapping` is the node loop with its pointer-chasing
  parent search and the counting pass; `ConversationMessages` says of the raw fields what
  becomes of each node, `ConversationCounting` compares the two passes,
  `ConversationAncestry` relates the node graph to the emitted parents.
* **Capabilities and confirmations.** `Capabilities` (registry) with `CapabilityReview`,
  `Preflight` (the ordered checks) with `PreflightChecks` (what each of them demands),
  `ConfirmationBinding` (the second implementation of those checks for Tier 3),
  `ConfirmationFingerprint` and `ConfirmationText` (what a confirmation binds and hashes),
  `ConfirmationLifecycle` and `ConfirmationReasons` (the append-only ledger and its outcomes),
  `ConfirmationIssue` (issuing, and what an approval can be used for).
* **Bounded recursion and work lists.** `AuditMetadata` and `AuditStability` (metadata
  sanitising), `ProcessTree` (descendant closure), `StorageTree` and `StorageListing`
  (work-list traversal).
* **Shared.** `Json` is the canonical JSON printer and UTF-8, `JsonReader` an independent reader
  for sections 3 to 7 of RFC 8259, `JsonArrays` and `JsonText` are arrays item by item and
  objects field by field; `Texts` and `TextMeaning` are code-point order and text helpers,
  `Outcomes` is `Option` and `Result`.

Modules whose names end in Meaning, Checks, Review, Reasons, Messages, Identity, Selection, Listing or Text
define nothing that the program does: they say in other terms what the modelled functions
compute, and prove the two equal on all inputs.

A raised exception is `None` or `Err`; its class and message are not told apart unless a
property needs them. Library functions (SHA-256, the JSON loader, case folding, URL and
host normalisation, timestamp parsing, the text redactor, deflate, the nested package and
snapshot readers) are function-typed parameters, so each result holds for every choice of
them; where a result needs something of them, its `requires` says so. A fault is a member of
a set of program points: the step at that point raises.

Some promises turned out not to hold as stated; the code is modelled as it is, with the
exact condition and a concrete case:

* A call withdraws its published file by name, so it can remove the backup of a call that has
  returned. `BackupOutcomes.SettledRemovedIff` and `BackupOutcomes.WithdrawalIff` say exactly
  when: the withdrawing call's own file was lost and something else lies at its output.
  `BackupOutcomes.SettledFilesKept` is the promise for runs in which nobody takes the file of
  a running call away, `BackupScenarios.WithdrawalByName` the failing run.
* A call that raises can leave its file, its record or both. `BackupOutcomes.RaisedCalls` says
  what is left in every run, and that nothing is left exactly when no exception fell in the
  manifest comparison, after the commit, in the removal of the temporary package or in the
  withdrawal. In a single call `BackupPublication.BothOrNeither` says which of these separate
  file and record; `BackupPublication.LateAndGapFaults` shows two of them.
* One of them needs no failure at all: when another writer commits and syncs between a backup's
  commit and its own sync, the sync refuses to lower the revision in the workspace identity,
  and the handler deletes the file of a registered backup
  (`BackupScenarios.OvertakenBackup`).
* A workspace backup that contains an artifact whose last path component is
  `checksums.json` is built and then refused by the verifier
  (`BackupAgreement.WorkspaceBackupAccepted`, `WorkspaceBackups.ChecksumsArtifactCreated`,
  `WorkspaceBackups.ChecksumsArtifactRefused`).
* Artifact creation accepts paths that differ only in case; from then on the backup collector
  refuses the workspace (`ArtifactStore.CollectableIff`, `ArtifactStore.FoldCollision`).
* The two conversation passes differ on malformed objects, message counts, attachment references
  and unknown fields; each has its exact condition over all mapped conversations
  (`ConversationCounting.MalformedAgreesIff`, `ConversationCounting.MessageCountsAgreeIff`,
  `ConversationCounting.PassesAgreeIff`, with `MalformedCountsDiffer` and
  `MessageCountsDiffer` beside them).
* Whether stored metadata is re-accepted depends on the text redactor, which is a parameter
  here: it is exactly when the redactor leaves the stored texts alone
  (`AuditStability.AcceptedIsStable`, `AuditStability.StoredTextIff`). Whether the program's own
  redactor has a text on which it is not idempotent is not decided.

## Model

| member | source | states |
|---|---|---|
| BackupProtocol.CheckedIsFaithful | src/doll/backup.py:326-336 | a reader whose source revision is still current, having read every row and record it listed one at a time (or one snapshot) and the files its rows need, holds exactly what its kind carries of the durable state of that revision |
| BackupProtocol.CoveredIsWhole | src/doll/state_package.py:490-507 | listing identifiers first and reading each record later yields all rows of every table, if the revision has not moved |
| BackupProtocol.ReadStepKeeps | src/doll/state_package.py:490-530 | every reading step keeps what was seen so far current while the revision stands still |
| BackupProtocol.OtherPhaseKept | src/doll/backup.py:219-227 | no step of another process or of an outsider spoils what a backup relies on in its present phase |
| BackupProtocol.WriterKeeps | src/doll/state_repository.py:113-131 | commits with a greater revision under the write lock, file changes outside owned paths and syncs of any committed revision keep the shared invariant |
| BackupProtocol.CommitKeeps | src/doll/backup_manifest.py:170-231 | the registering commit takes the source revision to the next one, and the two states differ by the new record and its audit row only |
| BackupProtocol.StepKeeps | src/doll/backup.py:206-255 | every step of every process keeps the protocol invariant |
| BackupProtocol.RunKeeps | src/doll/backup.py:151-203 | so does every run, whatever the interleaving, failures and files taken away included |
| BackupOutcomes.RegisteredBackups | src/doll/backup_manifest.py:170-231 | in every reachable state each registered backup's payload is what its kind carries of the state at its source revision (all of it, or all but secret rows), which is the revision just before its registering commit, and no two share a source revision |
| BackupOutcomes.RegisteredContents | src/doll/backup.py:151-255 | the payload of every registered backup is the rows, inventory and files of its source revision, in a state backup without the secret rows and their files |
| BackupOutcomes.FileKeptIff | src/doll/backup.py:661-684 | at the end of every run a call that published and did not withdraw has its file if and only if the file was not lost on the way |
| BackupOutcomes.ReturnedBackups | src/doll/backup.py:687-723 | a call that returned has its record with size and hash in the inventory, and its archive at the output if and only if the file was not lost |
| BackupOutcomes.WithdrawalIff | src/doll/backup.py:709-719 | in every reachable state a withdrawal removes a file its call did not publish if and only if the call's own file was lost and something else lies at its output |
| BackupOutcomes.SettledRemovedIff | src/doll/backup.py:709-719 | in every reachable state a step removes a file of an ended call or of nobody if and only if it takes that file away or is the withdrawal, under that name, of a call whose own file was lost; every other step leaves it as it is |
| BackupOutcomes.SettledFilesKept | src/doll/backup.py:661-668 | over every run in which nobody takes the file of a running call away, a file of an ended call or of nobody stays as it is unless it is itself taken away |
| BackupOutcomes.OnCourseIff | src/doll/backup.py:675-719 | a call is not on its way to leaving anything exactly while no exception fell in the manifest comparison, after its commit (a sync that comes too late included), in the removal of the temporary package or in its withdrawal |
| BackupOutcomes.RaisedCalls | src/doll/backup.py:187-203 | what a raised call left in every run: nothing, its record alone, or its file (unless lost) and its record if committed; nothing if and only if no exception fell at the points above, or a file left without a record was lost afterwards |
| BackupScenarios.UninterruptedCompletesIff | src/doll/backup.py:206-255 | an undisturbed workspace backup completes if and only if its output is unused, the identity is in step, there is no secret record and no unknown content, the artifact tree is exactly the owned paths with no two alike up to case, and the built archive verifies; otherwise it raises and changes nothing |
| BackupStateCall.StateCompletesIff | src/doll/backup.py:151-203 | an undisturbed state backup, reading one table after another, completes if and only if its output is unused, the identity is in step and the built archive verifies; then it holds the state without its secret rows; otherwise it raises and changes nothing |
| BackupScenarios.WithdrawalByName | src/doll/backup.py:709-719 | from every workspace that can be backed up, a run in which a returned call loses its file to the withdrawal of another call whose file was taken away |
| BackupScenarios.OvertakenBackup | src/doll/workspace.py:224-232 | from every workspace that can be backed up, and for every commit of another writer, a run without a failing step that ends with a registered backup whose file was deleted |
| BackupPublication.Workspace.constructor | src/doll/state_repository.py:68-75 | a workspace without an open transaction |
| BackupPublication.Workspace.WriteTemporaryArchive | src/doll/backup.py:655-661 | the verified archive lies at the temporary name, and nothing else moved, whatever failed |
| BackupPublication.Workspace.PublishVerified | src/doll/backup.py:655-684 | succeeds exactly when the output is free, the archive verifies and no step raises; otherwise, with deletions working, the file system is as before; existing files are never touched |
| BackupPublication.Workspace.TakeBack | src/doll/backup.py:675-684 | the handler removes the link only if this call made it, then the temporary file |
| BackupPublication.Workspace.Transact | src/doll/backup_manifest.py:171-231 | the pending transaction holds record, event and raised revision exactly when every statement succeeded and schema, revision and identity fit |
| BackupPublication.Workspace.RegisterVerified | src/doll/backup_manifest.py:170-248 | all or nothing up to COMMIT; exceptions after it leave the commit in place |
| BackupPublication.Workspace.RegisterPublished | src/doll/backup.py:687-723 | returns exactly when the transaction committed and nothing raised afterwards; otherwise withdraws the file |
| BackupPublication.Workspace.Build | src/doll/backup.py:217-246 | reading, capturing, checking and building succeed exactly when no step raises, and touch only the payload file beside the output |
| BackupPublication.Workspace.Attempt | src/doll/backup.py:178-195 | once the members are built, the exact file, record and result of publication, comparison and registration for every set of faults |
| BackupPublication.Workspace.CreateBackup | src/doll/backup.py:151-203 | the exact outcome of a whole call for every set of faults; pre-existing files unchanged; without a late fault every inventory record stays backed by its file and one creation event |
| BackupPublication.BothOrNeither | src/doll/backup.py:655-723 | file and record are left together or not at all if and only if no exception falls in the manifest comparison or after COMMIT |
| BackupPublication.ReturnsIff | src/doll/backup.py:655-723 | a call returns exactly if its output is unused, the archive verifies as the built manifest says, workspace, schema and revision are still those of the state, the identifier is new and no step raises |
| BackupPublication.LateAndGapFaults | src/doll/backup.py:709-719 | for every call that would succeed, one exception after COMMIT leaves a record without its file, one in the comparison a file without record |
| BackupPublication.EarlyFaultLeavesNothing | src/doll/backup.py:675-684 | as a corollary of the exact outcome, any exception at the other points up to COMMIT leaves neither |
| ArtifactStore.WorkspaceFileService.constructor | src/doll/artifact.py:104-113 | a service over a given store with no open transaction |
| ArtifactStore.WorkspaceFileService.Publish | src/doll/workspace_files.py:138-159 | the complete bytes at a new path, or the artifact tree as it was when the removals work; existing files are never touched |
| ArtifactStore.WorkspaceFileService.TakeBack | src/doll/workspace_files.py:361-377 | the handler removes only what this publication put down, passing over removals that fail |
| ArtifactStore.WorkspaceFileService.Register | src/doll/artifact.py:312-383 | record, creation event and revision together, or none of them |
| ArtifactStore.WorkspaceFileService.CreateBytes | src/doll/artifact.py:118-203 | the store after every creation, whatever raised, and exactly when the call returns; with a failing clean-up at most this call's files are left without a record |
| ArtifactStore.CreatedAgrees | src/doll/artifact.py:168-203 | a creation that commits keeps files and records in agreement |
| ArtifactStore.RunAgrees | src/doll/artifact.py:168-203 | after every run of creations with exceptions anywhere but in clean-up, files are exactly the managed paths of the records with matching size and hash, with one creation event per record |
| ArtifactStore.CreatesIff | src/doll/artifact.py:118-203 | a creation in which nothing raises succeeds exactly for an unused managed path neither below nor above an existing file, a limit within the maximum, content within the limit and a new identifier |
| ArtifactStore.RunTreeShaped | src/doll/workspace_files.py:138-159 | after every run of creations no artifact file lies below another |
| ArtifactStore.WorkspaceFileService.FilePaths | src/doll/backup.py:536-554 | accepts the artifact tree exactly when all paths are managed paths and no two fold to the same text, in any walk order |
| ArtifactStore.WorkspaceFileService.ExpectedPaths | src/doll/backup.py:495-513 | the active and archived records by path, refused exactly on invalid or repeated paths |
| ArtifactStore.WorkspaceFileService.ReadArtifacts | src/doll/backup.py:520-533 | succeeds exactly when every listed file has its recorded size and hash, and yields their contents |
| ArtifactStore.WorkspaceFileService.Collect | src/doll/backup.py:494-533 | succeeds exactly when records, files, hashes and case folding agree, and yields every file under its archive path |
| ArtifactStore.CollectableIff | src/doll/backup.py:494-554 | after every run of creations the collector succeeds if and only if no two managed paths are equal up to case folding |
| ArtifactStore.FoldCollision | src/doll/backup.py:551-552 | two successful creations after which no workspace backup is possible |
| ManagedPaths.SplitBelow | src/doll/backup.py:1095-1097 | splitting a path below a directory gives the directory's parts, then the path's |
| ManagedPaths.ManagedPathNamesMember | src/doll/workspace_files.py:113-135 | every managed path makes a valid member name below a valid archive directory |
| ManagedPaths.FoldOfAscii | src/doll/backup.py:1066-1068 | case folding lower-cases ASCII names character by character |
| ManagedPaths.PlainPathValid | src/doll/workspace_files.py:180-192 | ordinary single components are managed paths unless their stem has the length of a reserved name |
| PathMeaning.ManagedPathIff | src/doll/workspace_files.py:113-192 | a managed path is parts with slashes between them, at most 512 characters, each part of 1 to 120 portable characters, not surrounded by white space, not ending in a point, no device name in any case and no temporary name |
| PathMeaning.MemberNameIff | src/doll/backup.py:1088-1101 | a member name is plain printable parts below the archive root |
| PathMeaning.LowerMeans | src/doll/backup.py:1066-1068 | lower case takes each ASCII capital to its small letter and leaves every other character |
| ArchiveFormat.ArtifactNameValid | src/doll/backup.py:1088-1101 | every managed path makes a valid artifact member name |
| ArchiveFormat.LastPartSuffix | src/doll/backup.py:1124-1125 | the self-reference check by suffix looks at exactly the last path component |
| ArchiveFormat.FixedNamesFolded | src/doll/backup.py:1066-1068 | the fixed member names stay distinct under case folding |
| ArchiveFormat.ArtifactNamesFolded | src/doll/backup.py:551-552 | artifact member names fold alike only if their managed paths do, and never like a fixed name |
| ArchiveFormat.TotalWithout | src/doll/backup.py:1325-1330 | the payload sum may be taken in any order |
| BackupLoader.ValidateInventory | src/doll/backup.py:1055-1085 | accepts exactly the member lists with valid names distinct up to case folding, regular files, and counts, sizes, total and ratios within the limits |
| BackupLoader.ValidateChecksums | src/doll/backup.py:1104-1133 | accepts exactly the well-formed checksum files without repeats or self-reference, and yields their table |
| BackupLoader.SumsLookup | src/doll/backup.py:1112-1133 | each listed path is found under its own digest and size |
| BackupLoader.MatchSums | src/doll/backup.py:761-766 | holds exactly when every listed member has its recorded size and digest |
| BackupLoader.SnapshotInventory | src/doll/backup.py:989-1022 | the snapshot's artifact rows by path, refused exactly on invalid or repeated paths |
| BackupLoader.MatchArtifacts | src/doll/backup.py:954-967 | holds exactly when artifact members and snapshot rows correspond one to one in path, size and hash |
| BackupLoader.ValidateWorkspacePayload | src/doll/backup.py:914-986 | accepts exactly the payloads whose identity, snapshot, artifacts and counts agree with the manifest |
| BackupLoader.Load | src/doll/backup.py:726-801 | the loader accepts exactly the member lists that pass inventory, checksums, manifest, paths for kind, payload and total |
| BackupLoader.LoadFile | src/doll/backup.py:726-801 | a backup file is accepted exactly within the size limit, with a canonical end record and an accepted member list, and reported with its own size and hash |
| BackupFile.EndRecordMeans | src/doll/backup.py:1024-1053 | the end of a file is accepted exactly if it is an end record as the ZIP format writes it, with a directory that reaches up to it and no number reserved for ZIP64 |
| BackupFile.EndRecordIff | src/doll/backup.py:1035-1053 | a written end record is accepted exactly if offset and size add up to what precedes it, within the ZIP64 bounds |
| BackupFile.StateFileAccepted | src/doll/backup.py:655-684 | every state backup that is built and written within the limits is an accepted file |
| BackupFile.WorkspaceFileAccepted | src/doll/backup.py:655-684 | a workspace backup that is built and written within the limits is an accepted file exactly without a `checksums.json` artifact |
| BackupMeaning.AcceptedInventory | src/doll/backup.py:1055-1085 | accepted members are regular files under valid names distinct up to case, within the stated count, size and ratio limits |
| BackupMeaning.AcceptedChecksums | src/doll/backup.py:750-767 | the checksum file of an accepted backup has exactly one entry for every other member, with its length and digest |
| BackupMeaning.ManifestIff | src/doll/backup.py:818-863 | a manifest is read as exactly what its fields say |
| BackupMeaning.BuiltManifestReadsIff | src/doll/backup.py:818-863 | a built manifest is read back as what it was built from exactly if its source is in order and it counts something |
| BackupMeaning.AcceptedManifest | src/doll/backup.py:769-785 | an accepted backup has a manifest within the JSON limit that describes it, with the payload's true size |
| BackupMeaning.DigestIff | src/doll/backup.py:1104-1133 | a digest is 64 lower-case hexadecimal digits |
| BackupMeaning.LoadJsonIff | src/doll/backup.py:1251-1256 | a JSON member is loaded exactly up to 4 MiB |
| BackupMeaning.AcceptedState | src/doll/backup.py:866-912 | an accepted state backup is four members, and its manifest gives identity, revision and counts of the nested package |
| BackupMeaning.AcceptedWorkspace | src/doll/backup.py:914-986 | in an accepted workspace backup identity, snapshot and manifest agree, no record is secret, and every artifact row has its member of that size and hash |
| BackupMeaning.LineReads | src/doll/backup.py:638-652 | a JSON member is the canonical encoding of its document and a line feed |
| BackupArchive.ManifestReads | src/doll/backup.py:818-863 | manifest validation reads every built manifest back field by field |
| BackupArchive.ChecksumsRead | src/doll/backup.py:638-652 | the loader reads a built checksum file back if and only if every member can be listed, and finds each member's digest and size |
| BackupArchive.ListSums | src/doll/backup.py:640-650 | one checksum entry per member in ascending order of name |
| BackupArchive.FinishMembers | src/doll/backup.py:638-652 | manifest added first, then the checksums of everything so far |
| BackupArchive.ZipRoundTrip | src/doll/backup.py:1157-1174 | reading the written archive gives the members back |
| BackupAgreement.FitsInventory | src/doll/backup.py:1055-1085 | members within the limits whose valid names differ up to case pass the archive inventory |
| BackupAgreement.FitsIff | src/doll/backup.py:1055-1085 | members pass the inventory exactly if they are within the limits under valid names that differ up to case |
| BackupAgreement.FinishedChecksums | src/doll/backup.py:755-767 | the checksum checks pass on finished members exactly when every name can be listed |
| BackupAgreement.StateBackupAccepted | src/doll/backup.py:557-591 | every state backup built within the size, count and ratio limits is accepted and inspected as what was built |
| BackupAgreement.ArtifactListable | src/doll/backup.py:1124-1125 | an artifact can be listed if and only if its last path component is not `checksums.json` |
| BackupAgreement.RowCount | src/doll/backup.py:954-960 | as many artifact members as snapshot rows |
| BackupAgreement.WorkspacePayloadSize | src/doll/backup.py:609-611 | the payload of the finished members is the identity, the database and the artifacts |
| BackupAgreement.WorkspaceNamesApart | src/doll/backup.py:551-552 | all member names of a workspace backup differ up to case because the collected managed paths do |
| BackupAgreement.WorkspaceBackupAccepted | src/doll/backup.py:594-635 | a workspace backup built within the size, count and ratio limits from what the collector accepted is accepted if and only if no artifact's last path component is `checksums.json`, and is inspected as what was built |
| BackupIntegrity.EntryCount | src/doll/backup.py:1058-1068 | an archive with distinct names has as many members as entries |
| BackupIntegrity.RowTotal | src/doll/backup.py:961-967 | artifact bytes add up to the sizes the snapshot rows record |
| BackupIntegrity.WorkspaceAccounting | src/doll/backup.py:914-986 | an accepted workspace archive has exactly the five fixed members and one artifact per snapshot row, and the manifest's count and total are theirs |
| BackupIntegrity.SameChecksumsSameMembers | src/doll/backup.py:755-767 | accepted archives with the same checksum file have the same members with equal length and digest |
| BackupIntegrity.TamperingRejected | src/doll/backup.py:755-767 | the contrapositive of SameChecksumsSameMembers, as a corollary: adding, dropping or replacing a member behind an unchanged checksum file is rejected unless length and digest both collide |
| WorkspaceBackups.CollectedUnderRoot | src/doll/backup.py:532-533 | the member name of an artifact is the archive root and the path under which the collector hands it over |
| WorkspaceBackups.CollectedIsCaptured | src/doll/backup.py:494-533 | what the collector accepts of a store is what the archive needs of its snapshot |
| WorkspaceBackups.CreationsBackedUpIff | src/doll/backup.py:494-635 | after every run of creations, within the limits, a workspace backup is collected, built and accepted if and only if no two managed paths are alike up to case and none ends in `checksums.json` |
| WorkspaceBackups.ChecksumsArtifactCreated | src/doll/artifact.py:168-203 | an artifact can be created at `checksums.json` |
| WorkspaceBackups.ChecksumsArtifactRefused | src/doll/backup.py:1124-1125 | every workspace backup built with that artifact is refused |
| NumberedMembers.SortIsOrderFree | src/doll/chatgpt_numbered_aggregation.py:122-130 | consecutive indices sort to the same list from every arrangement |
| NumberedMembers.ConsecutiveDistinct | src/doll/chatgpt_numbered_aggregation.py:98-130 | consecutive after sorting means no index came twice |
| NumberedMembers.ConsecutiveIndexSet | src/doll/chatgpt_numbered_aggregation.py:124-130 | the accepted index sets are 0..n-1 and 1..n |
| NumberedMembers.ConsecutiveIff | src/doll/chatgpt_numbered_aggregation.py:89-130 | members are consecutive after sorting if and only if their indices are 0..n-1 or 1..n |
| NumberedAggregation.OrderMembers | src/doll/chatgpt_numbered_aggregation.py:89-130 | accepts exactly the labelled, distinct, consecutive member lists within the limits, sorted by index |
| NumberedAggregation.AbsorbItem | src/doll/chatgpt_numbered_aggregation.py:162-187 | one conversation is taken in exactly when it is identified and conflicts with none before it |
| NumberedAggregation.AbsorbRoot | src/doll/chatgpt_numbered_aggregation.py:162-187 | the same for all conversations of a member |
| NumberedAggregation.AggregateEntries | src/doll/chatgpt_numbered_aggregation.py:138-218 | the outer loop succeeds exactly within the limits without conflicts, with first occurrences in order, hashes and counts |
| NumberedAggregation.Aggregate | src/doll/chatgpt_numbered_aggregation.py:89-218 | the whole aggregation, success and result, as a function of the members |
| NumberedIdentity.IdentityIff | src/doll/chatgpt_export_import.py:615-626 | a conversation has an identity exactly if `id` or `conversation_id` holds it and neither holds anything else |
| NumberedIdentity.MembersAcceptedIff | src/doll/chatgpt_numbered_aggregation.py:89-130 | the first stage accepts exactly a bounded number of labelled, non-empty members of bounded size whose indices are 0..n-1 or 1..n |
| NumberedIdentity.AggregatesIff | src/doll/chatgpt_numbered_aggregation.py:89-218 | aggregation succeeds exactly if, beside the limits, every conversation is named and those of one name have the same bytes |
| NumberedIdentity.DistinctNamesKept | src/doll/chatgpt_numbered_aggregation.py:89-218 | conversations with pairwise different names are all in the output, in order, with no duplicates counted |
| NumberedIdentity.RepeatedName | src/doll/chatgpt_numbered_aggregation.py:150-185 | two conversations of one name are refused as a conflict or counted as duplicates |
| NumberedIdentity.OutputHasName | src/doll/chatgpt_numbered_aggregation.py:150-185 | every name is in the output once, as the first conversation that bears it |
| NumberedIdentity.LabelIff | src/doll/chatgpt_numbered_aggregation.py:89-120 | a member label is `conversations-`, digits and `.json`, and its index is the number they stand for |
| NumberedIdentity.ChainsFit | src/doll/chatgpt_export_import.py:726-731 | no chain of nested values is longer than the measured depth |
| NumberedIdentity.DeepestChain | src/doll/chatgpt_export_import.py:726-731 | and some chain is as long |
| NumberedIdentity.MemberSetText | src/doll/chatgpt_numbered_aggregation.py:190-218 | the exact text behind the hash of the member set |
| NumberedIdentity.SummaryText | src/doll/chatgpt_numbered_aggregation.py:44-54 | the exact text of one member's summary in it |
| JsonArrays.ArrayEncoding | src/doll/chatgpt_numbered_projection.py:207-253 | joining the items' encodings with commas in brackets is the encoding of the list |
| NumberedProjection.StoredBytesEqual | src/doll/chatgpt_numbered_projection.py:361-375 | chunked comparison is byte equality with the stored slice, however the reads are cut |
| NumberedProjection.PlacedDecides | src/doll/chatgpt_numbered_projection.py:184-196 | the comparison with a stored identity decides equality of canonical bytes |
| NumberedProjection.TilesExtend | src/doll/chatgpt_numbered_projection.py:198-205 | appending a new identity keeps the slices tiling the store |
| NumberedProjection.ProjectionRun.constructor | src/doll/chatgpt_numbered_projection.py:132-160 | an empty run satisfies the run invariant |
| NumberedProjection.ProjectionRun.Quarantine | src/doll/chatgpt_numbered_projection.py:173-177 | a conversation without identity is counted and skipped |
| NumberedProjection.ProjectionRun.AbsorbRepeat | src/doll/chatgpt_numbered_projection.py:184-196 | a known identity is a duplicate exactly when its canonical bytes are the stored ones |
| NumberedProjection.ProjectionRun.StoreCanonical | src/doll/chatgpt_numbered_projection.py:198-210 | the bytes go to the end of the store and into the running hash, slices keep tiling |
| NumberedProjection.ProjectionRun.Select | src/doll/chatgpt_numbered_projection.py:220-232 | a selected conversation is kept exactly when the true output size stays within the limit |
| NumberedProjection.ProjectionRun.CountFresh | src/doll/chatgpt_numbered_projection.py:211-218 | counts are those of the first occurrences |
| NumberedProjection.ProjectionRun.AbsorbFresh | src/doll/chatgpt_numbered_projection.py:198-232 | a new identity is stored, hashed, counted and, if selected, kept |
| NumberedProjection.ProjectionRun.Absorb | src/doll/chatgpt_numbered_projection.py:167-232 | one conversation keeps the run invariant, and is refused exactly when the items so far are not projectable |
| NumberedProjector.OrderPaths | src/doll/chatgpt_numbered_projection.py:286-338 | accepts exactly the labelled, distinct, consecutive paths within the declared byte limit, sorted by index |
| NumberedProjector.ProjectRoot | src/doll/chatgpt_numbered_projection.py:167-232 | all conversations of one member |
| NumberedProjector.ReadMembers | src/doll/chatgpt_numbered_projection.py:132-235 | the outer loop with running sizes, manifests and quarantined members |
| NumberedProjector.RecheckMembers | src/doll/chatgpt_numbered_projection.py:243-248 | every member still has the size and hash it was read with |
| NumberedProjector.SelectIds | src/doll/chatgpt_export_import.py:688-694 | accepts exactly 1 to 1000 distinct valid identifiers |
| NumberedProjector.ProjectEntries | src/doll/chatgpt_numbered_projection.py:132-284 | everything after ordering, success and result |
| NumberedProjector.Project | src/doll/chatgpt_numbered_projection.py:102-284 | the whole projection, success and result, as a function of what was read |
| NumberedRefinement.ProjectionConserves | src/doll/chatgpt_numbered_projection.py:132-218 | input = output + duplicate + quarantined |
| NumberedRefinement.ProjectionRefinesAggregation | src/doll/chatgpt_numbered_projection.py:102-284 | a projection without quarantine implies aggregation of the same bytes succeeds with the same hashes, manifests and counts |
| NumberedRefinement.ProjectionRefinesCleaned | src/doll/chatgpt_numbered_projection.py:132-218 | with quarantine, aggregate hash and counts are those of the aggregator on the lists without identityless conversations |
| NumberedRefinement.SelectedOutput | src/doll/chatgpt_numbered_projection.py:220-253 | the selected output is the canonical array of exactly the selected conversations in first-occurrence order, its tracked size is its length, and it is within the limit |
| NumberedSelection.ProjectsIff | src/doll/chatgpt_numbered_projection.py:102-284 | projection succeeds if and only if the selection is 1 to 1000 different names that all occur, the members are distinct labelled files within the limits that read the same twice, every conversation is named or set aside, one name has one content and a mapping, and the selected conversations fit |
| NumberedSelection.AggregatedProjectsIff | src/doll/chatgpt_numbered_projection.py:102-284 | where aggregation of the same bytes succeeds, projection succeeds if and only if its own additional demands are met |
| NumberedSelection.FirstsIff | src/doll/chatgpt_numbered_projection.py:155-203 | the conversations the projector keeps are exactly the first bearers of each name |
| NumberedRefinement.AggregationIsOrderFree | src/doll/chatgpt_numbered_aggregation.py:98-130 | the order in which members are supplied does not matter |
| NumberedRefinement.AggregatedIndices | src/doll/chatgpt_numbered_aggregation.py:122-130 | members are aggregated only with indices 0..n-1 or 1..n |
| NumberedRefinement.Reaggregation | src/doll/chatgpt_numbered_aggregation.py:162-195 | re-aggregating the output succeeds exactly within the byte limit and reproduces the bytes without duplicates |
| ConversationMapping.NearestMessageParent | src/doll/chatgpt_export_import.py:629-651 | the search ends on every mapping, cyclic and dangling ones included, with the target of the recursive definition |
| ConversationMapping.MapNode | src/doll/chatgpt_export_import.py:402-458 | objects and counts of one node, malformed branch included |
| ConversationMapping.MapNodes | src/doll/chatgpt_export_import.py:399-459 | the loop over the sorted nodes |
| ConversationMapping.MapConversation | src/doll/chatgpt_export_import.py:349-459 | the mapping pass, success and result |
| ConversationMapping.InventoryConversation | src/doll/chatgpt_export_import.py:575-612 | the counting pass, independent of dictionary order |
| ConversationMessages.ReadMessageIff | src/doll/chatgpt_export_import.py:460-560 | a message is supported exactly if it is a readable text of the four roles, all parts texts within the limit and its details readable; unsupported exactly if readable and no such text or with a part that is none |
| ConversationMessages.SearchWalks | src/doll/chatgpt_export_import.py:629-651 | on every mapping, cyclic and dangling ones included, the parent search walks up through nodes without a message, each met once, and ends at the root, at a message, at a missing or repeated node, or in an error for a parent that is no name |
| ConversationMessages.MappedIff | src/doll/chatgpt_export_import.py:349-403 | a conversation is mapped exactly if title and current node are readable or left out, its time parses and its mapping is an object of objects |
| ConversationMessages.EmittedIff | src/doll/chatgpt_export_import.py:400-459 | a mapped conversation emits a message exactly for a supported node, an unsupported message exactly for an unsupported one, and a malformed one exactly for any other node with a message |
| ConversationMessages.CountedKinds | src/doll/chatgpt_export_import.py:400-459 | its counts are the numbers of nodes, of nodes with a message and of supported ones |
| ConversationMessages.HeaderEmitted | src/doll/chatgpt_export_import.py:349-390 | the conversation comes first, and its unknown fields are reported exactly if it has some |
| ConversationMessages.InventoryMeans | src/doll/chatgpt_export_import.py:575-612 | what the counting pass counts of a node, by its raw fields |
| ConversationMessages.ReferencesCounted | src/doll/chatgpt_export_import.py:808-819 | attachment references are the keys, anywhere inside a value, that point to a file |
| ConversationCounting.MessageTotals | src/doll/chatgpt_export_import.py:564-572 | messages = selected = supported + unsupported in every mapped conversation |
| ConversationCounting.PassesAgreeIff | src/doll/chatgpt_export_import.py:575-612 | over all mapped conversations both passes count the same nodes, and agree on attachment references, or on unknown fields, if and only if the inventory finds none in a node the mapping pass rejects |
| ConversationCounting.MalformedAgreesIff | src/doll/chatgpt_export_import.py:404-411 | over all mapped conversations the malformed counts agree if and only if the messageless nodes with unknown fields and the rejected messages that have author and content are as many as the messages that have neither |
| ConversationCounting.MessageCountsAgreeIff | src/doll/chatgpt_export_import.py:575-612 | over all mapped conversations message counts agree if and only if every present message is an object |
| ConversationCounting.MalformedCountsDiffer | src/doll/chatgpt_export_import.py:404-411 | two concrete conversations on which the malformed counts differ, one in each direction |
| ConversationCounting.MessageCountsDiffer | src/doll/chatgpt_export_import.py:575-612 | a concrete conversation on which the message counts differ |
| ConversationAncestry.NearestStops | src/doll/chatgpt_export_import.py:629-651 | on a closed acyclic mapping the search stops at the nearest message above, or at the root |
| ConversationAncestry.EmittedIdsDistinct | src/doll/chatgpt_export_import.py:349-459 | emitted identities of one conversation are pairwise distinct on every mapping |
| ConversationAncestry.RenderInjective | src/doll/chatgpt_export_import.py:349-459 | distinct identities have distinct texts |
| ConversationAncestry.ParentsEmittedIff | src/doll/chatgpt_export_import.py:392-459 | every emitted parent is emitted if and only if no message hangs under a missing, rejected or unsupported node |
| ConversationAncestry.SoundParentsEmitted | src/doll/chatgpt_export_import.py:422-459 | in closed acyclic conversations with supported messages every emitted parent is emitted |
| ConversationAncestry.AncestryPreserved | src/doll/chatgpt_export_import.py:392-459 | one message is a proper ancestor of another in the source graph if and only if it is in its emitted parent chain |
| Capabilities.BuildRegistry | src/doll/capabilities.py:301-323 | a registry is built exactly from 1 to the maximum of distinct acceptable definitions, and holds exactly their reviewed forms |
| CapabilityReview.ReviewIff | src/doll/capabilities.py:655-787 | a definition passes review exactly when every field meets its stated condition, and only its texts are trimmed |
| CapabilityReview.FitArgumentIff | src/doll/capabilities.py:789-853 | the same for one declared argument |
| Preflight.MeasureInput | src/doll/capabilities.py:1079-1100 | characters of keys and leaves and items of lists, counted recursively |
| Preflight.PreflightService.constructor | src/doll/capabilities.py:343-349 | a service with its registry, policy and resolver and an empty audit log |
| Preflight.PreflightService.AuditDecision | src/doll/capabilities.py:475-509 | the decision is appended, or the call raises and the log is unchanged |
| Preflight.PreflightService.Preflight | src/doll/capabilities.py:351-451 | a decision is returned exactly when the envelope is valid and its audit entry was appended, and it is the decision of the ordered checks |
| PreflightChecks.DecisionMeans | src/doll/capabilities.py:351-451 | the reason of every decision is that of the first check that fails, each check spelled out over request, definition, policy and resolver, and `Authorized` exactly if none does |
| PreflightChecks.DecidedFields | src/doll/capabilities.py:351-475 | a decision names its request and tier, carries the resolved permission, and a destination exactly when it authorizes |
| PreflightChecks.MayReachIff | src/doll/capabilities.py:1136-1151 | the network is allowed exactly for an enabled policy, a listed scheme and a host that is not private and is listed, or lies below a listed one where that is allowed, or the list is empty |
| PreflightChecks.EnvelopeIff | src/doll/capabilities.py:855-940 | a request is valid exactly when each field meets its stated limits, and its envelope is the request with its texts trimmed |
| PreflightChecks.UsageMeans | src/doll/capabilities.py:1079-1100 | the measured usage is the length of all keys and printed leaves and the number of all list items |
| PreflightChecks.VersionIff | src/doll/capabilities.py:1371-1378 | a version is one to three groups of digits with single points between them |
| ConfirmationBinding.Tier3IffBinding | src/doll/_confirmation_validation.py:40-82 | preflight asks for a Tier 3 confirmation if and only if the binding check succeeds, with the same request, definition and destination |
| ConfirmationBinding.ReviewedDefinition | src/doll/capabilities.py:694-726 | what review leaves true of every definition |
| ConfirmationBinding.BuiltIsConstructible | src/doll/capabilities.py:301-323 | every built registry is constructible |
| ConfirmationBinding.AuthorizedIsSafe | src/doll/capabilities.py:364-451 | an authorized decision never carries process execution, reads the network only at a policy-allowed destination on which all parties agree, and for bound capabilities rests on an allowed scope naming the target |
| JsonReader.ReadsValue | src/doll/_confirmation_types.py:265-271 | an independent reader for the grammar of RFC 8259, which accepts no white space, no descending keys and no roundabout escapes or numbers, reads every printed value back |
| JsonReader.ReadsUtf8 | src/doll/_confirmation_types.py:265-271 | a strict UTF-8 decoder reads every encoded text back |
| JsonReader.Utf8Injective | src/doll/_confirmation_types.py:265-271 | as a corollary, different texts have different UTF-8 bytes |
| JsonReader.EncodeReads | src/doll/_confirmation_types.py:265-271 | decoding undoes the canonical encoding of every value |
| JsonReader.Unambiguous | src/doll/_confirmation_types.py:265-271 | as a corollary, two printed values followed by delimiters coincide only if value and rest do |
| JsonReader.EncodeInjective | src/doll/_confirmation_types.py:265-285 | as a corollary, the sorted-key encoding is injective, object key order aside |
| JsonText.CanonicalText | src/doll/_confirmation_types.py:265-271 | an object is printed as its fields in ascending order of key, each as key, colon and value, with commas between |
| TextMeaning.OrderMeans | src/doll/_confirmation_types.py:265-271 | the order of keys: a prefix comes first, and otherwise the first difference decides |
| TextMeaning.StripMeans | src/doll/capabilities.py:855-940 | stripping takes white space off both ends and nothing else |
| TextMeaning.SpaceIff | src/doll/capabilities.py:855-940 | white space is these 29 code points |
| ConfirmationFingerprint.PayloadInjective | src/doll/_confirmation_types.py:222-272 | the fingerprint payload determines every bound field |
| ConfirmationFingerprint.BoundIsWellFormed | src/doll/_confirmation_types.py:275-285 | what a confirmation binds is the validated envelope with the given registry, destination and credential class |
| ConfirmationFingerprint.FingerprintUnambiguous | src/doll/_confirmation_types.py:222-285 | two confirmable requests are hashed from the same bytes if and only if they agree on every bound field, and have the same fingerprint if and only if they do or the hash collides |
| ConfirmationText.FingerprintText | src/doll/_confirmation_types.py:240-272 | what is hashed is the eighteen bound fields, printed in this order under these keys |
| ConfirmationText.TargetText | src/doll/_confirmation_types.py:251-254 | the exact text of the bound target |
| ConfirmationText.LimitsText | src/doll/_confirmation_types.py:259-263 | the exact text of the bound limits |
| ConfirmationText.NamesAre | src/doll/_confirmation_types.py:240-264 | the names under which actors, origins, target kinds and side effects are bound |
| ConfirmationText.BindIff | src/doll/_confirmation_types.py:222-240 | a request binds exactly the fields of its envelope, and only if nothing inside arguments and scope is a float or looks like a secret, the registry is named by a hash and the credential class is a word |
| ConfirmationReasons.ResolutionMeans | src/doll/_confirmation_validation.py:121-178 | each outcome said of the events: missing without events, corrupt unless they are a whole history, and then mismatch before revoked before consumed before denied before expired before approved |
| ConfirmationLifecycle.ApprovedIff | src/doll/_confirmation_validation.py:121-152 | approved exactly while the history is one approving issue |
| ConfirmationLifecycle.NeverReapproved | src/doll/_confirmation_validation.py:121-178 | no appended event and no later time turns an issued, unapproved confirmation into an approved one |
| ConfirmationLifecycle.ResolutionIsOrderFree | src/doll/_confirmation_validation.py:121-178 | the outcome does not depend on event order |
| ConfirmationLifecycle.ConfirmationLedger.constructor | src/doll/confirmation.py:73-79 | an empty ledger is valid |
| ConfirmationLifecycle.ConfirmationLedger.IssueDecision | src/doll/confirmation.py:276-304 | a trusted decision is appended exactly under a fresh identity |
| ConfirmationLifecycle.ConfirmationLedger.ConsumeApproval | src/doll/confirmation.py:174-235 | consumes exactly an approved confirmation, which is never approved again |
| ConfirmationLifecycle.ConfirmationLedger.RevokeConfirmation | src/doll/confirmation.py:237-274 | revokes exactly an issued, unrevoked confirmation and touches no other |
| ConfirmationLifecycle.ConsumedAtMostOnce | src/doll/confirmation.py:174-235 | over every run of issuing, consuming and revoking from the empty ledger no two uses of a confirmation are granted, and none after a granted revocation |
| ConfirmationLifecycle.OneOfEach | src/doll/_confirmation_validation.py:155-178 | after every such run a confirmation has at most one issue, one consumption and one revocation, and no consumption after a revocation |
| ConfirmationLifecycle.UsedAfterIssue | src/doll/confirmation.py:142-235 | over every such run a granted use was preceded by the trusted issue of that confirmation, in its favour, for the same operation and fingerprint, and not expired |
| ConfirmationIssue.Issue | src/doll/confirmation.py:80-141 | a decision is appended exactly for a trusted user action on a request that passes the Tier 3 binding check, with a showable preview, a lifetime within the limit and a fresh identity, and carries the fingerprint of what it binds |
| ConfirmationIssue.BoundForIff | src/doll/confirmation.py:80-141 | a decision binds something exactly for a request that passes the Tier 3 check, with a showable preview and a lifetime of 1 to 600 seconds |
| ConfirmationIssue.ApprovalIsExact | src/doll/confirmation.py:142-235 | a confirmation approves a request only if it was decided in its favour, has not expired and was issued for a request with the same bound fields, unless the hash collides |
| AuditMetadata.MetadataState.Consume | src/doll/audit.py:432-435 | counts one item exactly while the budget lasts |
| AuditMetadata.SanitizeValue | src/doll/audit.py:373-429 | the recursive pass succeeds exactly when the value is acceptable and all its items fit the budget, and counts them |
| AuditMetadata.SanitizeList | src/doll/audit.py:408-420 | the same for a list |
| AuditMetadata.SanitizeDict | src/doll/audit.py:381-407 | the same for a dictionary, keys stripped and merged |
| AuditMetadata.SanitizeAll | src/doll/audit.py:365-370 | the whole pass with a fresh budget |
| AuditMetadata.SanitizedIsSettled | src/doll/audit.py:373-429 | sanitised values have acceptable shape and keys |
| AuditStability.SanitizeKeepsItems | src/doll/audit.py:373-429 | merging stripped keys never raises the item count |
| AuditStability.SecondPass | src/doll/audit.py:357-362 | a settled value passes again within depth and budget, unchanged exactly when its texts are fixed |
| AuditStability.AcceptedIsStable | src/doll/audit.py:352-362 | accepted metadata never exceeds a limit on the second pass, and passes the stored check if and only if its texts are fixed |
| AuditStability.AcceptedPassesStoredCheck | src/doll/audit.py:352-451 | with an idempotent text sanitiser, whatever was accepted for writing passes the stored check unchanged |
| AuditStability.StoredTextIff | src/doll/audit.py:352-362 | for every redactor, a text under an allowed key is accepted for writing exactly when its cleaned form fits the byte limit, and then passes the stored check exactly when cleaning it again changes nothing |
| AuditStability.StoredCheckFails | src/doll/audit.py:352-362 | the condition is not void: a made-up redactor that is not idempotent, and a text it accepts for writing and refuses when stored |
| ProcessTree.FillTable | scripts/run_imp_098_local_runtime_resource_measurement.py:244-251 | the table holds exactly the listed processes, each with the parent and memory of its last line |
| ProcessTree.LastRowWins | scripts/run_imp_098_local_runtime_resource_measurement.py:250-251 | the last line about a process decides its entry |
| ProcessTree.SelectDescendants | scripts/run_imp_098_local_runtime_resource_measurement.py:254-261 | the loop ends on every table, cyclic ones included, with exactly the processes whose parent chain reaches the root |
| ProcessTree.SumBytes | scripts/run_imp_098_local_runtime_resource_measurement.py:262-262 | each selected process counts once |
| ProcessTree.RuntimeTreeSample | scripts/run_imp_098_local_runtime_resource_measurement.py:236-265 | memory and number of the root's descendants, or the error |
| StorageTree.CountEntry | scripts/run_imp_102_lite_install_storage_measurement.py:257-283 | one entry is counted exactly when it can be read and the limits still hold |
| StorageTree.ScanDirectory | scripts/run_imp_102_lite_install_storage_measurement.py:253-283 | one directory's entries are taken in, and what its subdirectories hold is still owed |
| StorageTree.RoundKeeps | scripts/run_imp_102_lite_install_storage_measurement.py:251-268 | totals so far and pending totals always make up the tree, with one directory less to scan |
| StorageTree.EntriesAccounted | scripts/run_imp_102_lite_install_storage_measurement.py:257-281 | entries = files + links + others + directories in a tree read completely |
| StorageTree.MeasureDirectory | scripts/run_imp_102_lite_install_storage_measurement.py:249-283 | the work list computes the recursive sums, exactly on intact trees within the limits |
| StorageTree.MeasureTree | scripts/run_imp_102_lite_install_storage_measurement.py:224-296 | the measurement equals the recursive sums and is made exactly on measurable roots; for a directory root files + links + others + (directories - 1) is the number of entries, within the limit |
| StorageListing.DirectoryMeasured | scripts/run_imp_102_lite_install_storage_measurement.py:224-296 | a directory is measured exactly if nothing listed below it is unreadable, entries and bytes are within the limits and there are bytes; each count is the number of listed nodes of that kind, and the bytes and blocks are their sums |

## Left out

- SQLite, zipfile, fsync, temporary-file naming, symbolic links and stat: only their effect on maps and a possible fault at each step. A fault at COMMIT means the transaction did not commit.
- A ZIP member's declared size as apart from its content: the reader is taken to deliver what it lists. The compression ratio is compared exactly instead of in floating point, which agrees for sizes within the member limit.
- SHA-256, JSON parsing, Unicode case folding, deflate, UUID and timestamp syntax, URL, IDNA and IP-address handling, secret and path redaction: function parameters.
- BackupPublication.Workspace.CreateBackup: takes the built archive and its manifest as given, because what reading and building compute is modelled in the other backup modules; here they are steps that may raise. Validation of the registered fields is one step that may raise.
- BackupProtocol.StepKeeps: `synced` stands for the workspace identity file; a step lists the keys of one table, reads any set of rows or files, takes one snapshot or walks the whole artifact tree; the statements of a transaction take effect at COMMIT, as the write lock makes them; exceptions are raised by these steps, not between two statements of one. Unknown content elsewhere in the workspace is one flag that no step changes.
- ArtifactStore.WorkspaceFileService.CreateBytes: titles, types, media types and creators are one validation step that may raise; removal of empty directories is not modelled.
- ArtifactStore.RunAgrees: covers creation only, since nothing else in scope changes artifact files; the file system is case-sensitive. Outside edits and failing clean-up are excluded, because either leaves a file without a record.
- BackupLoader.LoadFile: symbolic links, concurrent change of the file while it is read, and ZIP decoding itself are not modelled; `unzip` stands for the decoder.
- Contents of emitted conversation objects beyond identity and parents, infinite floats, lone surrogates, digit-count limits of integers, non-ASCII digits in labels and process tables, cyclic Python objects as metadata, and Python type checks that a typed model cannot fail.
- Capability descriptions and the registry's own fingerprint computation; built-in capabilities.
- ConfirmationIssue.Issue: normalisation and scanning of the preview's texts are one check; reloading the issued confirmation and the stored form of its metadata are not modelled.
- Audit storage itself, restore, the inside of state packages, the command line, the API, website scripts and the other measurement and evidence scripts: input and output, or fixed-shape field checks.
