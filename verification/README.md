# StardustFS: a model and its properties

StardustFS keeps one encrypted file table on several devices, spreads the file
contents over quota-limited local containers, and backs them up as encrypted
chunks on other people's devices. This project models the state machines that
decide whether files survive that, and proves what they keep.

* **Sync protocol.** `Rows` is the table and its operations, `Merge` the
  record-by-record merge, `Protocol` any number of devices with a
  compare-and-swap server, every network exchange split at its awaits.
  `CasSoundness`, `CleanRuns`, `NoLostUpdate`, `Ownership` and `Tombstones` prove
  properties of all runs; `Guards` and `Witnesses` show why the guards of a clean
  run are needed, `DeletionWitness` that the runs of `Tombstones` exist. `Edits`
  says how an edit reaches other devices, `PendingRows` what a merge does to unsent
  changes with no guard on the tables. `Metadata`, `Resolver` and `Sync` are the three classes as
  the code has them, with their loops, tied to the functions above.
* **Storage.** `Sources` (a loopback container and its byte counter), `Volumes`
  (what rows and physical files add up to), `Jbod` (the storage manager with
  takeover and orphan collection), `Directories`, `DirectoryDeletion` and
  `VirtualPath`. The writes and deletions of `Jbod` are those of `Protocol`.
* **Replication.** `Crypto` and `Chunker` (the blob format over an ideal cipher,
  splitting and joining), `Generations` (chunks of several runs mixed),
  `Replication` (replicate, recover, heal), `Scheduler` (the grace period) and
  `ParityStores` (the holder's side).
* **Token refresh.** `TokenRefresh` (any number of processes, a lock file, a
  credential file, a rotating token) and `Auth` (one process as a class).

`Paths`, `Sums`, `Numbers` and parts of `Rows` are helpers. Lemmas whose name ends in
`Is` or `Iff` write out what a specification function means without naming it.

## Assumptions

* The server is in another repository. A PUT with base `b` is accepted exactly
  when the server version is `b`, and the version then rises by one; a PUT
  without a base is always accepted; a server without metadata counts as version
  0. Every `MetadataStore` method is atomic.
* AES-GCM is ideal: opening accepts what was sealed; 16-byte IVs never repeat.
  File and chunk identifiers do not collide. UUIDs in physical paths are fresh.
* The server registers a holder of a chunk once, proposes distinct devices for a
  chunk, and honours the exclude list; a proposal that repeats a device counts as
  none.
* SQL `LIKE` with a path is a literal prefix test.
* What the network, the clock or another process does is a parameter or left
  open; any outcome is possible.

## What a clean run is

`CleanRuns.Careful` lists what the strong claims ask for: no row is edited while
it waits for upload, nor between the snapshot of pending rows and the reply; no
file is moved; no reply to an accepted upload is lost and no device merges its
own upload before the reply; no tombstone is met for a path the device has no row
for; conflict names are new everywhere; forced uploads only reach an empty server;
nothing is purged. The other modules need fewer guards: `CasSoundness` needs none,
`Tombstones` those of `Punctual`. In all of them a device has one upload under way
at a time, and any number of downloads.

## Where the code and its documentation part

* One edit between two merges is not enough to keep updates apart, because a merge
  that keeps the local row leaves it pending: edit, merge, edit again, and the
  inferred ancestor is wrong. `Witnesses.OnceBetweenMergesIsNotEnough` is such a run, with
  every other guard kept, that replaces another device's row;
  `Guards.MergedRowForwardsIff` says exactly when that happens, and one edit
  between two uploads is what clean runs ask for.
* `reconcile_if_stale` says that it adopts the server table entirely
  (`stardustlib/sync_client.py:417`); it merges it, and
  `Guards.AdoptedEntirelyIff` says for which tables that comes to the same.
* `detect_conflict` is documented for any base version, but the base is a guess
  from one status flag: `Guards.InferredBaseRightIff` says when it is right.
* A merge that updates a row does not copy `created_at`, so rows with the same
  version can differ in it (`Guards.CreationTimesAgreeIff`).
* A conflict copy whose name the server already uses for a newer row is
  overwritten by it in the same merge (`PendingRows.ConflictingRowSurvivesIff`).
* Moving a file fails when the new path has a row, even a tombstone
  (`Jbod.JbodManager.MoveFile`).
* `decrypt` does not look at the version and mode bytes of the header
  (`Crypto.DecryptAcceptsIff`).
* Deleting a directory leaves explicit directories in the table when an ancestor
  is not listed or is a live file (`DirectoryDeletion.DirectoryGoesIff`), and does
  not end when it meets a directory with a double slash behind it
  (`DirectoryDeletion.EndsIff`).
* A file can count as not degraded although healing would call it short: the
  health check counts holders without an address, healing does not
  (`Replication.ReplicationManager.NotDegradedIsHealthyIff`).
* Recovery of mixed runs is safe only with chunks of at least 22 bytes
  (`Generations.MixupIff`); the code accepts any positive size.
* `set_key_password` writes all tokens from memory without the lock
  (`TokenRefresh.SetKeyPasswordKeepsFileIff`), and logging out removes a lock
  somebody else may hold (`TokenRefresh.ClearKeepsLockIff`).

## Model

| member | source | states |
|---|---|---|
| `NoLostUpdate.NoUpdateIsLost` | stardustlib/sync_client.py:126-233 | In every clean run of any number of devices, each upload the server accepts drops no path and replaces each row by itself or by a row edited directly from the version the server held, so each path has one chain of versions |
| `NoLostUpdate.ServerRowsOnlyAdvance` | stardustlib/sync_client.py:622-691 | In every clean run a path on the server never disappears, its version never goes down, and it rises whenever the content changes |
| `NoLostUpdate.SameVersionSameRow` | stardustlib/sync_client.py:682-691 | In every clean run two rows on any two devices that are not pending and agree in path and version agree in content, which is what makes skipping equal versions sound |
| `NoLostUpdate.CleanRunInv` | stardustlib/sync_client.py:622-691 | The invariant behind these holds in every reachable state of a clean run |
| `Ownership.LiveServerRowsAreBacked` | stardustlib/jbod_manager.py:285-393 | In every reachable state of a clean run with takeovers, deletions, merges and orphan collection, a live server row names a device that holds that physical file under a live row, or has a pending row for the path |
| `CasSoundness.AcceptedUploadMergedWhatItReplaces` | stardustlib/sync_client.py:863-907 | In every run, without guards, an unforced upload whose base is the server version comes from a table that has merged exactly the server table it replaces, although status and blob are read apart; one upload per device at a time |
| `CasSoundness.AlwaysSound` | stardustlib/sync_client.py:149-228 | In every run the remembered version is at most that of the newest server table merged or uploaded, for the periodic and the long-poll task at once |
| `Tombstones.DeletedStaysDeleted` | stardustlib/metadata_store.py:477-496 | With retention R, deletions uploaded within d and downloads that take at most e, d + e <= R: if at any time every device has completed a download begun at most R-d ago, a deleted path is never live again in any server table or on any device that has seen the deletion, and once tombstones may be purged on no device at all |
| `DeletionWitness.DeletionsAreOutlived` | stardustlib/metadata_store.py:477-496 | There is a run with two devices that have a file, its deletion accepted from one of them, and a continuation as the retention bound asks for that goes past the retention time |
| `Witnesses.OnceBetweenMergesIsNotEnough` | stardustlib/sync_client.py:656-669 | There is a run with one edit of a path between two merges of a device and every other guard of a clean run kept, whose next, permitted step replaces a server row by one not edited from it |
| `Guards.InferredBaseRightIff` | stardustlib/sync_client.py:656-662 | The ancestor inferred from the status flag detects every concurrent change iff the row was edited exactly once since |
| `Guards.MergedRowForwardsIff` | stardustlib/sync_client.py:664-691 | Uploading a pending row after a merge silently overwrites the server's update iff the server version lies strictly between the version the row was edited from and its own |
| `Guards.OwnUploadConflictsIff` | stardustlib/sync_client.py:180-187 | Merging one's own upload makes a conflict copy on the same physical file iff the row is still pending, as after a lost reply |
| `Guards.MergeAbsorbsIff` | stardustlib/sync_client.py:637-640 | After a merge the table has every path of the server in no lower version iff it met no tombstone without a row |
| `Guards.MoveComesBackIff` | stardustlib/metadata_store.py:666-673 | After a move the next merge brings the old path back iff the server has it live; the moved row stays, and the two share a physical file iff the server's row is where the moved one was |
| `Guards.RecreatedFileIsDroppedIff` | stardustlib/metadata_store.py:477-496 | A device that still has an expired tombstone ends up without the file created again elsewhere iff the new row's version has not overtaken the tombstone's |
| `Guards.CreationTimesAgreeIff` | stardustlib/sync_client.py:806-821 | Taking over a newer row gives the server's creation time iff it was the same before |
| `Guards.AdoptedEntirelyIff` | stardustlib/sync_client.py:417-419 | For all tables: a merge leaves exactly the server's table iff no local path is missing there, no row is pending or newer, rows of equal version agree, and no tombstone meets a path without a row |
| `Merge.OutcomesAreExclusive` | stardustlib/sync_client.py:645-691 | Conflict iff the local row is pending and the server version is not lower; taking the server row iff not pending and lower; keeping the local row otherwise |
| `Merge.MergeOrderIrrelevant` | stardustlib/sync_client.py:611-613 | Merging a whole table row by row in any order gives one result, described without an order, for rows and physical files |
| `Merge.MergeTableAt` | stardustlib/sync_client.py:611-691 | What a merge leaves at every path of either table and where new paths come from |
| `Merge.MergeIdempotent` | stardustlib/sync_client.py:611-691 | Merging the same server table again, whatever names are offered, changes nothing |
| `Merge.MergeRowsAt` | stardustlib/sync_client.py:611-613 | At a path no conflict copy is named after, a merge in any order does just what the rule says for that path |
| `Merge.PendingRowSurvives` | stardustlib/sync_client.py:714-732 | With fresh names a pending row stays unchanged, or moves to a conflict copy while its path takes the server row |
| `PendingRows.NoPendingRowLost` | stardustlib/sync_client.py:714-732 | Merging any server table in any order loses no pending row, as long as no conflict name is in the server table; local tombstones with that name do no harm |
| `PendingRows.PendingFileKept` | stardustlib/sync_client.py:781-803 | Nor is the physical file of such a row deleted, unless another live row points at it |
| `PendingRows.ConflictingRowSurvivesIff` | stardustlib/sync_client.py:714-732 | A conflicting pending row is lost iff the server has a newer row under the name of its copy and that record comes later |
| `Resolver.ConflictResolver.GenerateConflictName` | stardustlib/conflict_resolver.py:120-172 | The search ends, and finds the first name in the sequence that no live row has; it is never the path itself |
| `Resolver.CandidatesDiffer` | stardustlib/conflict_resolver.py:157-172 | Names with different numbers differ, for any path, device name and time |
| `Resolver.CandidateIs` | stardustlib/conflict_resolver.py:133-172 | For any folder, name and extension: the mark with device name and time stands between name and extension, and from the second name on a number in parentheses follows it; a leading dot begins no extension |
| `Paths.DecimalIs` | stardustlib/conflict_resolver.py:157-166 | That number is written in decimal without leading zeros |
| `Resolver.CandidateMoves` | stardustlib/conflict_resolver.py:133-153 | No candidate is the path it is made from, however many slashes that path has |
| `Resolver.ConflictResolver.ResolveConflict` | stardustlib/conflict_resolver.py:61-118 | The row moves to the name found and is marked as conflict; if the name belongs to a tombstone the rename fails and the row stays, pending |
| `Sync.SyncClient.MergeRecord` | stardustlib/sync_client.py:622-691 | One record does to table and files what the merge rule says, uses the first free conflict name, and flags orphan collection exactly on loss of ownership |
| `Sync.MergeOneIs` | stardustlib/sync_client.py:637-691 | The merge rule written out on status, versions and deletion flags: the resulting row column by column and the file that goes |
| `Sync.SyncClient.MergeServerMetadata` | stardustlib/sync_client.py:559-620 | The loop merges every server row once in some order, and every pending row survives unless a conflict name is known to the server |
| `Sync.SyncClient.DetectOwnershipLoss` | stardustlib/sync_client.py:693-712 | The flag is raised iff a row of this device goes to another one and is no tombstone |
| `Sync.SyncClient.OwnershipLostIs` | stardustlib/sync_client.py:693-712 | That condition on the two rows, written out |
| `Sync.SyncClient.UpdateFromServer` | stardustlib/sync_client.py:781-821 | The row is taken over except for its creation time; a tombstone for a live row deletes its physical file if the source is active |
| `Sync.SyncClient.UploadMetadata` | stardustlib/sync_client.py:126-233 | The attempts, at most five, are those the server saw; the first sends the purged table with the version remembered, and after a refusal each sends the purged merge of what the server answered, with the version its status named, or the same again only if a request went unanswered or nothing was new; an accepted one replaced exactly the version merged last and leaves nothing pending; the result says which case it was |
| `Sync.AnsweredIsAccepted` | stardustlib/sync_client.py:197-204 | When a refused attempt was followed by a download of the version its status named, and nobody uploads before the next attempt, that attempt is accepted if it is answered |
| `Sync.SyncClient.DownloadAndMerge` | stardustlib/sync_client.py:863-915 | Nothing happens iff the status or the table is not answered or the version is no newer than the one remembered; a forced upload iff the server is empty; otherwise exactly the merge of the table answered, at least as new as the version remembered afterwards, followed by the purge; the retention period of the status reply is kept |
| `Sync.SyncClient.InitialSync` | stardustlib/sync_client.py:75-112 | Nothing happens iff the server does not answer; a forced upload iff it is empty; otherwise the merge of its newest table and one collection of orphans, with the remembered version left alone |
| `Sync.SyncClient.SendOnce` | stardustlib/sync_client.py:149-228 | One attempt: an accepted one replaced the version merged last by the table as it is and leaves nothing pending, any other changes nothing here |
| `Sync.SyncClient.ForceUpload` | stardustlib/sync_client.py:823-861 | The table stays as it was, or the server has it and everything pending is synced |
| `Sync.SyncClient.IsolatePending` | stardustlib/sync_client.py:397-416 | Every live pending row moves to a conflict name of its own, or stays at its path only if a tombstone has such a name; it keeps its content, and all other rows are untouched |
| `Sync.SyncClient.ReconcileIfStale` | stardustlib/sync_client.py:378-423 | Takes place iff the last synchronisation is older than the retention period just asked for; then the pending rows are isolated, the server's table is merged into what is left, and iff something was isolated the result is uploaded, with the outcomes of any upload; otherwise nothing changes |
| `Edits.RevivalBeatsDeletion` | stardustlib/metadata_store.py:267-309 | A path written again after its deletion is live and pending with the next version, the size, times, owner and place asked for, survives a merge of the tombstone, and replaces the tombstone on every device without news of its own; no other path changes |
| `Edits.NewFileReachesOthers` | stardustlib/metadata_store.py:267-309 | A new path is live and pending with version 1 and the columns asked for, and a device that does not know it takes the row as it is |
| `Edits.UpdateReachesOthers` | stardustlib/metadata_store.py:311-349 | A new version takes size and modification time, leaves the creation time, keeps or takes the owner and place as asked, survives a merge of the version before, replaces it on every device without news of its own, and conflicts with the others' news; no other path changes |
| `Edits.DeletionReachesOthers` | stardustlib/metadata_store.py:462-475 | The tombstone supersedes the row everywhere in the same sense, and on a device that has the row it also removes the physical file |
| `Edits.UploadSettles` | stardustlib/sync_client.py:180-187 | After an accepted upload exactly the pending rows are synced and no other column of any row is different |
| `Metadata.MetadataStore.PurgeExpiredTombstones` | stardustlib/metadata_store.py:477-496 | Exactly the tombstones older than the retention go, and their number is returned |
| `Edits.RenameThereAndBack` | stardustlib/metadata_store.py:666-673 | A rename fails iff another row has the new path; otherwise it can be undone and the same physical files are referenced |
| `Jbod.LiveIsPlaces` | stardustlib/metadata_store.py:551-572 | The files orphan collection must keep are exactly those the device's own volume is made of |
| `Volumes.VolumeIs` | stardustlib/jbod_manager.py:134-170 | A path has a content iff a live row of this device or of nobody points at a file on disk that opens to it |
| `Volumes.Put` | stardustlib/jbod_manager.py:210-330 | Giving a row a file of its own changes the volume at that path only, and no two live rows come to share a file |
| `Volumes.Drop` | stardustlib/jbod_manager.py:395-424 | A row that dies takes its path out of the volume and nothing else, as long as the other rows' files are kept |
| `Volumes.Rename` | stardustlib/jbod_manager.py:426-442 | Moving a row moves the content |
| `Volumes.MoveKeyIs` | stardustlib/metadata_store.py:666-673 | The new name has what the old one had, the old one nothing, and all others what they had |
| `Jbod.JbodManager.SelectSource` | stardustlib/jbod_manager.py:76-103 | The first active source with the most space left, iff one has enough |
| `Jbod.JbodManager.PutFresh` | stardustlib/jbod_manager.py:264-271 | A new file goes to the first source with the most room and never fails on space there |
| `Jbod.JbodManager.WriteFile` | stardustlib/jbod_manager.py:210-283 | The volume becomes the old one with the new content at the path; the row is inserted or updated and the file stored in place, or in the first source with the most room, as in the protocol; a failure changes nothing |
| `Jbod.JbodManager.OutcomeIs` | stardustlib/jbod_manager.py:222-283 | When a write goes through, in numbers: sealing adds 38 bytes; an own file needs its source active and room for its growth, any other file an active source with room for all of it |
| `Jbod.PhysicalPathIs` | stardustlib/jbod_manager.py:119-130 | The physical path is the virtual one without outer slashes, with the digits and an underscore before its last component |
| `Jbod.StripIs` | stardustlib/jbod_manager.py:125 | Only slashes at the two ends are taken off |
| `Jbod.JbodManager.TakeoverWrite` | stardustlib/jbod_manager.py:285-330 | The row of another device comes to point at a new file here, orphan collection is flagged, and the path joins the volume iff this device has an id |
| `Jbod.JbodManager.ReadFile` | stardustlib/jbod_manager.py:134-208 | A file of this device reads as the volume says while its source is active; what another device answers is decrypted: the content is that of the entry of the seal log whose blob it is up to two header bytes, and it is corrupt iff there is none |
| `Jbod.JbodManager.DeleteFile` | stardustlib/jbod_manager.py:395-424 | The path leaves the volume and becomes a tombstone; only a file of this device on an active source is removed, as in the protocol |
| `Jbod.JbodManager.MoveFile` | stardustlib/jbod_manager.py:426-442 | The content moves; fails iff the source is not live or the destination has a row |
| `Jbod.JbodManager.CopyFile` | stardustlib/jbod_manager.py:444-457 | The destination gets what the source reads as, own, foreign, offline or missing alike; the write goes through exactly when a write of that content would, and a failed copy changes nothing |
| `Jbod.JbodManager.GcOrphanFiles` | stardustlib/jbod_manager.py:342-393 | A file goes iff the device has an id, the source is active, the name has no slash, 32 hexadecimal digits and then an underscore, and no live row of the device or of nobody points at it; all others keep their bytes, the volume is the same, and the number is returned |
| `Jbod.JbodManager.GcOrphanFilesIfNeeded` | stardustlib/jbod_manager.py:332-340 | The flag is cleared, and a scan takes place iff it was set |
| `Jbod.CollectionIsSafeAndExact` | stardustlib/jbod_manager.py:342-393 | Collection keeps every referenced and every unmanaged or nested file and changes no read; afterwards the managed top-level files of the active sources are exactly the referenced ones |
| `Jbod.CollectableIff` | stardustlib/jbod_manager.py:119-130 | A new physical file can ever be collected iff its virtual path has no directory |
| `Jbod.CollectedIs` | stardustlib/jbod_manager.py:342-393 | The same for any table, set of active sources and disk |
| `Jbod.JbodManager.AddSource` | stardustlib/jbod_manager.py:109-117 | The source joins at the end of the list, in place of one with the same id, whose files leave the volume with it; no content changes unless a live file was there |
| `Jbod.OthersInOrder` | stardustlib/jbod_manager.py:114-116 | The sources that stay keep their order |
| `Jbod.ReplacedIs` | stardustlib/jbod_manager.py:114-117 | The new source brings its files, and those of the others stay as they are |
| `Jbod.JbodManager.DeactivateSource` | stardustlib/jbod_manager.py:622-631 | One source goes inactive; no content changes |
| `Sources.LoopbackSource.Write` | stardustlib/storage_source.py:433-455 | Succeeds iff the growth of the file fits; the counter stays between the bytes stored and the capacity, its lead unchanged |
| `Sources.LoopbackSource.Delete` | stardustlib/storage_source.py:457-464 | The file goes and the counter follows; a missing file is no error |
| `Sources.LoopbackSource.Rmdir` | stardustlib/storage_source.py:477-482 | Exactly the files under the directory go; the counter's lead can only grow |
| `Sources.UnderIff` | stardustlib/storage_source.py:477-482 | Those are the files whose path goes on behind the directory and a slash |
| `Sources.LoopbackSource.Mount` | stardustlib/storage_source.py:364-379 | The full scan brings the counter back to the bytes stored |
| `Sums.SumIs` | stardustlib/storage_source.py:407-417 | What is added up: nothing makes zero, and each size counts once |
| `Sources.LoopbackSource.Open` | stardustlib/storage_source.py:306-316 | A container is made iff its size is from 10 MiB to 2 TiB |
| `Directories.ListEntries` | stardustlib/metadata_store.py:606-664 | Exactly the direct children, each once, in whatever order rows come; a name is a directory iff no file has it, and a file has the size and times of its row |
| `DirectoryDeletion.EntryIff` | stardustlib/metadata_store.py:606-664 | A name is listed iff the path has a live row, lies above one, or is an explicit directory, for all tables |
| `DirectoryDeletion.DeleteDirectory` | stardustlib/jbod_manager.py:522-554 | Unless a visited directory has a double slash behind it, it ends; exactly the live files below that no live file hides become tombstones, and exactly the explicit directories visited lose their entry |
| `DirectoryDeletion.NothingLeftIff` | stardustlib/jbod_manager.py:522-554 | No live file remains below iff none ends in a slash and none is the ancestor of another |
| `DirectoryDeletion.EndsIff` | stardustlib/jbod_manager.py:522-536 | For all tables the recursion has finite depth iff no directory it visits has an entry without a name |
| `DirectoryDeletion.TrapIs` | stardustlib/metadata_store.py:606-664 | A directory has an entry without a name iff some live path continues there with a double slash or some explicit directory ends there with two slashes or more |
| `DirectoryDeletion.DirectoryGoesIff` | stardustlib/jbod_manager.py:529-554 | For all tables an explicit directory below goes iff each of its ancestors below is listed, and neither it nor any of them is a live file |
| `VirtualPath.VPathOf` | stardustlib/cli/commands.py:18-36 | The loop that squeezes double slashes ends, with the normal form that is defined in one go |
| `VirtualPath.VPathIs` | stardustlib/cli/commands.py:18-36 | What the result is: the root for nothing, a dot, or a dot and a slash, and otherwise the non-empty components typed, in order, each after one slash |
| `VirtualPath.TrimIs` | stardustlib/cli/commands.py:25-29 | Components are read from the input with backslashes turned, less the white space at its two ends and nothing else |
| `VirtualPath.VPathIsNormal` | stardustlib/cli/commands.py:18-36 | Whatever is typed, the result is absolute, without empty components, trailing slash or backslash |
| `VirtualPath.VPathFixedIff` | stardustlib/cli/commands.py:18-36 | A path is left alone iff it is normal, has no backslash and does not end in white space |
| `Crypto.EncryptDecrypt` | stardustlib/encryption_engine.py:45-102 | What was encrypted decrypts to the same, whatever was encrypted since |
| `Crypto.LayoutIs` | stardustlib/encryption_engine.py:45-62 | The blob byte by byte, 38 bytes longer than the plaintext |
| `Crypto.DecryptIs` | stardustlib/encryption_engine.py:64-102 | Too short iff under 38 bytes, bad magic iff the first four differ, otherwise the plaintext of the entry with that IV, tag and body |
| `Crypto.DecryptAcceptsIff` | stardustlib/encryption_engine.py:64-102 | Decryption gives a plaintext iff the blob is one that encryption made from it, up to the version and mode bytes |
| `Chunker.SplitShape` | stardustlib/chunker.py:13-35 | Numbered non-empty chunks of at most the size, as many as `chunk_count` says; sizes below one are refused |
| `Chunker.JoinAnyOrder` | stardustlib/chunker.py:26-28 | Joining the chunks in any order gives the blob |
| `Generations.MixedGenerations` | stardustlib/replication_manager.py:167-178 | With chunks of at least 22 bytes, chunks of different runs join to something that decrypts only if it is the plaintext of one of those runs |
| `Generations.OneGeneration` | stardustlib/replication_manager.py:252-275 | All chunks of one run, in any order, decrypt to its plaintext |
| `Generations.MixupIff` | stardustlib/replication_manager.py:130-136 | Chunks of several runs can decrypt to a plaintext that none of them had iff chunks are smaller than 22 bytes |
| `Replication.ReplicationManager.FetchFromAnyHolder` | stardustlib/replication_manager.py:370-385 | The bytes of the first listed holder that is not known to be offline and answers; nothing iff there is none |
| `Replication.ReplicationManager.RecoverChunks` | stardustlib/replication_manager.py:252-275 | Every listed chunk, or exactly the chunks nobody serves |
| `Replication.ReplicationManager.Reassemble` | stardustlib/replication_manager.py:252-275 | With all chunks fetched, exactly what decrypting their join gives, which is the plaintext of one earlier run of that very file or a failure; nothing listed and chunks nobody serves are told apart; after a single run its plaintext comes back as long as each chunk has a reachable holder |
| `Replication.ReplicationManager.Recover` | stardustlib/replication_manager.py:167-178 | A file is written back with exactly what decrypting its fetched chunks gives, the plaintext of one of its runs, or not at all; the failure says whether nothing is listed, which chunks nobody serves, or why decryption failed |
| `Replication.SurvivesAnything` | stardustlib/replication_manager.py:167-385 | After one run of a file, whatever other files are replicated, whatever is healed or recovered, whoever comes and goes, and whatever the server says about its holders, recovery gives that run's plaintext as long as each chunk has one reachable holder |
| `Replication.ReplicationManager.ListedHoldersKeepTheRun` | stardustlib/replication_manager.py:321-368 | In every state such a course leads to, every registered holder keeps the bytes of that run |
| `Replication.ReplicationManager.Replicate` | stardustlib/replication_manager.py:139-165 | The count of each chunk is that of the devices proposed apart from oneself that take it and get registered, counts are backed by devices that keep these bytes, `replicated` iff there are chunks and each count reaches the target, and the listings of other files stay |
| `Replication.ReplicationManager.ReplicateChunks` | stardustlib/replication_manager.py:217-250 | Chunks are registered and pushed one by one; the counts are those of the devices that took them, and are backed |
| `Replication.ReplicationManager.HealChunk` | stardustlib/replication_manager.py:321-368 | Nothing is added iff enough holders are online or none of them serves the chunk, or nobody new is ready; otherwise the target is reached exactly, or every ready device is on record; devices are taken in the order proposed, never oneself or a holder, each with bytes an old holder had; healthy iff online holders and added reach the target |
| `Replication.ReplicationManager.GainIs` | stardustlib/replication_manager.py:321-368 | How many devices are added: the number missing or that of the ready ones, whichever is less, and none without need or without an online holder that serves the chunk |
| `Replication.ReplicationManager.ReadyIs` | stardustlib/replication_manager.py:343-363 | A device is ready iff it is proposed, not excluded, takes the chunk and gets registered |
| `Replication.ReplicationManager.Health` | stardustlib/replication_manager.py:302-319 | The smallest number of holders of a chunk not known to be offline; degraded iff some chunk falls short of the target |
| `Replication.OnlineCount` | stardustlib/replication_manager.py:302-330 | Health counts the holders not known to be offline, healing only those of them with an address |
| `Replication.ReplicationManager.NotDegradedIsHealthyIff` | stardustlib/replication_manager.py:302-368 | A chunk that is not called degraded is found healthy by healing iff its holders without an address are no more than the surplus and what healing adds; so in any case when all have one |
| `Replication.ReplicationManager.EnsureReplicas` | stardustlib/replication_manager.py:277-300 | Every chunk gains the devices healing can add, the number of chunks that gain any is returned, `replicated` iff online holders and gain reach the target for each chunk, and the rest are reported; other files are untouched |
| `Scheduler.ReplicationScheduler.RunHealCycle` | stardustlib/replication_scheduler.py:180-225 | The scheduler stays in the state its cycles lead to, and returns the number of repairs noted in this one |
| `Scheduler.ReplicationScheduler.CheckOne` | stardustlib/replication_scheduler.py:195-224 | A failed check changes nothing, a healthy one forgets the path, a degraded one starts or keeps its clock, and a repair takes place iff the path has been degraded for the grace period and the repair succeeds |
| `Scheduler.EveryCheckIsNoted` | stardustlib/replication_scheduler.py:191-225 | Over every run of cycles, on the log alone: a failed check notes nothing, any other its verdict, and a repair follows iff the file is degraded, repairable, and its streak of degraded checks since the last healthy one or repair began at least the grace period ago |
| `Scheduler.LogAtEnds` | stardustlib/replication_scheduler.py:191-194 | The log begins empty, each cycle takes it up where the last one ended, and looks at as many paths as permitted, offered and answered |
| `Scheduler.RepairWaitsForGrace` | stardustlib/replication_scheduler.py:204-216 | Over every run of cycles, a repair at time t has a check at t - grace or before since when every successful check said degraded |
| `Scheduler.RepairsAreApart` | stardustlib/replication_scheduler.py:204-221 | Over every run of cycles, two successful repairs of a file are at least the grace period apart |
| `ParityStores.ParityStore.Store` | stardustlib/parity_store.py:65-86 | Accepted iff the identifier is valid, the chunk is the owner's or new, and the total stays in the quota; a refusal changes nothing and names the first reason |
| `ParityStores.ValidIdIff` | stardustlib/parity_store.py:23-25 | An identifier is valid iff it is not empty and contains no slash, no backslash and no two dots in a row |
| `ParityStores.ParityStore.Fetch` | stardustlib/parity_store.py:88-100 | Returns data iff that is what the requester stored in the last accepted call about the chunk; nothing is found iff no store is still in force |
| `ParityStores.HeldIsLastStore` | stardustlib/parity_store.py:65-115 | Over any run of calls, a chunk is held iff an accepted store of it was followed by no accepted store or deletion |
| `ParityStores.ParityStore.Delete` | stardustlib/parity_store.py:102-115 | Only for the owner, and idempotent |
| `ParityStores.ParityStore.UsedBytes` | stardustlib/parity_store.py:62-63 | The sum of the sizes in the index, which match the files |
| `ParityStores.OwnerChangesOnlyByDeletion` | stardustlib/parity_store.py:65-115 | Over any run of calls, a chunk changes owner only after the owner before deleted it |
| `TokenRefresh.AtMostOneRefresh` | stardustlib/auth_client.py:162-184 | In every clean run of any number of processes at most one refresh request is under way, it presents the token issued last, and the file had none good for use |
| `TokenRefresh.NeverRejected` | stardustlib/auth_client.py:98-142 | In every clean run no process is turned away unless the session was revoked |
| `TokenRefresh.SendsOnlyWhenStale` | stardustlib/auth_client.py:171-182 | Under the lock a request goes out iff the file has a refresh token but no fresh access token; else the file's token is used |
| `TokenRefresh.RefreshSucceedsIff` | stardustlib/auth_client.py:162-184 | From any state with the lock free, a refresh is granted iff the file has the token issued last and the session is not revoked |
| `TokenRefresh.LostReplyKeepsFileIff` | stardustlib/auth_client.py:103-116 | After a lost reply the file is in order iff the session was revoked; otherwise it has a token the server refuses |
| `TokenRefresh.SetKeyPasswordKeepsFileIff` | stardustlib/auth_client.py:307-310 | Whoever holds the lock: setting the key password keeps the file in order iff the tokens in memory are not out of date or the lock holder is about to write new ones; the file then has the token the server accepts iff memory has it, so empty tokens in memory wipe a valid one |
| `TokenRefresh.ClearKeepsLockIff` | stardustlib/credential_store.py:125-132 | After a logout everybody who refreshes still holds the lock iff nobody held it before |
| `TokenRefresh.ClearAllowsSecondRequest` | stardustlib/credential_store.py:125-132 | After a logout in the middle of a refresh a second request can start beside the first |
| `Auth.AuthClient.AcquireLock` | stardustlib/credential_store.py:51-76 | The spin loop ends: with the lock and an up-to-date file at the first look that finds it free, or after the timeout with every look finding it taken |
| `Auth.AuthClient.RefreshToken` | stardustlib/auth_client.py:98-142 | Presents the token the server accepts; the tokens stay without an answer, are cleared by a refusal and replaced by a grant, and memory and file are equal |
| `Auth.AuthClient.RefreshWithLock` | stardustlib/auth_client.py:162-184 | A request is sent only without a fresh token in the file and with the token accepted then, and the answer decides about the tokens; without the lock, which takes the whole timeout, nothing changes |
| `Auth.AuthClient.GetValidToken` | stardustlib/auth_client.py:144-160 | No tokens, no request; a token with more than a minute to live is returned as it is; otherwise a fresh token in the file is used, or one request is sent with the token the server accepts, unless the lock stays taken for the whole timeout |

## Left out

- HTTP, relay, P2P servers, hole punching, heartbeat and user interfaces: transport and glue; their outcomes are left open.
- SQLite, migrations and transactions: each table operation is atomic and only fails on the unique path column.
- The columns `id` and `replication_status`: a file called replicated may have changed since, because an update leaves that column alone.
- SQL `LIKE` wildcards and case folding: paths are compared literally.
- Physical directory operations: `delete_directory` and `move_directory` also remove directories on disk, which can hold files that rows elsewhere still use; only the table side is modelled, and nothing is claimed about content after them.
- `rename_directory`: a prefix rewrite of all rows below a directory, whose clashes abort half-way inside SQL.
- `DirectorySource`, remote sources in the source list and disks that fail in the middle of a write: only loopback containers have exact books.
- The backup cycle and fairness between files: only the first files of the list are looked at, so nothing is claimed about the others.
- Concurrency inside one repair: chunks are healed one after the other; they have different identifiers, so the order does not matter.
- Holders without a device id, and chunk registrations that fail: every listed holder has an id, and registering succeeds.
- The wrong key for a downloaded table and the 28-byte blob around it: a download gives a server table or nothing.
- Key upload and download, login, logout requests and saving `key_password`: single requests with retries; saving without the lock appears as one step of the token protocol.
- The order of the periodic loop and the syncstate file: the time of the last synchronisation is a parameter of `ReconcileIfStale` and part of the device state in `Protocol`.
- White space other than ASCII in typed paths, and path components `.` and `..`.
- Cipher, key derivation, hash and base64 internals.
- Sync.SyncClient.DownloadAndMerge: a contract for one device between requests of others; two coroutines of the same device interleave in `Protocol` only.
- Sync.SyncClient.MergeRecord: the files are those of the merge rule while all sources are active; on an inactive source the file of a deleted row stays.
- DirectoryDeletion.DeleteDirectory: one reading of the clock for all tombstones of a call, and a starting path in normal form.
- Two uploads of one device at once: the long-poll task forces an upload if the server has no metadata, also while the periodic task awaits a reply.
- Orphan collection at the end of each periodic cycle: `Jbod.JbodManager.GcOrphanFilesIfNeeded` is that step; the cycles are not modelled.
- Replication.ReplicationManager.Reassemble: chunk sizes of at least 22 bytes, since `Generations.MixupIff` shows that smaller ones break the claim.
- Auth.AuthClient.GetValidToken: tokens are numbers with an expiry time; the JWT in them is not parsed.
