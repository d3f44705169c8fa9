# LocalLexis in Dafny

A model of LocalLexis, a private transcription system made of a hub, laptops and a hand-held
recorder, with proofs about the parts where a mistake loses data. Run `dafny verify dfyconfig.toml`
to check all of it.

| module | what it models |
|---|---|
| `Crdt`, `HubLamport` | last-writer-wins edits of a transcript with their replayable log; the hub's PATCH requests and the workspace-wide Lamport counter |
| `SyncDelta`, `SyncProtocol` | one answer of the hub and one pull of a laptop; pulls interleaved with a changing hub |
| `Migration`, `MigrationClient`, `ImportRoute` | moving transcripts to the hub: the steps under failures, the laptop's calls, the hub's import |
| `Trash` | moving several files with rollback; trashing and restoring a transcript |
| `LibraryIndex`, `ReconcileGate`, `Embeddings` | the index table and its sync, the mtime gate before the walk, chunks with their embeddings and vector cache |
| `QueueNames`, `SdQueue`, `Wav`, `Sinks`, `Recording` | the recorder's crash-safe queue, its WAV sinks and its recording session |
| `Framing` | provisioning frames: the Rust sender and the C++ receiver |
| `FuzzyMatch`, `Merger`, `SilenceSplit`, `Chunker` | fast algorithms against simple specifications |
| `HubRuntime` | the upload thread's wake flag and its outbox |
| `Sorting`, `Strings`, `Wrappers` | stable order, string comparison, options and results |

Code that updates state step by step is a class or a method with loops, tied to a function or a
relation about which the lemmas speak. Protocols are state machines: an event is one step another
thread, device or power loss can come between, and a theorem about `Run` is about every
interleaving. A parameter such as `works`, `luck` or `took` says which outside calls succeed and is
universally quantified.

## Assumptions

- Sync: each write on the hub gets an mtime above every earlier one; `list_since` and `max_mtime`
  are one step; a document has no `id` field of its own; one pull runs at a time; a reply
  carries a document or jumps over no sendable file, which holds whenever a page cut at the limit
  yields a document.
- PATCH: no save of the counter replaces a higher value saved meanwhile, as in an atomic bump, and
  transcripts start without imported clocks.
- Index and gate: every change of a directory entry gives the directory a new, later mtime; stems
  are unique at all times in the gate's model; only the walk writes the table; the set of
  library directories is fixed over a run; one directory listing is one step.
- Migration: nothing but migration writes the table; no document names a `.json` file as its audio;
  the synced directory is not inside a trash.
- Recorder: storing the counter in NVS succeeds; queue numbers stay below 10^12.
- Times are reals and compared exactly.

## Findings

Each is a lemma with the exact condition, a witness, or both.

- The counter bump reads and writes its file without a lock; two crossed bumps lose the higher value
  (`HubLamport.CounterNeverFallsIff`, `HubLamport.CrossedBumpsLoseTheCounter`).
- A full page without a sendable document makes the client skip what lies behind it
  (`SyncProtocol.EmptyFullPageSkipsIff`), and a file restored with its old mtime is never sent again
  (`SyncProtocol.OldMtimeIsNeverListed`).
- Migration verifies against the document it read at the start, so a later edit is archived without
  reaching the hub (`Migration.LateEditGoesToTrash`).
- `sync_dirs` on one directory drops the rows of a directory nested in it
  (`LibraryIndex.NestedRowIsDropped`; `incoming` is nested at speechtotext/api/app.py:240, and a
  finished job syncs one directory at speechtotext/api/app.py:267), and two files with one stem take
  their row from each other on every call (`LibraryIndex.SettledIff`).
- The comment in reconcile.py says an unchanged mtime means no staleness; a directory that came and
  went around a walk is not noticed (`ReconcileGate.SkipEqualsWalkIff`,
  `ReconcileGate.DirThatCameAndWent`).
- The comment in hub_runtime.py says a poke is never lost; a cycle that fails before reading the
  outbox consumes it, and the entry waits for the next period
  (`HubRuntime.BlindCycleSwallowsThePoke`, `HubRuntime.NextSnapshotSeesEverything`).
- The comment at firmware/esp32-recorder/src/main.cpp:166 says sinks are reusable after `close()`;
  the memory sink is not, so there is one such clip per boot (`Recording.OneMemoryClipPerBoot`).
- A block that would overrun the sink ends the recording as an error unless the sink is exactly full
  (`Recording.RecordingSession.OnPcm`).
- `SdQueue::enqueue` renames before it stores the counter (`SdQueue.EnqueueCanLoseTheNextClip`,
  `SdQueue.NextClipIsKeptIff`); nothing in the firmware calls it at present.
- With a minimum silence of one frame, cuts can pass the end (`SilenceSplit.CutPassesTheEndIff`); no
  caller asks for one.

## Model

| member | source | states |
|---|---|---|
| Crdt.ReplayRebuildsLiveState | speechtotext/api/crdt.py:229-317 | After any run of edit requests on a document without clocks or history, under any counter values (falling ones and ties included), replaying the log gives exactly the live clocks and the live value at every clocked key; every other key still has its first value. |
| Crdt.ReplayIgnoresOrderIff | speechtotext/api/crdt.py:296-317 | Every permutation of a log replays alike exactly if ops that tie for the greatest (lamport, device) of a key agree in what they leave; both directions. |
| Crdt.DistinctStampsAgree | speechtotext/api/crdt.py:69-78 | No two ops of a key sharing (lamport, device) is enough for that condition. |
| Crdt.ReplayMeaning | speechtotext/api/crdt.py:296-317 | Replay fails exactly on a log with an unsupported key; otherwise clocks and values are those of each key's winner and the history is the sorted log. |
| Crdt.WinnersMeaning | speechtotext/api/crdt.py:69-78 | On a key the op left standing has the greatest Lamport; among those the device that comes last; among those it is the first in list order. |
| Strings.LessMeaning | speechtotext/api/crdt.py:78 | Devices are compared as strings: the first position where they differ decides, and a prefix comes first. |
| Crdt.MergeShows | speechtotext/api/crdt.py:229-293 | Each accepted op keeps the live state equal to the winners of its own log on top of the first document. |
| Crdt.SortPermutes | speechtotext/api/crdt.py:296-317 | The sort by (lamport, device) keeps every op, with its multiplicity. |
| Crdt.SortSorts | speechtotext/api/crdt.py:296-317 | Its result is ordered by (lamport, device). |
| Crdt.SortIsStable | speechtotext/api/crdt.py:296-317 | Ops with one stamp stay in log order. |
| Crdt.SortKeepsWinners | speechtotext/api/crdt.py:296-317 | Sorting does not change who wins a key. |
| Crdt.StepsCommute | speechtotext/api/crdt.py:69-78 | Two ops with different stamps may be applied in either order. |
| Crdt.PutGet | speechtotext/api/crdt.py:200-226 | A written value is read back at its own key and nowhere else; null becomes the empty string except for the title. |
| Crdt.TranscriptState.ApplyValue | speechtotext/api/crdt.py:213-226 | The assignment in place gives the written contents; false exactly on an unsupported key. |
| Crdt.MergeOp | speechtotext/api/crdt.py:229-293 | Accepted exactly from a named device, with no negative Lamport observed, for a relabel of a speaker key with an id, a set_title of the title, or an edit of a segment the document has; each refusal by its cause. An accepted op gets a Lamport one above the greater of counter and observed, is logged with the value it replaces, and takes its key unless the key's clock has a higher Lamport, or the same one and a device that does not come before. The input is left as it was. |
| Crdt.MergeAccepts | speechtotext/api/crdt.py:178-197 | The requests the merge accepts, written out over op kind, key, device, Lamport and the segments of the document. |
| Crdt.RunKeepsSegments | speechtotext/api/crdt.py:178-226 | Over any run of edits the document keeps exactly its segments, and no speaker goes. |
| Crdt.ReplayHistory | speechtotext/api/crdt.py:296-317 | The loop over the sorted log equals the replay function, and raises exactly when it fails. |
| HubLamport.EveryAcceptedOpWins | speechtotext/api/routes_transcripts.py:603-646 | In every interleaving of PATCHes on many transcripts, crashes included, in which no save of the counter replaces a higher value saved meanwhile: the counter is at or above every Lamport on disk, each history's Lamports strictly increase, and the last op on each key is the one in force. |
| HubLamport.WritePutsOpInForce | speechtotext/api/routes_transcripts.py:603-646 | The write of an accepted op puts its value and clock in force. |
| HubLamport.LogOnlyGrows | speechtotext/api/routes_transcripts.py:603-646 | Within a transcript's life its history is only appended to. |
| HubLamport.CounterIsMonotone | speechtotext/api/workspace.py:144-159 | Over every such run the stored counter never falls. |
| HubLamport.MergeTakesKey | speechtotext/api/crdt.py:265-293 | With the counter at or above everything in the document, an accepted op is newer than all of it and takes its key. |
| HubLamport.CounterNeverFallsIff | speechtotext/api/workspace.py:144-159 | Over every run the counter never falls if and only if no save replaces a higher value that was saved after a lower one was loaded. |
| HubLamport.CrossedBumpsLoseTheCounter | speechtotext/api/workspace.py:144-159 | A run of two crossed bumps ends with a Lamport on disk above the counter. |
| HubLamport.Workspace.BumpLamportTo | speechtotext/api/workspace.py:144-159 | An undisturbed bump leaves and returns the maximum of the stored and the given value. |
| HubLamport.ForwardOps | speechtotext/api/routes_transcripts.py:414-442 | Op i carries the highest of the synced clocks and the hub's answers to the ops before it; if each answer is above what it was sent, the answers strictly increase. |
| HubLamport.HighestIsReached | speechtotext/api/routes_transcripts.py:414-442 | That highest value is at or above all of them and is one of them. |
| SyncDelta.WireValidSegments | speechtotext/api/routes_sync.py:55-74 | True exactly for a document whose segments, if it has any, are all well formed. |
| SyncDelta.BuildDelta | speechtotext/api/routes_sync.py:88-138 | The page loop equals the fold over the rows; an answer without documents carries the newest mtime of the library. |
| SyncDelta.AcceptAllMeaning | speechtotext/api/routes_sync.py:88-138 | The answer holds exactly the documents that were sendable when read; its cursor covers each of them and is the mtime of one, or the asked cursor if there is none. |
| SyncDelta.Laptop.PullOnce | speechtotext/client/sync_puller.py:24-52 | Whatever document a crash comes after, the documents before it are on disk; the cursor moves only when all are, and never down. |
| SyncDelta.Laptop.UpdateFields | speechtotext/client/state.py:76-86 | Only the named fields of the stored state change. |
| SyncDelta.WriteAllMeaning | speechtotext/client/sync_puller.py:34-47 | Documents with distinct ids all arrive and no other file is touched. |
| SyncProtocol.NothingBehindTheCursorIsMissing | speechtotext/client/sync_puller.py:24-52 | In every interleaving of hub writes, deletions, pulls and interruptions, with replies that carry a document or jump over none, each sendable hub document with mtime at most the cursor is on the laptop in its current version. |
| SyncProtocol.CursorNeverDecreases | speechtotext/client/sync_puller.py:49-51 | Over every run the cursor never decreases. |
| SyncProtocol.QuietHubSyncsCompletely | speechtotext/api/routes_sync.py:88-138 | From any reachable state, once the hub is quiet, as many completed pulls as there are files behind the cursor bring every sendable document. |
| SyncProtocol.OwnStepProgresses | speechtotext/api/routes_sync.py:88-138 | With a quiet hub every finished pull shrinks the set of files the cursor has not reached, or there is none. |
| SyncProtocol.EmptyFullPageSkipsIff | speechtotext/api/routes_sync.py:127-138 | A reply keeps coverage whatever the laptop holds if and only if it carries a document or no sendable file lies unlisted between the cursor and the library's newest mtime; only a full page can fail this. |
| SyncProtocol.OldMtimeIsNeverListed | speechtotext/api/library_db.py:983-1017 | A file that returns with an mtime at or below the cursor is on no page, whatever its limit. |
| Migration.InPlaceOrArchived | speechtotext/client/migrate.py:41-86 | In every interleaving with pulls, edits and a crash after any step, an original is in its place, or it was archived at some step after a verification, its bin holds the bytes it had then, and the synced copy exists. |
| Migration.FilesLeaveOnlyArchived | speechtotext/client/migrate.py:41-86 | A file outside the trash leaves its place only in a move of a migration whose copy exists and was verified, and its bytes are then in that bin. |
| Migration.SyncedCopiesStay | speechtotext/client/migrate.py:41-48 | No transcript under the synced directory ever leaves it. |
| Migration.RowsAlwaysPoint | speechtotext/client/migrate.py:70-85 | At every moment every index row points to an existing file with the row's id as stem. |
| Migration.ArchivedOriginalIsOnTheHub | speechtotext/client/migrate.py:57-74 | When the original goes, with no edit since it was read and no later pull over the copy, the synced copy has its segments, its speakers and its title. |
| Migration.LateEditIsArchivedUnsyncedIff | speechtotext/client/migrate.py:49-74 | The bytes that go to the trash have the verified copy's segments, speakers and title exactly if edits since the read left all three alone. |
| Migration.LateEditGoesToTrash | speechtotext/client/migrate.py:65-74 | After any verification an edit of the original can still come in between and is then archived, the synced copy unchanged. |
| MigrationClient.Laptop.MigrateOne | speechtotext/client/migrate.py:41-86 | Succeeds exactly if the original lies outside the synced directory and parses, push, pull and indexing succeed and the copy on disk has the original's segments, speakers and title; then the copy at the end still has them, and the original is in place or in its bin; a failure changes no row and takes no file away; every other transcript is untouched. |
| MigrationClient.Laptop.SweepLocal | speechtotext/client/migrate.py:89-132 | Only local, readable rows outside the synced directory are tried; each is migrated or failed and not both; all are tried unless the hub was unreachable; rows not migrated are unchanged; a transcript that left its place is a migrated one. |
| MigrationClient.HeldAfter | speechtotext/api/trash.py:26-42 | However archiving ends, also with a partial rollback, the original stands in its place or in its bin with its bytes. |
| ImportRoute.Hub.PostImport | speechtotext/api/routes_import.py:75-124 | Imported exactly for a valid id and shape, unknown to table and disk, with any named audio staged; the document is kept but for its audio path; every other answer changes nothing. |
| ImportRoute.Hub.PushTwice | speechtotext/api/routes_import.py:89-94 | A second push is answered "exists" and the first copy stays, so it has the second's segments, speakers and title exactly if the first had them. |
| Trash.RollbackRestoresIff | speechtotext/api/trash.py:26-42 | When every undo succeeds, the rollback gives back the original files exactly if no move that was done overwrote one. |
| Trash.RollbackLosesNoFile | speechtotext/api/trash.py:26-42 | Whatever undos fail, each moved file stands with its bytes at its source or its target, and every other path is as before. |
| Trash.MovedMeaning | speechtotext/api/trash.py:26-42 | After all moves each file stands at its target with its bytes, and every other path is as before. |
| Trash.RestoreUndoesTrash | speechtotext/api/trash.py:45-144 | Restoring what was trashed into a fresh bin gives back the original files, every one, for distinct names other than the manifest's. |
| Trash.FailedTrashChangesNoFile | speechtotext/api/trash.py:45-81 | A failed attempt leaves every original file as it was and only the manifest in the bin. |
| Trash.Disk.ExecuteMoves | speechtotext/api/trash.py:26-42 | Succeeds exactly if each rename finds its source and works; then all moves are done; else those before the first failure are rolled back. |
| Trash.Disk.TrashTranscript | speechtotext/api/trash.py:45-81 | On success the transcript, its text and its audio, where they exist, and nothing else, stand in the bin with their bytes and the manifest lists them; a failure rolls back, and with every undo working every file stands as it was. |
| Trash.TrashTakesItsFiles | speechtotext/api/trash.py:45-81 | Of the whole disk after trashing: the files of the transcript are in the bin and gone from their places, all other paths are unchanged, the manifest names exactly them. |
| Trash.Disk.Restore | speechtotext/api/trash.py:112-144 | Whatever the outcome, every file outside the bin stands as it was. Not found exactly if no directory has the bin; the first that has it is used; refused, with nothing changed, exactly if a listed path with its copy in the bin is taken; on success each copy is in its place, the bin is gone and nothing else changed; after a failed move no copy is lost, and with every undo working nothing changed. |
| Trash.PlannedMoves | speechtotext/api/trash.py:130-139 | A plan fails exactly on a listed path that has its copy in the bin and is taken; otherwise it takes every copy, each to a free place. |
| Trash.PutBackMeaning | speechtotext/api/trash.py:139-144 | After all moves and the removal of the bin, each copy's bytes stand at its listed path outside the bin, and every path not listed is as before. |
| Trash.UndoneRestoreMeaning | speechtotext/api/trash.py:26-42 | After a restore whose moves failed, whatever undos fail, each copy stands in the bin or at the place of a listed file of its name, and with every undo working the disk is as before. |
| LibraryIndex.LibraryDB.SyncDirs | speechtotext/api/library_db.py:598-653 | After a call every row obeys the rule of the next rows; it upserts nothing exactly if every scanned file matched its row; it deletes exactly the rows without a file under the scanned directories; it counts the scanned files. |
| LibraryIndex.NoRowIsStale | speechtotext/api/library_db.py:598-653 | Every row under a scanned directory names a file on disk and has its mtime and size. |
| LibraryIndex.NoFileIsMissed | speechtotext/api/library_db.py:608-628 | Every stem in the scanned directories has a row with the mtime and size of a file of that stem, also when directories share it. |
| LibraryIndex.RowElsewhereStaysIff | speechtotext/api/library_db.py:632-652 | A row whose stem no scanned file has stays, unchanged, exactly if its path is under no scanned directory. |
| LibraryIndex.RowElsewhereStays | speechtotext/api/library_db.py:632-652 | So rows of directories that are not nested with the scanned ones are unchanged. |
| LibraryIndex.NestedRowIsDropped | speechtotext/api/library_db.py:632-652 | Syncing an output directory alone drops the row of a file that is on disk in `incoming` below it. |
| LibraryIndex.OrderDoesNotMatter | speechtotext/api/library_db.py:609-628 | With distinct stems the outcome does not depend on the order in which files are listed. |
| LibraryIndex.SettledIff | speechtotext/api/library_db.py:609-652 | After a sync a second one finds everything up to date exactly if no two scanned files share a stem, and deletes nothing either way. |
| LibraryIndex.LibraryDB.UpsertPath | speechtotext/api/library_db.py:412-541 | The row of the file's stem takes its path, mtime and size; false exactly if the file is gone. |
| LibraryIndex.LibraryDB.DeleteByPath | speechtotext/api/library_db.py:574-596 | Exactly the row with that path goes. |
| ReconcileGate.RememberedDirAgrees | speechtotext/api/reconcile.py:33-61 | With writers between any two steps of stats, walk and upserts, whenever a directory's remembered mtime is its current one, the table has exactly its files, with their contents. |
| ReconcileGate.SkipEqualsWalkIff | speechtotext/api/reconcile.py:39-61 | When the gate skips and no directory changed since its stat, a walk would upsert and delete nothing if and only if every row below the library directories is in a directory the reconciler remembers. |
| ReconcileGate.NoRowMisleads | speechtotext/api/library_db.py:616-628 | A row with its file's mtime has that file's size and text, though the file may change between the stat and the read that fill the row. |
| ReconcileGate.DirThatCameAndWent | speechtotext/api/reconcile.py:41-61 | That can fail: a directory missing at the stats, created and walked, and gone before the next call leaves a row to no file, and the gate skips. |
| ReconcileGate.LibraryReconciler.Reconcile | speechtotext/api/reconcile.py:33-61 | A call walks exactly if the directories found and their mtimes differ from those remembered; it remembers what it found unless the walk raised. |
| Embeddings.EmbeddingsAreRight | speechtotext/api/embed_worker.py:68-79 | In every interleaving of re-indexing, deletion and the worker's read, embed and store, each embedding belongs to a live chunk of a live transcript and is that of the chunk's own text. |
| Embeddings.CacheIsFresh | speechtotext/api/library_db.py:880-914 | The vector cache, when present, has a line for exactly the live chunks embedded by its model, each with its current vector and chunk. |
| Embeddings.IdsAreNeverReused | speechtotext/api/library_db.py:138-150 | A chunk that has an id now had it, with the same text, at every earlier time the id was given out. |
| Embeddings.StoreIsAllOrNothing | speechtotext/api/library_db.py:868-878 | A store gives every item of its batch its vector, or one of its chunks was gone and nothing changed. |
| Embeddings.StoreClearsItsBatch | speechtotext/api/library_db.py:854-878 | With nothing in between, a store takes exactly its batch off the pending chunks. |
| Embeddings.LibraryDB.Upsert | speechtotext/api/library_db.py:529-540 | The chunks of the transcript are replaced wholesale under new ids, embeddings of the old ones go, the cache is dropped. |
| Embeddings.UpsertReplaces | speechtotext/api/library_db.py:529-540 | Exactly the transcript's old chunks go and its new ones come, under the next ids in order; exactly the embeddings of chunks that went go with them. |
| Embeddings.LibraryDB.DeleteByTid | speechtotext/api/library_db.py:574-596 | Row, chunks and their embeddings go, and the cache; without a row nothing happens. |
| Embeddings.LibraryDB.PendingChunks | speechtotext/api/library_db.py:854-866 | The batch has distinct pending chunks with their texts, all of them if fewer than the limit. |
| Embeddings.LibraryDB.StoreEmbeddings | speechtotext/api/library_db.py:868-878 | True exactly if every chunk is live; false undoes the whole batch and keeps the cache. |
| Embeddings.LibraryDB.VecMatrix | speechtotext/api/library_db.py:880-914 | Cached or not, the result has a line for exactly the live chunks embedded by that model, each with its vector and chunk. |
| Embeddings.Drain | speechtotext/api/embed_worker.py:68-79 | Undisturbed, a sweep reports work exactly if something was pending, and then fewer chunks are. |
| Embeddings.Sweep | speechtotext/api/embed_worker.py:47-63 | Repeated sweeps end with every chunk embedded from its own text. |
| SdQueue.QueuedBelowCounter | firmware/esp32-recorder/src/storage/SdQueue.cpp:161-188 | Over every run of reserve, commit, abort, remove, enqueue, power loss and reboot, but for a power loss inside `enqueue` after its rename, each queued file has a reserved number below the stored counter. |
| SdQueue.CommitNeverCollides | firmware/esp32-recorder/src/storage/SdFileWriter.cpp:32-44 | No commit meets a queued file: it succeeds, moves the written bytes, and leaves every other queued file alone. |
| SdQueue.OldestIsFirstReserved | firmware/esp32-recorder/src/storage/SdQueue.cpp:126-151 | The smallest name is the queued file reserved first. |
| SdQueue.FreshNumberIsFree | firmware/esp32-recorder/src/storage/SdQueue.cpp:56-73 | The stored counter names no queued file. |
| SdQueue.NextClipIsKeptIff | firmware/esp32-recorder/src/storage/SdQueue.cpp:161-188 | Of any card whatever: the next recording is queued with its bytes, whatever they are, if and only if its name is free. |
| SdQueue.NextClipEnds | firmware/esp32-recorder/src/storage/SdFileWriter.cpp:32-44 | If the name is taken, the clip that has it stays; no other clip changes either way. |
| SdQueue.EnqueueCanLoseTheNextClip | firmware/esp32-recorder/src/storage/SdQueue.cpp:113-124 | From every reachable state, a power loss between `enqueue`'s rename and its counter update gives the next recording a taken name after the reboot, and its bytes are lost. |
| SdQueue.Queue.Begin | firmware/esp32-recorder/src/storage/SdQueue.cpp:26-73 | After a mount the counter is the stored one and only removable partial files are gone. |
| SdQueue.Queue.PeekOldestPath | firmware/esp32-recorder/src/storage/SdQueue.cpp:126-151 | Finds the string-smallest queued name, or nothing exactly if there is none. |
| SdQueue.Queue.OpenWriter | firmware/esp32-recorder/src/storage/SdQueue.cpp:161-188 | A writer is given exactly if the card is ready, has room and opens; the number is then stored as used before a byte is written. |
| SdQueue.Queue.SweepPartials | firmware/esp32-recorder/src/storage/SdQueue.cpp:216-239 | Exactly the removable partial files go. |
| SdQueue.Queue.Enqueue | firmware/esp32-recorder/src/storage/SdQueue.cpp:75-124 | Succeeds exactly if ready, within size and room, fully written and the name was free; then the clip is queued and the counter stored; a failure leaves no queued file. |
| SdQueue.SdFileWriter.Commit | firmware/esp32-recorder/src/storage/SdFileWriter.cpp:32-44 | Once only: the partial becomes the final file if that name is free, and is removed if not. |
| SdQueue.SdFileWriter.Abort | firmware/esp32-recorder/src/storage/SdFileWriter.cpp:46-53 | The partial file goes, once only. |
| QueueNames.NamesSortLikeNumbers | firmware/esp32-recorder/src/storage/SdQueue.cpp:241-246 | Below 10^12 the padded names compare as strings exactly as their numbers do, and are equal only for equal numbers. |
| QueueNames.NameReadsBack | firmware/esp32-recorder/src/storage/SdQueue.cpp:241-246 | A name is Q, at least twelve decimal digits that read back as the number, and .wav. |
| QueueNames.NamesBreakAtTheLimit | firmware/esp32-recorder/src/storage/SdQueue.cpp:241-246 | At 10^12 the next name sorts before its predecessor. |
| QueueNames.NamesAreApart | firmware/esp32-recorder/src/storage/SdQueue.cpp:161-188 | A partial name is never a queued name, and both determine the number. |
| Recording.RecordingSession.Toggle | firmware/esp32-recorder/src/audio/RecordingSession.cpp:13-20 | At rest it starts exactly if the chosen sink opens and codec and capture start, with an empty clip; when recording it stops with the user's reason and delivers the clip, from either sink; the session invariant (Recording exactly when sink, codec and capture are active, otherwise all released) holds. |
| Recording.Play | firmware/esp32-recorder/src/audio/RecordingSession.cpp:13-60 | Any sequence of presses and blocks, with any answers of the hardware, takes the session exactly where it takes the value model. |
| Recording.RecordingIsItsBlocks | firmware/esp32-recorder/src/audio/RecordingSession.cpp:22-60 | After any such sequence a recording in progress was started by one press and holds exactly the blocks heard since, in order, within capacity. |
| Recording.ClipIsItsBlocks | firmware/esp32-recorder/src/audio/RecordingSession.cpp:51-82 | The event that ends a recording delivers the header that counts those blocks and the blocks, for both sinks; on the card exactly if it patches, renames and the name is free; only a last block taken in part follows uncounted. |
| Recording.NamesStayFree | firmware/esp32-recorder/src/storage/SdQueue.cpp:161-188 | Names ahead of the counter stay free over any such sequence, so the name of a card recording is free when it is committed. |
| Recording.RecordingSession.StartRecording | firmware/esp32-recorder/src/audio/RecordingSession.cpp:22-49 | Recording exactly if the chosen sink opens and codec and capture start; any failure releases all and reports an error. |
| Recording.RecordingSession.OnPcm | firmware/esp32-recorder/src/audio/RecordingSession.cpp:51-60 | A block is kept whole or ends the recording, as full if the sink was exactly at capacity and as error if not; nothing happens when not recording. |
| Recording.RecordingSession.StopRecording | firmware/esp32-recorder/src/audio/RecordingSession.cpp:62-82 | A closed clip is the header for n followed by the n accepted bytes (and the tail of a short card write), within capacity in memory, for both sinks. |
| Recording.OneMemoryClipPerBoot | firmware/esp32-recorder/src/main.cpp:166-178 | After one memory-backed clip, any presses, blocks and card recordings leave it pending, and every press without a card is refused. |
| Sinks.WavMemorySink.Open | firmware/esp32-recorder/src/audio/WavMemorySink.cpp:10-20 | Refused while open, also after `close`, or without room for a header. |
| Sinks.WavMemorySink.Close | firmware/esp32-recorder/src/audio/WavMemorySink.cpp:32-38 | The buffer becomes the header for its n bytes followed by them; the sink stays open. |
| Sinks.WavMemorySink.TakeBytes | firmware/esp32-recorder/src/audio/WavMemorySink.cpp:47-51 | Hands the clip over once. |
| Sinks.WavFileSink.Open | firmware/esp32-recorder/src/audio/WavFileSink.cpp:11-26 | Opens exactly if not open, the queue gives a writer and a whole header is taken; else nothing is left open. |
| Sinks.WavFileSink.Write | firmware/esp32-recorder/src/audio/WavFileSink.cpp:28-34 | Bytes count only if all were taken and fit; a short write leaves its bytes in the file uncounted. |
| Sinks.WavFileSink.Close | firmware/esp32-recorder/src/audio/WavFileSink.cpp:39-59 | Succeeds exactly if seeks, patches and the rename do; the queued file is then the header for the counted bytes followed by the body. |
| Sinks.WavFileSink.Discard | firmware/esp32-recorder/src/audio/WavFileSink.cpp:61-68 | Nothing stays open or counted. |
| Wav.PatchingIsRewriting | firmware/esp32-recorder/src/audio/WavWriter.cpp:45-48 | Patching the two sizes of a streamed clip equals having written the header with the final size. |
| Wav.HeaderAnnounces | firmware/esp32-recorder/src/audio/WavWriter.cpp:25-43 | A reader of a file that starts with the header finds the four tags, format 1, the number of channels, the rate, twice the channels as frame size, their product with the rate as byte rate, and 16 bits, wherever these do not wrap. |
| Wav.HeaderSizesDescribeTheFile | firmware/esp32-recorder/src/audio/WavWriter.cpp:21-48 | Read back, the two sizes are the file's length less 8 and less 44, for any file below 4 GiB. |
| Wav.Le32ReadsBack | firmware/esp32-recorder/src/audio/WavWriter.cpp:14-19 | A stored 32-bit number reads back modulo 2^32. |
| Wav.Le16ReadsBack | firmware/esp32-recorder/src/audio/WavWriter.cpp:8-11 | A stored 16-bit number reads back, low byte first, modulo 2^16. |
| Wav.WriteWavHeader | firmware/esp32-recorder/src/audio/WavWriter.cpp:25-43 | The byte-wise writes leave a buffer in which a reader finds tags, format, channels, rates, bits and the two sizes. |
| Wav.PatchWavSizes | firmware/esp32-recorder/src/audio/WavWriter.cpp:45-48 | The in-place patch changes the two size fields and nothing else. |
| Framing.AnyOrderReassembles | firmware/esp32-recorder/src/provisioning/ProvisioningProtocol.cpp:14-72 | For every payload of 1 to 4088 bytes and every order of its frames, the receiver completes exactly on the last frame, with the payload. |
| Framing.LongPayloadIsRefused | firmware/esp32-recorder/src/provisioning/ProvisioningProtocol.cpp:14-35 | Any longer payload the sender accepts is refused on its first frame, whichever comes first, and nothing after it is taken. |
| Framing.CompletionIsBacked | firmware/esp32-recorder/src/provisioning/ProvisioningProtocol.cpp:14-72 | Under any frames whatever, a complete payload is the join of slots that each came from a received frame with that number and total. |
| Framing.FrameIsWellFormed | ui/src-tauri/src/ble.rs:92-105 | Every frame sent carries its number, the total and its chunk within the frame limit, and the receiver finds fault with it exactly if the payload is too long. |
| Framing.SenderAccepts | ui/src-tauri/src/ble.rs:84-105 | The sender accepts exactly payloads of 1 to 14 * 65535 bytes and sends one frame per 14 bytes begun. |
| Framing.ChunksJoin | ui/src-tauri/src/ble.rs:92-105 | The first chunks joined are that much of the payload; all of them are the payload. |
| Framing.FrameReassembler.Accept | firmware/esp32-recorder/src/provisioning/ProvisioningProtocol.cpp:14-68 | The imperative receiver equals the receiver function, takes a frame exactly if version, length, total and number are right and the number is new, and reports done exactly on completion. |
| FuzzyMatch.WithinOneEdit | ui/src/lib/fuzzyMatch.ts:32-49 | True exactly if the Levenshtein distance is at most one, for all strings. |
| FuzzyMatch.TokensMatch | ui/src/lib/fuzzyMatch.ts:51-56 | Two tokens match exactly if their texts are equal, or their codes, or both have at least five letters and are at most one edit apart. |
| FuzzyMatch.WithinOneInsertion | ui/src/lib/fuzzyMatch.ts:41-48 | The two-pointer loop decides the same for lengths that differ by one. |
| FuzzyMatch.NearAtEqualLength | ui/src/lib/fuzzyMatch.ts:36-40 | At equal lengths, distance at most one is at most one mismatch. |
| FuzzyMatch.LevIsSymmetric | ui/src/lib/fuzzyMatch.ts:32-49 | The distance is symmetric. |
| FuzzyMatch.LevIsZero | ui/src/lib/fuzzyMatch.ts:32-49 | It is zero exactly for equal strings. |
| FuzzyMatch.FindMatches | ui/src/lib/fuzzyMatch.ts:68-108 | The loops return the greedy windows of every segment, for exact and fuzzy search. |
| FuzzyMatch.GreedyIsDisjoint | ui/src/lib/fuzzyMatch.ts:77-107 | The windows are hits, ordered and disjoint. |
| FuzzyMatch.GreedyCovers | ui/src/lib/fuzzyMatch.ts:77-107 | Every hit starts inside a reported window. |
| FuzzyMatch.GreedyIsMaximal | ui/src/lib/fuzzyMatch.ts:77-107 | No choice of disjoint hits is longer. |
| FuzzyMatch.MatchesAreOrdered | ui/src/lib/fuzzyMatch.ts:68-108 | Matches come segment by segment, left to right, without overlap. |
| FuzzyMatch.FuzzySearchMissesNothing | ui/src/lib/fuzzyMatch.ts:88-107 | In any segment, a window of tokens that agrees with the query starts inside a match returned for that segment. |
| FuzzyMatch.FuzzyMissesNothing | ui/src/lib/fuzzyMatch.ts:88-107 | In one segment, no choice of disjoint agreeing windows is longer than the reported one, and each agreeing window starts inside a reported one. |
| FuzzyMatch.ExactSearchMissesNothing | ui/src/lib/fuzzyMatch.ts:77-86 | In any segment, an occurrence of the query text starts inside a match returned for that segment. |
| FuzzyMatch.ExactMissesNothing | ui/src/lib/fuzzyMatch.ts:77-86 | In one segment, the same two claims for occurrences of the query text. |
| Merger.Merge | speechtotext/merger.py:12-61 | Each output keeps its input's position, times and text, and names the turn that lasts longest together with the segment, of equal ones the one that starts first and then the one listed first, or UNKNOWN if none lasts 50 ms. |
| Merger.OverlapLastsTogether | speechtotext/merger.py:8-9 | For any four times, the formula is the length of the stretch of times in both intervals, and 0 if no time is in both. |
| Merger.OneLength | speechtotext/merger.py:8-9 | There is one such length. |
| Merger.LabelIsUnique | speechtotext/merger.py:12-61 | That specification leaves one label per segment. |
| Merger.LabelSegment | speechtotext/merger.py:38-60 | The shared pointer skips only turns that ended by the segment's start, and the label is right for all turns. |
| Merger.ScanTurns | speechtotext/merger.py:45-57 | The scan that stops at the first turn starting too late has seen the largest overlap of all. |
| SilenceSplit.SplitOnSilence | speechtotext/asr/remote.py:29-76 | For rates below 10^6, or 500000 at a minimum run of one frame: the ranges run from 0 to the duration without gaps, none longer than the maximum, ending at every cut and elsewhere only inside a stretch longer than the maximum, if and only if the last frame does not overshoot; if it does, they run on to a cut past the end. |
| SilenceSplit.FindCuts | speechtotext/asr/remote.py:52-64 | The cuts are the centres of exactly the maximal silent runs of at least the minimum length. |
| SilenceSplit.MinRunMeaning | speechtotext/asr/remote.py:52 | The minimum run is the number of whole 20 ms frames in the minimum silence, at least one. |
| SilenceSplit.FrameTotalMeaning | speechtotext/asr/remote.py:45-46 | The frame count is the least that holds all samples. |
| SilenceSplit.CentreIsMiddle | speechtotext/asr/remote.py:61 | A cut is as far from the beginning of its run as from its end. |
| SilenceSplit.BoundsAreWellSpaced | speechtotext/asr/remote.py:66-71 | For such rates the 1e-6 filter drops nothing at two frames or more, and at one frame only a last step of length zero or one that leads back. |
| SilenceSplit.SplitEvenly | speechtotext/asr/remote.py:72-76 | A stretch is cut into equal pieces that tile it, as few as the maximum allows. |
| SilenceSplit.SliceSamples | speechtotext/asr/remote.py:118-134 | The integer slices of tiling ranges partition the samples: joined they are all of them, and each is cut at whole samples below its range's ends. |
| SilenceSplit.CutPassesTheEndIff | speechtotext/asr/remote.py:52-67 | Some cut lies past the end of the audio if and only if one frame is enough for a cut, and the last frame is silent on its own and more than half padding. |
| SilenceSplit.ShortRunsOvershoot | speechtotext/asr/remote.py:52-67 | There are such recordings. |
| HubRuntime.NoPokeIsLost | speechtotext/client/hub_runtime.py:112-159 | In every interleaving, once the thread waits with the flag down after a cycle that read the outbox, every entry whose poke has finished was in a snapshot. |
| HubRuntime.SeenIffSnapshotSince | speechtotext/client/hub_runtime.py:112-159 | An entry was in a snapshot exactly if one was taken since its meta file was written. |
| HubRuntime.BlindCycleSwallowsThePoke | speechtotext/client/hub_runtime.py:112-159 | A cycle that fails before it reads the outbox leaves the flag down with a poked entry in no snapshot. |
| HubRuntime.NextSnapshotSeesEverything | speechtotext/client/upload_queue.py:50-65 | Every snapshot holds each listed entry that is not yet sent. |
| HubRuntime.EntriesAreKeptOrSent | speechtotext/client/upload_queue.py:35-80 | A listed entry is in the outbox exactly until it is uploaded. |
| HubRuntime.OlderGoFirst | speechtotext/client/upload_queue.py:68-80 | What is uploaded is older than everything left of its snapshot. |
| HubRuntime.Outbox.Pending | speechtotext/client/upload_queue.py:50-65 | The entries on disk, each once, oldest first; meta files without audio are removed, and nothing else. |
| HubRuntime.Outbox.Sweep | speechtotext/client/upload_queue.py:68-80 | Exactly the uploads before the first failure leave the outbox, and all are older than what stays. |
| Chunker.BuildChunks | speechtotext/rag/chunker.py:15-58 | The chunks' segments are exactly those with text, in order; each chunk closes at the target or when the next segment would not fit, with the right first segment, times, text and count. |
| Chunker.ChunksAreUnique | speechtotext/rag/chunker.py:15-58 | That specification leaves one result. |
| Chunker.ChunksAreBounded | speechtotext/rag/chunker.py:15-58 | A chunk has at most 300 words unless it is one segment, and its token count is the number of words of its text. |
| Chunker.JoinKeepsWords | speechtotext/rag/chunker.py:29-40 | Joining with spaces adds up word counts. |
| Chunker.WordsMeaning | speechtotext/rag/chunker.py:46 | The word count is the number of places where a character that is not white space stands first or behind white space. |
| Chunker.JoinInParts | speechtotext/rag/chunker.py:37 | What is joined in two parts is joined with one space. |
| Chunker.StripCuts | speechtotext/rag/chunker.py:43-46 | Stripping removes all white space at both ends and nothing else. |

## Left out

- Queue.OpenWriter: asks for a next number below 10^12, which the code does not check; above it `NamesBreakAtTheLimit` shows the order is lost.
- WithinOneEdit: strings are sequences of characters, not of UTF-16 code units.
- BuildChunks: white space is space, tab, line feed, vertical tab, form feed and carriage return; Python also strips and splits at other separators.
- SweepLocal: the order in which the table lists rows is left open, and rows beyond its limit are not tried.
- NoPokeIsLost: stopping the thread is one event; join timeouts are not modelled.
- RememberedDirAgrees: a second writer of the table, such as the sync a finished job starts in its own thread, is not interleaved with the walk.
- Enqueue: entry names carry a random token and are taken to be new.
- UpsertPath: the search tables, titles and other columns of a row are not modelled.
- Aliases of a key: the key pattern also accepts a trailing newline, and `segments.00.text` for segment 0, which replay keeps apart.
- The clockless relabel endpoint, and clocks that arrive with an import.
- Two pulls at once: the cursor is read at the start of a pull, so a slower one could overwrite a newer cursor.
- HTTP, TLS, request signing, pairing, JSON and TOML text, SQL text, full-text ranking and cosine scores.
- The loudness threshold that makes a frame silent, which enters as an arbitrary pattern of silent frames.
- Transcription, diarization, embedding models and prompts, which enter as arbitrary functions.
- Symbolic links, path resolution, and LIKE wildcards beyond the prefix rule.
- `WavMemorySink` capacity arithmetic beyond 32 bits (the sum of length and block size does not wrap).
- A power loss in the middle of a single rename or of the header patch; a patch that fails is modelled.
- The job registry, debounce queue, battery gauge, buttons, screens, stores and repetition collapse: small members of their own.
- Rebuilding the database after a schema change, which starts the chunk ids anew.
- The row in `library_dirs`, the phonetic table, and the origin label other than local or hub.
