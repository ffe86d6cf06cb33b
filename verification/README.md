# Verified model of fs0

fs0 is a small distributed filesystem: clients cut files into bundles of up to 128 MiB and
chunks of up to 1 MiB, storage nodes keep the chunks in append-only volumes, and a central
node keeps the namespace, the bundle lists of files and the places of bundle replicas. This
project models its stateful core and proves what that core keeps true. `dafny verify
dfyconfig.toml` checks all of it.

The parts, bottom up:

- `Core.dfy`, `Paths.dfy`: results, errors, and the path splitters of fs0-core.
- `SchedulerModel.dfy`, `RequestScheduler.dfy`: the single-flight scheduler, as a machine of
  interleaved steps and as the objects whose lock regions are those steps.
- `CompletionLatch.dfy`: the completion latch of uploads and downloads, composed with the
  scheduler.
- `VolumeModel.dfy`, `VolumeBytes.dfy`, `VolumeStore.dfy`: the extent allocator, chunk index and
  bundles of a volume, as a machine with concurrent puts, partial writes, readers and crashes,
  and as objects; and what hashes and lengths say about the bytes on disk.
- `Replicas.dfy`, `Outbox.dfy`, `BundleReporter.dfy`: central's replica table, the volume's
  outbox of bundle changes, and the loop that drains it over calls that may be lost.
- `DirTree.dfy`, `DirCache.dfy`: the table of directories with its plain walks, and the
  two-way LRU cache.
- `CentralTables.dfy`, `CentralModel.dfy`, `CentralRuns.dfy`, `CentralNames.dfy`,
  `CentralEffects.dfy`: central's tables, what every request does to them when directories are
  walked plainly, the invariants, the main results over all runs with an arbitrary clock,
  exactly when requests succeed in terms of the paths in use, and all that each of them
  writes or answers.
- `CentralTransaction.dfy`, `CentralServer.dfy`, `ReadPlan.dfy`, `ChangeLog.dfy`: transactions and
  handlers with the cache in front, proved to do what the plain requests do; read plans; and
  the paged change log.
- `BundleSizes.dfy`: what reports of replicas do to the sizes of files.
- `Transfer.dfy`, `RoundTrip.dfy`, `CheckedTransfer.dfy`: splitting a file for upload, placing
  chunks on download, the round trip from file to file over a store of chunks, and what the
  client's checks guarantee when storages answer anything or the file changes.
- `SharedDownload.dfy`, `EndToEnd.dfy`: a download on the scheduler it shares with other
  calls, and the round trip through volumes, central and that scheduler.

How the code is represented: hashes are numbers and hash functions are parameters, assumed
free of collisions only in the round trip and only on the byte strings and id lists in play;
there decompression is also assumed to undo compression. SQL tables are maps with the
schema's constraints; a transaction is a copy that is kept or dropped. Times are parameters,
so results hold for any clock, also one that runs backwards; whether a transaction's commit
succeeds is one too. A remote call is a step that succeeds, fails, loses its reply, or is
given up and takes effect later. Table rows of a
file's bundles are kept as one list in primary key order. The `i`-th row of the change log
has id `i + 1`.

What the code does not guarantee, each with an input or a run that shows it and the exact
condition under which it does hold:

- A transfer reports a failed chunk only if it had to wait for it: when all callbacks ran
  before scheduling ended, the result goes to a channel nobody reads
  (`ErrorLostWithoutWaiting`, `LatchSignals`).
- A bundle change can be lost in two ways. A delete between the reading and the removing of
  a batch is folded into the batch and removed with it; and a report that central applies
  after its call timed out may bring back a replica deleted since. A removal is safe exactly
  when every event of the batch still says what its bundle is, a late report exactly when it
  says nothing new about settled bundles; where bundles are only committed, which is all the
  servers do, both always are (`DeleteInTheWindowIsLost`, `LateReportRevivesDeleted`,
  `RemovalSafeIff`, `LateSafeIff`, `CommitsAreSafe`).
- Dropping a transaction does not undo cache entries, so creating a directory, asking for its
  path and dropping the transaction leaves a stale entry, exactly when the directory was
  new (`StaleEntryOnFreshServer`, `CreateAskAndDrop`). The handlers do that only when a commit
  fails: each of them keeps `Valid` of `CentralServer` whether its own checks pass or not, but
  a copy or a rename looks up the answer's path before it commits, and a commit that fails
  then leaves a stale entry exactly when the directory of that path was new
  (`StaleAfterFailedCopy`, `CopyFileById`, `RenameFileById`).
- The upload makes one chunk of every read, while the download assumes whole MiBs: a download
  accepts an upload exactly when all of its reads were full (`ShortReadsBreak`,
  `DownloadAcceptsIff`).
- Replicas of a bundle may be reported with different lengths, and all are stored, so a
  report can change the lengths central uses for a bundle and leave the sizes of files behind
  (`ConflictingReportDrifts`). A report keeps the sums of all lists of known bundles exactly
  when it keeps the lengths of every known bundle, which the table and the events decide
  (`ReportKeepsSumsIff`, `BatchKeepsLensIff`); and as long as it keeps those of the bundles
  in use, no size drifts (`CurrentKept`, `SizesStayCurrent`). Raw lengths that come from
  volumes with well-hashed chunks always agree (`SameBundle`).

## Model

| member | source | states |
|---|---|---|
| `Paths.SplittersAgree` | crates/fs0-core/src/utils.rs:24-78 | Apart from "/", the dir/name splitter accepts a string exactly when the component splitter does. |
| `Paths.DirNameRoundTrip` | crates/fs0-core/src/utils.rs:24-78 | Whatever the dir/name splitter accepts joins back to the same path, and the components of the directory followed by the name are the components of the path. |
| `Paths.NameDirRoundTrip` | crates/fs0-core/src/utils.rs:24-60 | Joining an accepted directory with a valid name and splitting again gives the same two parts. |
| `Paths.ComponentsOfPath` | crates/fs0-core/src/utils.rs:62-78 | Splitting the path built from valid names gives those names. |
| `Paths.PathOfComponents` | crates/fs0-core/src/utils.rs:62-78 | The components of an accepted path are valid names and rebuild the path. |
| `Paths.PiecesAcceptedIff` | crates/fs0-core/src/utils.rs:62-78 | A list of slash-free pieces, joined to a path, is accepted and comes back if and only if no piece is empty, "." or "..". |
| `Paths.DotsRefused` | crates/fs0-core/src/utils.rs:24-52 | A string that has "." or ".." between slashes, or after the last one, is refused by both splitters. |
| `SchedulerModel.InvKept` | crates/fs0-client/src/storage_session/request_scheduler.rs:32-134 | Every interleaved step (lookup or insert, add callback, take permit, handler returns, complete, run callback, remove, release) keeps the protocol invariant. |
| `SchedulerModel.SingleFlight` | crates/fs0-client/src/storage_session/request_scheduler.rs:32-134 | In every reachable state each callback is in exactly one place and ran at most once, with the result of the slot it joined; a slot with a result parks nothing; no two live slots share a hash; at most `concurrency` handlers run, or one if that is 0. |
| `SchedulerModel.FullConcurrency` | crates/fs0-client/src/storage_session/request_scheduler.rs:21-30 | With enough different requests there is a run that reaches a state in which exactly that many handlers run at once. |
| `SchedulerModel.RemovesOwnSlot` | crates/fs0-client/src/storage_session/request_scheduler.rs:71-76 | An owner that removes the entry of its hash always removes its own slot. |
| `SchedulerModel.StepLeft` | crates/fs0-client/src/storage_session/request_scheduler.rs:32-134 | A measure falls with every step, so no run is infinite. |
| `SchedulerModel.NoDeadlock` | crates/fs0-client/src/storage_session/request_scheduler.rs:53-76 | While a call or a task is unfinished some step is possible. |
| `SchedulerModel.WhenDone` | crates/fs0-client/src/storage_session/request_scheduler.rs:69-78 | When all is finished `in_flight` is empty, all permits are back and every callback ran once. |
| `SchedulerModel.EveryCallbackRunsOnce` | crates/fs0-client/src/storage_session/request_scheduler.rs:32-134 | For any requests and any interleaving: the run is bounded, and where it stops every callback ran exactly once with the result of its slot, `in_flight` is empty and all permits are back. |
| `RequestScheduler.RequestSlot.AddCallback` | crates/fs0-client/src/storage_session/request_scheduler.rs:115-134 | A finished slot hands out its result and parks nothing; an unfinished one appends the callback. |
| `RequestScheduler.RequestSlot.Complete` | crates/fs0-client/src/storage_session/request_scheduler.rs:101-113 | Publishes the result and takes all parked callbacks at once. |
| `RequestScheduler.HashRequestScheduler.constructor` | crates/fs0-client/src/storage_session/request_scheduler.rs:21-30 | Starts in the initial protocol state, with as many permits as the concurrency says, or one if it is 0. |
| `RequestScheduler.HashRequestScheduler.LookupOrInsert` | crates/fs0-client/src/storage_session/request_scheduler.rs:41-50 | The first lock region is the lookup step of the protocol: join the slot of the hash, or insert a fresh one and own it. |
| `RequestScheduler.HashRequestScheduler.AddCallback` | crates/fs0-client/src/storage_session/request_scheduler.rs:51 | Adding the callback to the joined slot is the add step of the protocol. |
| `RequestScheduler.HashRequestScheduler.AcquirePermit` | crates/fs0-client/src/storage_session/request_scheduler.rs:53-57 | Taking a permit is the permit step of the protocol. |
| `RequestScheduler.HashRequestScheduler.FinishTask` | crates/fs0-client/src/storage_session/request_scheduler.rs:71-76 | What a spawned task does after its handler, uninterrupted: complete, run every taken callback, remove, release. |
| `RequestScheduler.ReachableReady` | crates/fs0-client/src/storage_session/request_scheduler.rs:32-78 | Every state reached by the protocol meets what the lock regions ask for. |
| `CompletionLatch.TransferState.Count` | crates/fs0-client/src/client.rs:295-302 | Counting a chunk before it is enqueued changes the two counters and nothing else. |
| `CompletionLatch.TransferState.ChunkDone` | crates/fs0-client/src/client.rs:313-392 | The locked part of a chunk callback: keep the first error, count down, and send the result when scheduling is over and nothing is left. |
| `CompletionLatch.TransferState.SchedulingDone` | crates/fs0-client/src/client.rs:398-417 | The locked part after the scheduling loop: send and do not wait if nothing is left, otherwise wait. |
| `CompletionLatch.TransferInvKept` | crates/fs0-client/src/client.rs:295-417 | Every step of a transfer running on the scheduler keeps the count exact and the signal unsent until its time. |
| `CompletionLatch.SchedStep` | crates/fs0-client/src/client.rs:380-381 | When a callback of the transfer runs, the count is positive: the saturating subtraction never saturates. |
| `CompletionLatch.LatchSignals` | crates/fs0-client/src/client.rs:295-417 | Remaining chunks are exactly those counted whose callback has not run; `done_tx` fires at most once, exactly when scheduling is over and all callbacks ran, with the first error; the transfer returns an error if and only if some callback failed and it had to wait. |
| `CompletionLatch.LatchFires` | crates/fs0-client/src/client.rs:295-417 | Every transfer is bounded, and when nothing more can happen its signal has fired. |
| `CompletionLatch.ErrorLostWithoutWaiting` | crates/fs0-client/src/client.rs:398-417 | A run whose only chunk fails before scheduling ends: the error is sent to nobody and the transfer goes on as if it had succeeded. |
| `VolumeModel.Placement` | crates/fs0-volume/src/volume.rs:210-216 | The chosen offset is at or after the active one, keeps the extent inside one data file, and skips less than the reservation. |
| `VolumeModel.ReservationFits` | crates/fs0-volume/src/volume.rs:210-237 | A reservation never overflows 64 bits, ends at or below max_bytes, stays in one data file, and that file is one of ceil(max_bytes / 4 GiB). |
| `VolumeModel.InvKept` | crates/fs0-volume/src/volume.rs:148-296 | Every step (reserve, write a byte, sync, index, load, read a byte, delete, commit, delete bundle, crash) keeps the invariant of space, rows and bundles. |
| `VolumeModel.ExtentsApart` | crates/fs0-volume/src/volume.rs:175-276 | In every reachable state the extents of puts under way and of indexed rows are pairwise disjoint, each inside one existing data file and below the persisted active offset. |
| `VolumeModel.ReadsReturnTheWinner` | crates/fs0-volume/src/volume.rs:278-286 | A row loaded at any moment leads, at any later moment and across deletes and crashes, to exactly the bytes of the put that indexed it. |
| `VolumeModel.ReadersSeeTheWinner` | crates/fs0-volume/src/volume.rs:278-286 | A reader that goes byte by byte while everything else goes on only ever sees the bytes of the winning put. |
| `VolumeModel.ActiveOffsetAccounts` | crates/fs0-volume/src/volume.rs:210-237 | Active offset = reserved bytes + gaps; each gap is the rest of a data file and shorter than the reservation that skipped it. |
| `VolumeModel.BundleStable` | crates/fs0-volume/src/volume.rs:302-383 | Until it is deleted a stored bundle keeps its list and both lengths, whatever step is taken, a repeated commit included. |
| `VolumeModel.StoredBundles` | crates/fs0-volume/src/volume.rs:302-383 | Every stored bundle is a non-empty contiguous list of still-indexed chunks whose hash is its id, with positive lengths. |
| `VolumeBytes.StoredLengths` | crates/fs0-volume/src/db.rs:180-202 | In every reachable store the chunks of a stored bundle have their bytes on disk, and loading the bundle gives as compressed length the number of those bytes, in list order and with repetitions, and as raw length the sum of the raw lengths they were put with; it fails only when one of them leaves the signed range. |
| `VolumeBytes.SumsCount` | crates/fs0-volume/src/db.rs:321-372 | The summed lengths of any chunk list are the counts of the bytes and raw bytes behind it. |
| `VolumeStore.VolumeDb.InsertChunk` | crates/fs0-volume/src/db.rs:204-220 | The first row inserted for a chunk id stays; a row that does not fit the signed columns is refused. |
| `VolumeStore.VolumeDb.ReserveActiveVolumeOffset` | crates/fs0-volume/src/db.rs:222-241 | The active offset never moves back, and one beyond the signed range is refused. |
| `VolumeStore.VolumeDb.DeleteChunk` | crates/fs0-volume/src/db.rs:243-250 | Deleting a chunk row fails exactly while a bundle refers to it. |
| `VolumeStore.VolumeDb.LoadChunksByIds` | crates/fs0-volume/src/db.rs:141-178 | Exactly the rows of the given ids that exist. |
| `VolumeStore.VolumeDb.CommitBundle` | crates/fs0-volume/src/db.rs:252-283 | Rewrites the rows and makes the bundle's record Stored, in place with its event id or with the next id at the end; a row of a missing chunk changes nothing. |
| `VolumeStore.VolumeDb.DeleteBundle` | crates/fs0-volume/src/db.rs:285-296 | Drops the rows; the bundle's record becomes Deleted in place with its event id, or one with the next id is added at the end. |
| `VolumeStore.VolumeDb.GetBundleChangeRecords` | crates/fs0-volume/src/db.rs:321-372 | The first `limit` records as events: id, kind, bundle and volume of the record, and lengths that count the bytes behind the bundle, or zeros when it is gone; fails exactly when such a sum leaves the signed 64-bit range. |
| `VolumeStore.VolumeDb.RemoveBundleChangeRecords` | crates/fs0-volume/src/db.rs:374-381 | A record is left exactly when it was there and its event id is beyond the given one, and the order of the records stays. |
| `Outbox.RemoveUpToKeeps` | crates/fs0-volume/src/db.rs:374-381 | What is left of any list of records are exactly those beyond the id, in rising order if it was. |
| `VolumeStore.Volume.StartPut` | crates/fs0-volume/src/volume.rs:148-246 | Each answer in numbers: a stored chunk id gets its row if and only if raw length, compressed length and compressed hash are all equal, and HashMismatch with the stored offset otherwise; a new id gets a row with just the submitted id, hash and lengths, at the active offset or at the next multiple of 4 GiB, or the error of the first limit it exceeds. |
| `VolumeBytes.ExistingHasTheBytes` | crates/fs0-volume/src/volume.rs:175-197 | In every reachable store whose puts carry the hash of their bytes: a put of a stored chunk is answered with the row if and only if the raw lengths are equal and the data files hold exactly the submitted bytes there; otherwise it is refused with the stored offset. |
| `VolumeStore.Volume.WriteCompressedBytes` | crates/fs0-volume/src/volume.rs:412-419 | After partial writes an Ok means the whole extent holds the bytes and was synced; Ok or not, nothing outside it changed; a write fails only for a bad file index, because the file cannot be opened or preallocated, or because the call or the sync fails. |
| `VolumeStore.Volume.OpenDataFile` | crates/fs0-volume/src/data_file_cache.rs:162-216 | A data file opened for writing exists with its full size; a failing open changes nothing, a failing preallocation may leave it at any smaller length, never at less than it had. |
| `VolumeStore.Volume.IndexChunk` | crates/fs0-volume/src/volume.rs:263-275 | A put returns the row of the first put that indexed its chunk id, or fails exactly when its own row does not fit the signed columns. |
| `VolumeStore.Volume.ReadCompressedBytes` | crates/fs0-volume/src/volume.rs:421-435 | Succeeds exactly within the length of an existing data file, if the call does; returns what was written, and zeros of the preallocation elsewhere. |
| `VolumeStore.Volume.CommitBundle` | crates/fs0-volume/src/volume.rs:302-383 | InvalidData if and only if the list is empty, not numbered from 0, or does not hash to the id; returns a bundle already stored and changes nothing, names a missing chunk, or stores the list with its change record. The answered lengths count the bytes behind the bundle. |
| `VolumeStore.Volume.HasBundle` | crates/fs0-storage/src/request_handlers/data.rs:92-131 | The loop of checked sums counts the bytes and the raw bytes behind the bundle; it fails exactly when a sum leaves 64 bits. |
| `Replicas.BatchEffect` | crates/fs0-central/src/request_handlers/storage.rs:36-68 | After a batch each row is as the last event for it says, or as before. |
| `Replicas.BatchAccepted` | crates/fs0-central/src/request_handlers/storage.rs:36-68 | A batch is refused exactly when a Stored event has a zero length. |
| `Replicas.ReportBundleReplica` | crates/fs0-central/src/request_handlers/storage.rs:36-68 | The two loops apply the whole batch or nothing: Ok if and only if every event is for a volume online at the reporting storage and no stored replica has an empty length, and InvalidRequest otherwise. |
| `Replicas.QueryBatch` | crates/fs0-central/src/db/bundle_replica.rs:111-136 | One query: the rows of the ids of a batch, each once, ordered by bundle and volume. |
| `Replicas.GetBundleReplicasById` | crates/fs0-central/src/db/bundle_replica.rs:103-133 | Over all batches of 500 ids: exactly the replicas asked for; the first row of each bundle is its lowest volume; with distinct ids each bundle is in volume order. |
| `Replicas.ReadyBundles` | crates/fs0-central/src/request_handlers/update.rs:160-173 | The or-insert loop keeps for every known bundle the lengths of its replica on the lowest volume. |
| `Outbox.KeptIffSafe` | crates/fs0-volume/src/db.rs:252-296 | Every step of every interleaving of commits, deletes, reads, reports, late deliveries, removals and failures keeps the invariant if and only if it is safe; only a removal and a late delivery can be unsafe. |
| `Outbox.ChangeKept` | crates/fs0-volume/src/db.rs:383-402 | Every commit and delete keeps the invariant, also one that rewrites a record of the batch under way. |
| `Outbox.PendingOrAgreed` | crates/fs0-storage/src/server/bundle_reporter.rs:50-60 | Over runs constrained only where a batch is removed or applied late: each bundle is pending with the right kind, or central shows exactly what the volume has. |
| `Outbox.LossIffUnsafe` | crates/fs0-storage/src/server/bundle_reporter.rs:50-60 | In every reachable state the next step loses a change if and only if it is unsafe. |
| `Outbox.LateSafeIff` | crates/fs0-transport/src/connection.rs:40-72 | A batch applied after its call timed out keeps the invariant if and only if it says nothing new about bundles that are not pending or about to be removed. |
| `Outbox.LateReportRevivesDeleted` | crates/fs0-transport/src/connection.rs:40-72 | A concrete run: a report that timed out is applied after the bundle was deleted, and central lists the replica again. |
| `Outbox.RemovesTheBatch` | crates/fs0-volume/src/db.rs:374-381 | Removing by the largest event id drops exactly the records of the batch. |
| `Outbox.CommitsAreSafe` | crates/fs0-volume/src/db.rs:392-399 | While nothing is deleted every step is safe, late deliveries included. |
| `Outbox.CommitRunsAreCovered` | crates/fs0-storage/src/request_handlers/data.rs:133-161 | Runs in which bundles are only committed need no further condition, and stored bundles keep their lengths. |
| `Outbox.HandlerOkMeansReplicated` | crates/fs0-storage/src/request_handlers/data.rs:133-161 | Once a commit, new or repeated, is followed by a sync that finds the outbox empty, central holds the replica with the stored lengths, whatever commits, failures and late deliveries came between. |
| `Outbox.RemovalSafeIff` | crates/fs0-storage/src/server/bundle_reporter.rs:56-59 | Removing an acknowledged batch loses nothing if and only if each of its events still says what its bundle is; this holds in every state that meets the invariant. |
| `Outbox.DeleteInTheWindowIsLost` | crates/fs0-volume/src/db.rs:392-399 | A concrete run: a delete between the read and the remove of a sync is folded into the read record and lost. |
| `BundleReporter.CentralReplicas.Report` | crates/fs0-central/src/request_handlers/storage.rs:36-68 | A report is a success exactly when it was delivered, allowed and applied as a whole; a failed one was applied as a whole, not at all, or is still on its way. |
| `BundleReporter.CentralReplicas.Arrive` | crates/fs0-transport/src/connection.rs:40-72 | A batch whose call was given up is applied as a whole when it arrives, or refused. |
| `BundleReporter.SyncVolume` | crates/fs0-storage/src/server/bundle_reporter.rs:50-60 | The drain loop keeps the outbox invariant whatever the calls do and whichever late batches arrive. It returns Ok if and only if each batch of the outbox is acknowledged, the volume is online at the reporting storage, no pending sum overflows and the last call succeeds; `n` pending changes take (n + 127) / 128 calls; up to that last call the outbox is then empty and central agrees on every bundle. |
| `BundleReporter.CommitBundleHandler` | crates/fs0-storage/src/request_handlers/data.rs:148-160 | The commit handler returns Ok if and only if the bundle passes its checks, is stored or can be, its sums fit, and what is then pending drains; and then the bundle is stored and central lists its replica with the returned lengths. |
| `DirTree.UpThenDown` | crates/fs0-central/src/db/dir.rs:289-358 | The path found by walking up from a directory leads down to that directory. |
| `DirTree.DownThenUp` | crates/fs0-central/src/db/dir.rs:289-358 | A directory found by walking down names has exactly those names on its way up. |
| `DirTree.SamePathSameDir` | crates/fs0-central/src/db/dir.rs:289-358 | Two directories with one path are the same directory. |
| `DirTree.InsertOk` | crates/fs0-central/src/db/dir.rs:161-171 | A new directory gets an id above its parent's, keeps the tree in order and has the parent's path plus its name. |
| `DirTree.RemoveLeafOk` | crates/fs0-central/src/db/dir.rs:210-215 | Removing a childless directory leaves a tree in which every other path is unchanged. |
| `CentralModel.MakeDirsOk` | crates/fs0-central/src/db/dir.rs:135-179 | Creating directories keeps the tree and the names apart, ends at the wanted path, and either changes nothing or ends in a new directory without children. |
| `DirCache.SortByAccess` | crates/fs0-central/src/db/dir.rs:111 | The candidates sorted by last access; those with one stamp keep their order. |
| `DirCache.DirCacheState.GetId` | crates/fs0-central/src/db/dir.rs:63-72 | Finds the cached id, gives the entry the next stamp, and changes no pair. |
| `DirCache.DirCacheState.GetPath` | crates/fs0-central/src/db/dir.rs:74-85 | Finds the cached path, gives the entry the next stamp, and changes no pair. |
| `DirCache.DirCacheState.Remember` | crates/fs0-central/src/db/dir.rs:87-116 | Keeps the two maps inverse, leaves at most 8192 entries (6144 after trimming), evicts only entries accessed no later than every kept one, and, unless the access counter is used up, never the one just remembered. |
| `DirCache.DirCacheState.Forget` | crates/fs0-central/src/db/dir.rs:118-125 | Removes both halves of a pair and keeps the maps inverse. |
| `CentralTransaction.CentralTx.GetDirIdByPath` | crates/fs0-central/src/db/dir.rs:330-358 | The cached walk down returns what the plain walk returns, and leaves the cache in agreement with the table. |
| `CentralTransaction.CentralTx.GetDirPathById` | crates/fs0-central/src/db/dir.rs:289-328 | The cached walk up returns the plain path, or NotFound, leaves the cache in agreement with the table, and, unless the access counter is used up, afterwards the pair is cached. |
| `CentralTransaction.CentralTx.CreateDir` | crates/fs0-central/src/db/dir.rs:135-179 | The cached creation does what the plain one does, and afterwards the cache still agrees with the table from before: no directory just inserted is cached. |
| `CentralTransaction.CentralTx.EnsureChildNameAvailable` | crates/fs0-central/src/db/dir.rs:360-405 | Fails exactly when a directory, or a file other than the given one, has the name. |
| `CentralTransaction.CentralTx.RemoveDir` | crates/fs0-central/src/db/dir.rs:182-217 | Removes only an empty directory other than the root, and the cache agrees with the table both before and after. |
| `CentralTransaction.StaleAfterRollback` | crates/fs0-central/src/db/dir.rs:326 | With the path of a directory made in a transaction cached, dropping the transaction leaves the cache right if and only if the directory was there before. |
| `CentralTransaction.PlaceStale` | crates/fs0-central/src/db/file.rs:22-25 | A cache that knows the directory of a newly placed name agrees with the tables from before if and only if that directory was there before. |
| `CentralServer.Central.CreateAskAndDrop` | crates/fs0-central/src/db/dir.rs:135-179 | Creating a directory, asking for its path and dropping the transaction caches the path; the cache then agrees with the committed table if and only if the directory was there before. |
| `CentralServer.StaleEntryOnFreshServer` | crates/fs0-central/src/db/dir.rs:326 | On a fresh server that leaves "/a" cached, though no such directory exists. |
| `CentralServer.StaleAfterFailedCopy` | crates/fs0-central/src/request_handlers/client.rs:146-166 | A concrete run: a copy into a new directory whose commit fails leaves the path of that directory in the cache. |
| `CentralTransaction.CentralTx.GetFileByPath` | crates/fs0-central/src/db/file.rs:41-55 | The cached lookup of a file by path is the plain one. |
| `CentralTransaction.CentralTx.CreateFile` | crates/fs0-central/src/db/file.rs:22-39 | Makes the directories, checks the name and inserts an empty file, or fails as the plain creation does. |
| `CentralTransaction.CentralTx.CopyFileById` | crates/fs0-central/src/db/file.rs:83-108 | Inserts a row with the source's sizes at the target path. |
| `CentralTransaction.CentralTx.RenameFileById` | crates/fs0-central/src/db/file.rs:110-134 | Moves the row to the target path; the file itself may already have the name. |
| `CentralTransaction.CentralTx.UpsertFileBundles` | crates/fs0-central/src/db/file_bundle.rs:24-44 | The loop replaces the file's list by the submitted bundles, numbered in order. |
| `CentralTransaction.CentralTx.CalculateSizeByFileId` | crates/fs0-central/src/db/file_bundle.rs:87-123 | The loop computes both sums by each bundle's lowest replica, with the errors of the first offending row. |
| `CentralTransaction.CentralTx.SumSubmitted` | crates/fs0-central/src/request_handlers/update.rs:160-193 | The first loop of a commit: the sum of the submitted lengths, or the error of the first bundle that is unknown, of another length, or overflows. |
| `CentralServer.Central.BeginUpdate` | crates/fs0-central/src/request_handlers/update.rs:45-82 | The handler does what the request does by plain walking, as one transaction, and leaves the cache right. |
| `CentralServer.Central.LeaseNotGranted` | crates/fs0-central/src/request_handlers/update.rs:86-92 | Only the lease is dropped, or nothing if the commit fails. |
| `CentralServer.Central.FindCommitLease` | crates/fs0-central/src/request_handlers/update.rs:101-126 | The first transaction of a commit gives the volume of the lease if it is there, for the file and not expired at the clock reading, and otherwise VersionConflict; it changes nothing. Other requests may then run before the second. |
| `CentralServer.Central.CommitUpdate` | crates/fs0-central/src/request_handlers/update.rs:127-218 | The second transaction does what the plain commit does on the tables of its own moment, the cache stays right, and the answer is the file's id, path and times with the new size. |
| `CentralServer.Central.AbortUpdate` | crates/fs0-central/src/request_handlers/update.rs:228-246 | Succeeds if and only if the lease is there, for the file and not expired (and the commit works); then exactly that lease is gone. Otherwise nothing changes. |
| `CentralEffects.AbortRemoves` | crates/fs0-central/src/request_handlers/update.rs:228-246 | An abort succeeds exactly on an unexpired lease of the file; it removes that lease, keeps every other with its value, and changes no other table. |
| `CentralEffects.BeginAfterAbort` | crates/fs0-central/src/request_handlers/update.rs:228-246 | After an abort a begin on the file succeeds at any clock, if and only if the offset is within the file, and a second abort finds nothing. |
| `CentralEffects.NotActive` | crates/fs0-central/src/request_handlers/update.rs:107-139 | A lease that is missing, for another file, or expired at the clock reading makes a commit a version conflict and an abort NotFound. |
| `CentralServer.Central.DeleteFileById` | crates/fs0-central/src/request_handlers/client.rs:123-135 | Deletes the bundles, the file and, by cascade, its lease, and logs it; or changes nothing. |
| `CentralServer.Central.CopyFileById` | crates/fs0-central/src/request_handlers/client.rs:146-166 | The answered record is the new file with exactly the requested path; a failing request changes nothing and leaves the cache right. If only the commit fails, nothing changes in the tables and, with accesses to spare, the cache stays right if and only if the directory of the path was there before. |
| `CentralServer.Central.RenameFileById` | crates/fs0-central/src/request_handlers/client.rs:177-196 | The answered record is the file with exactly the requested path; a failing request changes nothing and leaves the cache right. If only the commit fails, nothing changes in the tables and, with accesses to spare, the cache stays right if and only if the directory of the path was there before. |
| `CentralServer.Central.ReportBundleReplica` | crates/fs0-central/src/request_handlers/storage.rs:36-68 | The replica table becomes the batch's result, or nothing changes. |
| `CentralServer.Central.GetFileReadPlanById` | crates/fs0-central/src/request_handlers/client.rs:34-94 | A plan lists the file's bundles in order, each with exactly its online replicas in volume order and the lengths of the lowest one; refused only for a bad id, a missing file, or a bundle without an online replica. |
| `ReadPlan.TargetsFor` | crates/fs0-central/src/request_handlers/client.rs:45-75 | A bundle has a target exactly when some replica is online, and the target is right. |
| `CentralServer.PlanAddsUp` | crates/fs0-central/src/request_handlers/client.rs:76-94 | With one pair of lengths per bundle the raw lengths of a plan add up to the file's size, and its indexes are 0 to n-1. |
| `CentralModel.RequestKept` | crates/fs0-central/src/request_handlers/update.rs:11-246 | Every request, successful or not, keeps all table invariants: tree, valid unique names, no file and directory of one name, numbered bundle lists, leases, and the log. |
| `CentralRuns.LookupIff` | crates/fs0-central/src/db/file.rs:41-55 | Looking a path up finds a file if and only if it is that file's path. |
| `CentralRuns.PathsApart` | crates/fs0-central/src/db/dir.rs:360-405 | No two files share a path, and no file has a directory's path. |
| `CentralRuns.OthersUntouched` | crates/fs0-central/src/request_handlers/client.rs:123-196 | No request changes the row, the bundle list or the path of a file other than the one it is about. |
| `CentralRuns.BeginLeases` | crates/fs0-central/src/request_handlers/update.rs:45-82 | A successful begin leases the file at the path, for the given volume, from its present size and until 60 000 ms after the clock reading, as the only lease of that file; the file existed or is new and empty. |
| `CentralEffects.BeginWrites` | crates/fs0-central/src/request_handlers/update.rs:45-82 | All that a begin writes: expired leases go, the others stay, one is added with its five fields; a path without a file gets an empty one with the present times; nothing else changes. |
| `CentralEffects.BeginRefused` | crates/fs0-central/src/request_handlers/update.rs:45-82 | Why a begin fails, case by case: offset beyond the file, another lease, a bad path, a new file not begun at 0, or the first prefix of the path that is a file. |
| `CentralNames.MakeDirsIff` | crates/fs0-central/src/db/dir.rs:135-179 | The directories of a path can be created if and only if no prefix of the path is a file. |
| `CentralNames.PlaceIff` | crates/fs0-central/src/db/file.rs:22-25 | A place for a new name is granted if and only if the path is valid, no prefix of it is a file, and nothing but the given file has it. |
| `CentralNames.BeginExistingIff` | crates/fs0-central/src/request_handlers/update.rs:48-78 | A begin on an existing file succeeds if and only if the offset is within it and no unexpired lease is on it. |
| `CentralNames.BeginNewIff` | crates/fs0-central/src/request_handlers/update.rs:57-63 | A begin on a path without a file succeeds if and only if it starts at 0 and the path can be placed. |
| `CentralNames.RenameAcceptedIff` | crates/fs0-central/src/db/file.rs:110-134 | A rename succeeds if and only if the file exists and the path can be placed, its own path included. |
| `CentralNames.CopyAcceptedIff` | crates/fs0-central/src/db/file.rs:83-108 | A copy succeeds if and only if the source exists and the path can be placed. |
| `CentralNames.DeleteRemoves` | crates/fs0-central/src/request_handlers/client.rs:123-135 | A delete succeeds if and only if the file exists; then its path is free, its bundle list, its lease and its entry in the folded log are gone, and all other leases stay. |
| `CentralEffects.DeleteWrites` | crates/fs0-central/src/request_handlers/client.rs:123-135 | All that a delete writes, and its two errors. |
| `BundleSizes.AnUpdateGoesThrough` | crates/fs0-central/src/request_handlers/update.rs:11-226 | From the empty tables any file in the root can be begun and, once a bundle is reported, committed with it. |
| `CentralRuns.RenameMoves` | crates/fs0-central/src/request_handlers/client.rs:177-196 | A rename gives the file the wanted path and keeps sizes, creation time and bundle list. |
| `CentralEffects.RenameWrites` | crates/fs0-central/src/request_handlers/client.rs:177-196 | All that a rename writes: place and time of the row, and one log row Moved with the new path. |
| `CentralEffects.RenameRefused` | crates/fs0-central/src/db/file.rs:110-134 | Why a rename fails, in the order of its checks. |
| `CentralRuns.CopyDuplicates` | crates/fs0-central/src/request_handlers/client.rs:146-166 | A copy is a new file at the wanted path with the source's sizes and bundle list. |
| `CentralEffects.CopyWrites` | crates/fs0-central/src/request_handlers/client.rs:146-166 | All that a copy writes: a row with the source's sizes and the time of the copy, the source's list, and one log row Created with the new path. |
| `CentralEffects.CopyRefused` | crates/fs0-central/src/db/file.rs:83-108 | Why a copy fails, in the order of its checks. |
| `CentralEffects.RemoveDirIff` | crates/fs0-central/src/db/dir.rs:182-217 | A directory can be removed if and only if it exists, is not the root, and neither a directory nor a file lies in it; then its path is gone and all others stay. Each refusal has its error. |
| `CentralRuns.LeaseHeld` | crates/fs0-central/src/db/lease.rs:37-54 | While a lease lives no request changes its file's size or bundle list, and an id that is gone never comes back. |
| `CentralRuns.NoLostUpdate` | crates/fs0-central/src/request_handlers/update.rs:130-199 | Whatever requests run between a begin and the commit of its lease, the commit replaces exactly the size and the bundle list the begin saw. |
| `CentralRuns.CommittedInTime` | crates/fs0-central/src/request_handlers/update.rs:127-139 | Whatever runs in between, a lease begun at clock b can be committed at clock c only if c < b + 60 000. |
| `CentralRuns.SizeConflictUnreachable` | crates/fs0-central/src/request_handlers/update.rs:153-158 | Once the lease's base size matches the request, the file exists with that size. |
| `CentralRuns.CalculateIsSums` | crates/fs0-central/src/db/file_bundle.rs:87-123 | The size calculation succeeds exactly when every bundle has a replica and both sums fit 64 bits, and gives the sums. |
| `CentralRuns.SecondCheckRedundant` | crates/fs0-central/src/request_handlers/update.rs:190-198 | After the submitted lengths were accepted the recomputed raw size is the same number; only the compressed sum can still fail. |
| `CentralRuns.CommitAcceptedIff` | crates/fs0-central/src/request_handlers/update.rs:101-226 | A commit is accepted if and only if its lease is there, for the file, not expired at the clock reading and of the base size, the new size reaches the offset, every bundle is known with the submitted length, the lengths add up, and both sizes fit. |
| `CentralEffects.CommitWritesThis` | crates/fs0-central/src/request_handlers/update.rs:176-218 | All that a commit writes: the row's two sizes and its time, the list numbered from 0, one lease less, and one log row, Created if the file was empty and Updated otherwise; nothing else changes. |
| `CentralEffects.CommitRefused` | crates/fs0-central/src/request_handlers/update.rs:101-199 | Why a commit fails: the first check that does, down to the first bundle that is unknown, of another length, or too much. |
| `CentralRuns.SizesOverRuns` | crates/fs0-central/src/db/file_bundle.rs:87-123 | Over every run in which reports agree on each bundle's lengths, every file's sizes are the sums over its bundles. |
| `BundleSizes.StoredKeepsLensIff` | crates/fs0-central/src/db/bundle_replica.rs:20-89 | A stored replica leaves a known bundle's lengths alone if and only if it is above the lowest volume or agrees with it. |
| `BundleSizes.DeletedKeepsLensIff` | crates/fs0-central/src/db/bundle_replica.rs:91-101 | A deleted replica does so if and only if it is not the lowest one, or the next one has the same lengths. |
| `BundleSizes.BatchKeepsLensIff` | crates/fs0-central/src/request_handlers/storage.rs:36-68 | A whole batch leaves a bundle's lengths alone if and only if the lowest row it will leave, read off the table and the events, has them. |
| `BundleSizes.ReportKeepsSumsIff` | crates/fs0-central/src/request_handlers/storage.rs:36-68 | A report keeps both sums of every list of known bundles if and only if it keeps the lengths of every known bundle. |
| `BundleSizes.CurrentKept` | crates/fs0-central/src/request_handlers/storage.rs:36-68 | Only a report that changes the lengths of a bundle in use can make the size of a file differ from the sum of its bundles. |
| `BundleSizes.SizesStayCurrent` | crates/fs0-central/src/db/file_bundle.rs:87-123 | Over every run whose reports keep the lengths of the bundles then in use, all sizes are the sums central computes now. |
| `BundleSizes.ConflictingReportDrifts` | crates/fs0-central/src/db/bundle_replica.rs:27-69 | A concrete run from the empty tables in which a conflicting report leaves a file of size 3 with a bundle of 5 raw bytes. |
| `CentralRuns.LogTellsNamespace` | crates/fs0-central/src/db/event.rs:11-32 | Over every run, folding the log gives the path of every file; a file without an event is empty and has no bundles. |
| `CentralEffects.KindsOverRuns` | crates/fs0-central/src/db/event.rs:11-32 | Over every run: a log row has no path exactly when it is a delete, after which the file never comes up again; an Updated follows a Created of the same file; every file with contents was Created. |
| `ChangeLog.GetFileChangeLogs` | crates/fs0-central/src/db/event.rs:34-69 | With n the limit raised to 1 and cut to 1024: the next n rows after the id, or all that are left, each with its id, and the cursor `after + n` exactly when more than n were left. |
| `ChangeLog.PagesCoverTheLog` | crates/fs0-central/src/db/event.rs:34-69 | Following the cursors gives the whole log after the start, in order and without repetition. |
| `Transfer.SpansTile` | crates/fs0-client/src/client.rs:470-500 | Whatever the reads return, the chunks of a bundle follow each other without gaps up to 128 MiB or the end of the file. |
| `Transfer.TilesCover` | crates/fs0-client/src/client.rs:470-500 | Every byte of a tiled range lies in exactly one chunk. |
| `Transfer.ReadBundle` | crates/fs0-client/src/client.rs:465-592 | The inner loop yields the bundle's chunk list, its length and one job per chunk at the right source offset. |
| `Transfer.SplitFile` | crates/fs0-client/src/client.rs:465-601 | The outer loop yields one bundle per 134 217 728 bytes of the file, the last one started included, and the whole size. |
| `Transfer.ScheduleBundle` | crates/fs0-client/src/client.rs:268-293 | Schedules each chunk at its recomputed target, or stops with the error of the first chunk that fails a range check. |
| `Transfer.ScheduleDownload` | crates/fs0-client/src/client.rs:245-293 | Succeeds if and only if each chunk's 1 048 576 bytes, at that index of its 134 217 728-byte bundle, have a byte of the bundle and end within the file and within 64 bits; then every chunk is scheduled. Otherwise it stops with the error of the first bundle that is refused. |
| `Transfer.FullSpans` | crates/fs0-client/src/client.rs:470-500 | With full reads the chunks of a bundle are its MiBs. |
| `Transfer.DownloadAcceptsIff` | crates/fs0-client/src/client.rs:268-330 | The download accepts every bundle of an upload if and only if all the upload's reads were full. |
| `Transfer.ShortReadsBreak` | crates/fs0-client/src/client.rs:470-476 | Two bytes read one at a time are refused by the download. |
| `RoundTrip.SamePartition` | crates/fs0-client/src/client.rs:245-293 | With full reads the download's targets are the upload's jobs one by one, and no range check fires. |
| `RoundTrip.UploadsSucceed` | crates/fs0-client/src/storage_session.rs:138-226 | The jobs of a file run in any order on any sound store all succeed, keep it sound and leave every chunk in it. |
| `RoundTrip.WriteAll` | crates/fs0-client/src/client.rs:199-209 | The writer task puts the jobs into the output file one after the other. |
| `RoundTrip.WrittenBytes` | crates/fs0-client/src/client.rs:199-209 | Writes that carry the file's own bytes restore every byte they reach, in any order. |
| `RoundTrip.Downloads` | crates/fs0-client/src/client.rs:245-393 | From a sound store that has the file's chunks, all range checks pass and writing the fetched chunks in any order gives the bytes. |
| `RoundTrip.RoundTrips` | crates/fs0-client/src/client.rs:245-393 | Upload in any order, store, download and write in any order gives back the file, for every size including 0, as long as the byte strings and id lists in play do not collide. |
| `CheckedTransfer.OkMeansRestored` | crates/fs0-client/src/client.rs:245-393 | Whatever the storages answer, in whatever order, and however the upload's reads had been cut: a download of the uploaded lists whose range checks and chunk checks all passed has written the file, byte for byte; and then the upload's reads had been full. |
| `CheckedTransfer.DeliversIff` | crates/fs0-client/src/storage_session.rs:224-250 | A chunk is passed on if and only if what the storage has under the id decompresses to bytes of the job's length, at most a MiB, that hash to the id. |
| `CheckedTransfer.UploadsPassIff` | crates/fs0-client/src/storage_session.rs:138-205 | An upload succeeds if and only if each job can go through, whatever the file has become since it was cut: a stored chunk has the job's length, and of any other chunk the first job reads, now, at most a MiB that hashes to its id. Then the store has a chunk of each job's length. |
| `CheckedTransfer.UploadsChecked` | crates/fs0-client/src/storage_session.rs:138-205 | Whatever the file has become, an upload that succeeds leaves a sound store, with bytes under the id of every job that have its length and hash to it. |
| `SharedDownload.ArrivedAll` | crates/fs0-client/src/client.rs:307-393 | When each call of the download has run its callback once, each item of the download has arrived exactly once, in some order. |
| `SharedDownload.GotChecked` | crates/fs0-client/src/storage_session.rs:118-130 | A callback gets a checked answer to a request for its own chunk, whichever call, of whichever download, made the request. |
| `SharedDownload.AnyOrder` | crates/fs0-client/src/client.rs:199-209 | If each callback ran once and none failed, what the writer got restores the file, whatever the order. |
| `SharedDownload.DownloadIsRight` | crates/fs0-client/src/client.rs:245-420 | In every interleaving with other calls on the scheduler: a download that had to wait and returned Ok has restored the file; if no call fails it returns Ok and has restored the file, waiting or not. |
| `EndToEnd.VolumeIsSound` | crates/fs0-volume/src/volume.rs:148-383 | After every run of a volume whose puts carry well-hashed bytes, crashes and deletes included, what its rows read from disk is a sound chunk store with sound bundle lists. |
| `EndToEnd.SameBundle` | crates/fs0-volume/src/volume.rs:302-383 | Two volumes that store a bundle store the same list for it, of the same raw length, whatever else happened to them. |
| `EndToEnd.VolumeServes` | crates/fs0-storage/src/request_handlers/data.rs:79-90 | A volume that stores a bundle of the file answers the download of each of its chunks. |
| `EndToEnd.LengthsAreBytes` | crates/fs0-storage/src/request_handlers/data.rs:92-131 | On a volume whose puts carry well-hashed bytes the raw length of a stored bundle is the number of bytes its chunks decompress to, and the compressed length the number of bytes on disk behind it. |
| `EndToEnd.RawStays` | crates/fs0-central/src/request_handlers/update.rs:160-193 | Once a commit was accepted, no replica of its bundles that a volume vouches for can have another raw length than the committed one. |
| `EndToEnd.VouchedOverRun` | crates/fs0-central/src/request_handlers/storage.rs:36-68 | Over every run of central whose reported replicas were read from volumes, late, repeated or lost, every replica row has the raw length some well-hashed volume stores for the bundle. |
| `EndToEnd.OutboxRead` | crates/fs0-volume/src/db.rs:321-372 | The events a well-hashed volume reads from its outbox are of that kind. |
| `EndToEnd.PlanIsUpload` | crates/fs0-central/src/request_handlers/client.rs:34-94 | The plan of a committed file, with the stored chunk lists, is the plan of what was uploaded, as long as replicas of its bundles have the committed raw lengths. |
| `EndToEnd.PlanFits` | crates/fs0-client/src/client.rs:245-293 | A later plan of the file has its size, passes all range checks of the download, and fetches exactly what was uploaded. |
| `EndToEnd.FileComesBack` | crates/fs0-client/src/client.rs:445-700 | Volumes, central, scheduler and client together: after any requests to central, a file whose bundles well-hashed volumes store and central commits comes back byte for byte through any later plan, by a download that had to wait and returned Ok, or in which no call failed; all reports central ever got were read from volumes, at any time. |

## Left out

- Transport, framing, relays, reconnects, authentication, registration, event broadcast, command line and configuration: input and output around foreign libraries.
- SQLite, blake3 and zstd themselves, and file handle caching; a data file is a map from positions to bytes and a length, and its file system never shrinks it.
- Choice of a volume by usage ratio or preferred name, and the error when none is eligible: the volume id is a parameter of a begin.
- The storage node's table of upload leases, checked before chunk uploads and bundle commits, and its revocation by central: central deletes leases without telling storages, so nothing is claimed about the two tables together.
- RequestScheduler.HashRequestScheduler.AcquirePermit: does not model the branch for a closed semaphore, because nothing closes it.
- Cancelled futures and panicking callbacks: every enqueue runs to its end.
- Conversion of clock values and of ids handed out by the database to signed 64 bits; conversions of request ids and of sizes are modelled.
- Conversion of reported replica lengths to signed 64 bits: they come from the volumes' own signed columns.
- Directory ids stay below the largest row id, where SQLite starts to choose ids at random.
- Directory listings by page, `has_bundle` at central, and what central does with a volume's offset after a sync: they would add only easy members.
- Failures of single SQL statements for reasons other than the data, such as a full disk: only the commit of a transaction can fail that way.
- The copy, rename, delete and read plan requests by path: each looks the path up in a transaction of its own, as `GetFileByPath` does, and goes on by id.
- The choice of a storage for each bundle of a download, and the sort of its chunk listing, which storages return in index order.
- BundleReporter.SyncVolume: says nothing about which error a failed call gives, because it is handed through unchanged.
- CheckedTransfer.OkMeansRestored: takes the chunk lists of the upload, because the client does not compare the lists it gets with the bundle ids of the plan.
- SharedDownload.DownloadIsRight: runs all calls of a download on one scheduler, while a client has one for each storage node it fetches from; `AnyOrder` does not depend on who ran the callbacks.
- EndToEnd.FileComesBack: does not run the outbox machine beside central; its reports are any batches of events read from volumes (`OutboxRead`), at any time, repeated or lost.
