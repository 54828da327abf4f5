# OmenDB storage, quantization and locking: a verified model

This project models the parts of OmenDB whose correctness does not follow from reading one function:
the durability protocol of its four files, their on-disk formats, the arithmetic of SQ8 quantization and
of the unrolled vector kernels, and the lock order of merges.

## Durability

A database is a write-ahead log with a sidecar holding its truncation epoch, a `.vecs` array of vectors
written in place, a `.records` snapshot tagged with the epoch before truncation, and a `.omen` manifest
tagged with a replay cutoff. `Records.dfy` is the slot store behind the ids; `Recovery.dfy` is what a reopen
makes of the files; `Protocol.dfy` is a state machine whose steps are single durable actions and a reopen
after a crash that keeps any subset of unsynced slot writes; a reopen of files that do not open is an outcome
of its own. `OmenFile.dfy` and `VectorStore.dfy` are classes
whose methods change fields as the code does and carry a ghost trace, so that each method is shown to be a
run of protocol steps. `Safety.dfy` proves the invariant and durability over all runs; `Atomicity.dfy` says
exactly when each window of a checkpoint is crash-atomic and what is left of any sequence of appends;
`Restoration.dfy` what a completed checkpoint keeps and mends. `LoaderLimits.dfy` and `ManifestLimits.dfy` tie
the limits of the `.records` loader and of the container to the protocol; `Compaction.dfy` and
`CompactingFlush.dfy` are about renumbering slots; `DirtySince.dfy` is about the dirty slots a snapshot lists;
`Failures.dfy` and `LimitFailures.dfy` hold concrete runs.

A run is guarded when ids do not have the reserved form `__slot_k`, appends are made only when the log is
safe to append to (`SafeToAppend`), entries, snapshots and manifests are within the limits of their readers,
and compaction is used only while nothing uses `.vecs`. Crashes and reopens are free. Where the comments
promise more than the code keeps, the model follows the code, and the exact condition is proved:

- Opening the log reads the epoch from the sidecar only when the log is not empty, and starts timestamps again
  from 0 when it is (`src/omen/wal.rs:396-410`). A session that reopens after a crash between the rename of a
  snapshot and the sidecar write appends under an epoch that recovery will skip. `AppendReplayed` and
  `ReopenInWindow` say exactly when, `SafeOutsideWindow` that there is no other way; `LostRecord` is such a run.
- A vector written ahead of its snapshot becomes a record named `__slot_k` when the base is a `.records`
  snapshot or the epoch filter is off (`src/vector/store/persistence.rs:811-823` and 895-905). `WritesAtomic`
  and `CrashExact` say exactly when; `PhantomRecord` is such a run. A stray that the filter hides is still in
  `.vecs` and shows up after a `.records` snapshot is published: `PublishedAtomic` has the condition and
  `HiddenStray` is such a run. What users stored is not affected: `RunHolds` and `RunDurable`.
- A `.records` snapshot over a limit of its loader (an id over 65,536 bytes, metadata over 16 MiB, more than
  100,000,000 entries, a bitmap over 16 MiB) is written without an error and taken for a missing file when
  read (`src/omen/file.rs:1307-1337`), with the log already emptied. The log takes such an id or metadata too,
  and its parser skips them at the same limits (`src/omen/wal.rs:675-693`). `AutoKeeps` says exactly when an
  auto-checkpoint loses something, `RunWithin` and `GuardedLimits` which of the limits can still be met in a
  guarded run; `LongIdLost` is a session that loses records to one long id.
- A manifest of 4 GiB or more is written with its length cut to 32 bits and does not open
  (`src/omen/file.rs:1827-1834`), with the old one replaced and the log emptied. `ManifestKeeps` says exactly
  when that happens, `OpensExact` and `LargeRefused` tie it to the bytes; `ManyRecordsLost` is such a run.
- An entry of more than 100 MiB is logged without an error, and opening the log fails on it
  (`src/omen/wal.rs:425-449` and 528-540). `UnsafeAppendLost` has that outcome, `AppendsDurable` every sequence
  of good and bad appends; a completed checkpoint mends either (`CheckpointDurable`).
- A flush that compacts rewrites slots in place while the old manifest still maps ids to the old slots
  (`src/vector/store/persistence.rs:550-560`), and does not shorten `.vecs` (`src/omen/file.rs:1629-1646`).
  `CompactingFlushAtomic` says exactly when a crash is harmless and `TailRevived` when the completed flush is;
  `SwappedVector` and `RevivedTail` are such runs. An auto-checkpoint after `compact` can lose vectors, because
  the loader skips the tombstones of the old manifest (`src/omen/file.rs:999-1025`): `AutoVector`.
- Replay can repeat entries after a reopen reset the in-memory epoch. `ReplaysExactly` and `PublishedReplays`
  say exactly when, `RepeatedReplay` is such a run, and `ApplyTwice` shows that the map does not notice.
- The dirty slots listed in a snapshot should be all since the last flush (`src/omen/file.rs:1186-1187`), but
  a reopen starts the list anew. `ReopenCovers` says exactly when that is right; `ForgottenSlot` is such a run.
- `truncate` does not reset the next timestamp within a session, although its comment says so
  (`src/omen/wal.rs:604-605`). The model keeps it.
- With an empty list of dense slots every live slot counts as dense, so records without a vector load with
  zeros. `LoadRoundTrip` has the exact condition.

Assumed: each append is durable when the call returns; an upsert entry carries the whole record; file times
strictly increase between publications; an I/O failure is a crash; the dimension is known and positive and, in
the protocol, every record has a vector of it. The readers' verdicts are parameters of a run. That the emptied
log is durable before the sidecar is not needed: `SidecarFirst`.

## Formats

`Orec*.dfy` are the `.records` printer and parser, with RoaringBitmap, serde_json and UTF-8 as function
parameters whose decoders invert their encoders. `Graph*.dfy` is the neighbour-list section, `Pages.dfy` the
alignment mask on 64-bit words, `Headers.dfy` the fixed-size headers and footer, `Container*.dfy` and
`OmenManifest.dfy` the page-aligned container, and `PackedSnapshot.dfy` the checkpoint that packs vectors
into it; CRC32 and postcard are parameters too. Arithmetic on fixed-width integers wraps as in a release build.

- Neighbour offsets are 32-bit and wrap: `OffsetExact` and `ReadsAliased` say what is read then.
- Neighbours are handed out as a slice of 32-bit words in place, which is aligned only when the number of nodes
  is a multiple of four: `ListAlignment`.
- A live slot without a vector comes back from a packed file as an empty vector: `PackedExact`.
- A `.records` file over a loader limit is taken for a missing one: `LoadWritten`.
- The length of an encoded manifest is cast to 32 bits: `OpenSealed`, and `LargeManifestLost` for the database.

## Quantization and kernels

`Scalar*.dfy` and `Training.dfy` model SQ8 over exact reals, `IntKernels.dfy` its integer kernels with
wrapping 32-bit lanes, and `DistanceKernels.dfy` the portable SIMD kernels over exact reals.

- Training on vectors of dimension 0 panics: `TrainWithPercentiles` has it as an outcome.

## Locks

`Locks.dfy` and `LockProofs.dfy` are the ordered locking of `merge_from`: any number of calls over any number
of databases, each lock with a queue of parked calls, granted fairly or with barging.

## Model

| member | source | states |
|---|---|---|
| Records.DoView | src/vector/store/record_store.rs:259-365 | An upsert or delete on the slot store is exactly the map operation on id -> (vector, metadata), keeps the store's slot index valid, and never forgets a slot it once used or tombstoned. |
| Records.UpsertView | src/vector/store/record_store.rs:259-327 | An upsert, which tombstones the old slot and allocates a new one, binds the id to the new value and changes no other id. |
| Records.DeleteView | src/vector/store/record_store.rs:350-365 | A delete removes exactly that id; its slot stays tombstoned. |
| Records.UpdateMetadataView | src/vector/store/record_store.rs:493-504 | Updating metadata in place keeps the slot and its vector, or its lack of one, and changes only that id's metadata. |
| Recovery.ApplyTwice | src/omen/file.rs:1591-1598 | Replaying a log onto a map that already holds it changes nothing: repeated replay is harmless at the level of ids. |
| Recovery.ApplyAgree | src/vector/store/persistence.rs:977-1105 | Two bases that agree on every id the log does not touch replay to the same map: a base may be ahead on the ids still in the log. |
| Recovery.ReplayView | src/vector/store/persistence.rs:977-1105 | Replaying entries into the slot store is applying them to its map; slots once known stay known and tombstones stay. |
| Recovery.BuildView | src/vector/store/persistence.rs:849-913 | The store built from a snapshot and `.vecs` shows exactly the base's map and, for each slot k with a stray vector that is not filtered, a record named `__slot_k` with that vector and the slot's metadata. |
| Recovery.RecoverView | src/vector/store/persistence.rs:735-936 | Recovery as a whole: the base's map and the records invented for strays, with the replayed entries applied, and nothing else. |
| Protocol.InitInv | src/omen/file.rs:230-276 | A newly created database satisfies the invariant of the protocol. |
| Safety.ReplaysExactly | src/vector/store/persistence.rs:977-1010 | In every state of a guarded run, recovery replays exactly the entries the base it picks does not hold, if and only if the base holds none of the log or was published under the sidecar's epoch. |
| Safety.ReplayedCases | src/vector/store/persistence.rs:977-1010 | In every state of a guarded run recovery replays the entries the base does not hold, or the whole log: an entry may be repeated, none is lost. |
| Safety.PublishedReplays | src/vector/store/persistence.rs:977-1010 | Between a rename and the emptying of the log nothing is replayed again if and only if the log is empty or the publishing session had the sidecar's epoch. |
| Safety.RecoverExact | src/vector/store/persistence.rs:849-936 | What a reopen shows under each id: on user ids and ids of the base, what replaying over the base gives; on the others, the strays turned into records. |
| Safety.CrashExact | src/omen/file.rs:1502-1706 | A crash at any point of a guarded run, keeping any subset of unsynced slot writes, leaves files that open and recovers every id a user stored or the base holds as memory had it; and the whole map if and only if the strays that reopening turns into records are those that already are records in memory. |
| Safety.GhostsStay | src/vector/store/persistence.rs:811-823 | A record that an earlier reopen invented survives a crash, unless recovery now filters unreferenced vectors. |
| Safety.AppendInv | src/omen/wal.rs:470-487 | Appending an entry when the log is safe to append to keeps the invariant. |
| Safety.PublishInv | src/omen/file.rs:1589-1597 | Publishing by rename a snapshot or a manifest that can be read again keeps the invariant: the new base holds the whole log, and the invented records of memory. |
| Safety.EmptyLogInv | src/omen/wal.rs:599-603 | Emptying the log after publication keeps the invariant. |
| Safety.WriteMetaInv | src/omen/wal.rs:604-640 | Writing the sidecar with the next epoch keeps the invariant and makes the log safe to append to. |
| Safety.ReopenInv | src/vector/store/persistence.rs:311-443 | Reopening after any crash, on top of stray vectors too, keeps the invariant and gives back what users stored. |
| Safety.StepInv | src/omen/file.rs:1436-1893 | Every guarded step of the protocol keeps the invariant. |
| Safety.StepView | src/omen/file.rs:1436-1893 | A guarded step changes what users stored by exactly what it logs; only a reopen changes anything else in the map. |
| Safety.StepSynthetics | src/vector/store/persistence.rs:895-905 | A reopen leaves exactly the base's invented records and one for each stray; publishing makes memory's the base's; no other step touches them. |
| Safety.RunHolds | src/omen/file.rs:853-863 | Over every guarded run from an empty database, whatever crashes and stray vectors its reopens meet: every reopen succeeds, the invariant holds, what memory shows under user ids is the history of logged operations, and its `__slot_k` records are exactly the strays resurrected since the last publication and those published. |
| Safety.RunDurable | src/omen/file.rs:1591-1598 | Over every guarded run, with any crash at its end, the files open and recovery gives back the whole history of user operations; beside it are the published invented records and one for each stray, and the map is the history itself if and only if there are none. |
| Atomicity.AppendReplayed | src/vector/store/persistence.rs:977-1027 | An entry appended now is replayed, after those already replayed, if and only if the log's parser accepts it and the sidecar's epoch is past the `.records` tag, or the timestamp past the manifest's maximum in the same epoch. |
| Atomicity.UnsafeAppendLost | src/omen/wal.rs:425-449 | An append to an unsafe log, or of an entry the parser skips, is lost: after a crash the store shows what users had stored without it. Of an entry over the 100 MiB limit of the log's reader: after it no reopen succeeds. |
| Atomicity.AppendsDurable | src/vector/store/persistence.rs:977-1027 | After any sequence of appends, safe or not, a crash gives back what users had stored before it with exactly the entries applied that were appended safely and parse; the files open if and only if every entry is within the limit of the log's reader. |
| Atomicity.ReopenInWindow | src/omen/file.rs:1169-1179 | Reopening between rename and sidecar write leaves the log safe to append to exactly when the sidecar had already moved past the publishing epoch, or under a manifest whose log was not yet emptied or was empty when it was published. |
| Atomicity.SafeOutsideWindow | src/omen/wal.rs:396-410 | That window is the only way to an unsafe log: in every guarded run an idle store is safe to append to, unless the files were opened between a rename and the sidecar write and no checkpoint has been completed since. |
| Atomicity.CarefulRun | src/omen/wal.rs:396-410 | So a run that never opens files left in that window needs no check of the log: it is a guarded run. |
| Atomicity.SidecarFirst | src/omen/wal.rs:599-640 | If the sidecar is durable before the truncation of the log, the old log under the new epoch recovers what users stored, and its reopen keeps the invariant. |
| Atomicity.WritesAtomic | src/omen/file.rs:1502-1590 | In-place writes of an auto or incremental checkpoint, stopped by a crash anywhere among the slots or after the fsync, always recover to the in-memory map if and only if a reopen before them would resurrect just the strays that are records already, and recovery filters unreferenced vectors or no dirty slot lies outside the base. |
| Atomicity.FullWritesAtomic | src/omen/file.rs:1436-1491 | The first full checkpoint, which truncates and rewrites `.vecs`, recovers to the in-memory map wherever it stops before publication. |
| Atomicity.PublishedAtomic | src/omen/file.rs:1712-1893 | After a publication that can be read again, up to the end of truncation and for every kind of checkpoint: a crash keeps what users stored, and recovers the whole in-memory map if and only if recovery drops unreferenced vectors or every non-zero vector in `.vecs` lies on a slot the record store knows. |
| Atomicity.RunAccounted | src/omen/file.rs:1502-1706 | Over every guarded run whose reopens hid no stray vector by the epoch filter, all vectors lie on slots the record store knows. |
| Atomicity.AccountedStep | src/omen/file.rs:1502-1706 | Every guarded step keeps it so: only a reopen that hides a stray vector can break it. |
| Restoration.AutoKeeps | src/omen/file.rs:1591-1598 | Once an auto-checkpoint has emptied the log, a crash or a clean reopen gives back what users stored if and only if the published snapshot is within the loader's limits or the last manifest shows the same: a test before the checkpoint, for every store and whatever its log holds, over-limit entries included. |
| Restoration.UnflushedLost | src/omen/file.rs:1307-1337 | Over the limits, every live id that the last manifest does not have is lost, logged entries that no parser accepts among them. |
| Restoration.ManifestKeeps | src/omen/file.rs:1822-1890 | Once a full or incremental checkpoint has emptied the log, a crash or a clean reopen gives back what users stored if and only if the manifest it publishes can be opened: a test before the checkpoint. |
| Restoration.UnopenedLost | src/omen/file.rs:1822-1890 | Otherwise no reopen succeeds from the moment the manifest is renamed into place. |
| Restoration.ClosedForGood | src/omen/file.rs:320-374 | Files that do not open stay as they are: every later attempt fails as well. |
| Restoration.CheckpointRestores | src/omen/file.rs:1589-1598 | Over any stretch of a session, with appends that are unsafe or over a limit and with compactions: the checkpoint that completes it restores the full invariant and leaves the log safe to append to. |
| Restoration.CheckpointDurable | src/omen/file.rs:1589-1598 | So everything stored in that stretch is durable after it, the entries that a crash before it would have lost included. |
| LoaderLimits.AcceptsExact | src/omen/file.rs:1305-1424 | The verdict on a written `.records` file depends on the snapshot alone, not on the order of its entries: it loads if and only if every part is within its limit. |
| LoaderLimits.LongIdRefused | src/omen/file.rs:1328-1333 | One id of more than 65,536 bytes makes the loader take the file for a missing one. |
| LoaderLimits.LongMetadataRefused | src/omen/file.rs:1364-1369 | So does one metadata value of more than 16 MiB. |
| LoaderLimits.LongIdLoses | src/omen/file.rs:1307-1333 | So an id over the limit in the store, freshly logged or not, makes the next auto-checkpoint lose every id stored since the last manifest, itself included. |
| LoaderLimits.RunWithin | src/omen/wal.rs:675-693 | The log's parser has the same limits on ids and metadata, so over every guarded run, crashes and reopens included, every user's id and all metadata in memory and in the base are within the loader's. |
| LoaderLimits.GuardedLimits | src/omen/file.rs:1307-1406 | What is left to decide in a guarded run whether a `.records` snapshot loads is exactly the number of entries and the size of the two bitmaps. |
| ManifestLimits.OpensExact | src/omen/file.rs:320-374 | The verdict on a manifest, which runs take as given, is that of the container: the sealed file opens with the manifest that was written. |
| ManifestLimits.SmallOpens | src/omen/file.rs:1822-1855 | Below 4 GiB every manifest opens, for every lossless codec. |
| ManifestLimits.LargeRefused | src/omen/file.rs:1827-1834 | From 4 GiB on the length field is cut to 32 bits: unless the checksums collide, opening fails. |
| ManifestLimits.LargeManifestLost | src/omen/file.rs:1822-1890 | So a flush whose manifest reaches 4 GiB loses the database for good, though its write, its rename and the emptying of the log succeed. |
| ManifestLimits.LargeMetadata | src/omen/file.rs:1733-1830 | With a codec that writes metadata as it is, n values of b bytes make such a manifest when n b reaches 4 GiB. |
| DirtySince.StepCovers | src/omen/file.rs:1585-1589 | Within a session every step keeps the accumulated dirty set, with the manifest's slots, covering every live slot. |
| DirtySince.RunCovers | src/omen/file.rs:1184-1187 | In every guarded run without a reopen a published snapshot lists as dirty every live slot that the manifest does not have. |
| DirtySince.ReopenCovers | src/omen/file.rs:474-487 | A reopen starts the accumulated set from nothing; that keeps the promise if and only if it resurrects no stray and every slot of the base that the log does not replace is in the manifest. |
| Compaction.CompactedView | src/vector/store/record_store.rs:736-771 | Compaction keeps every record under its id, in a slot no higher than before, leaves no tombstone and marks every slot dirty. |
| CompactingFlush.CompactingFlushAtomic | src/vector/store/persistence.rs:550-560 | A flush that compacts first keeps what users stored through every crash before its rename if and only if each slot that recovery still takes a vector from lies past the end of the compacted store or is rewritten with the bytes it has. |
| CompactingFlush.ExposedLost | src/omen/file.rs:1648-1681 | Otherwise one written slot is enough: a crash leaves files that open and show an id nobody touched with the vector of another. |
| CompactingFlush.TailRevived | src/omen/file.rs:1629-1646 | A completed one does not clear the end of `.vecs`: a clean reopen shows the store if and only if no slot past the compacted ones holds a vector. |
| CompactingFlush.AutoVector | src/omen/file.rs:999-1025 | The loader of `.vecs` skips the tombstones of the last manifest, so an auto-checkpoint keeps the vector of an id if and only if its slot is not one of them. |
| CompactingFlush.CompactedVectorLost | src/vector/store/lifecycle.rs:314-392 | After a compaction each such tombstone below the end of the compacted store costs a record its vector at the next auto-checkpoint, without a crash. |
| Failures.PhantomRecord | src/vector/store/persistence.rs:895-905 | A concrete guarded run: an auto-checkpoint under a `.records` base crashes after writing one new slot ahead, and reopening shows both the replayed record and a second one named `__slot_2`. |
| Failures.LostRecord | src/vector/store/persistence.rs:977-990 | A concrete guarded run: a crash between the `.records` rename and the sidecar write, then a reopen and an append; the append is in memory and is gone after the next crash. |
| Failures.RepeatedReplay | src/omen/wal.rs:396-410 | A concrete guarded run: a flush, a clean reopen on the empty log, a store, an auto-checkpoint and a crash after its rename; recovery replays the entry that the base already holds. |
| Failures.HiddenStray | src/vector/store/persistence.rs:811-823 | A concrete guarded run: a stray that the filter hides at one reopen becomes a record after the next auto-checkpoint and a crash. |
| Failures.ForgottenSlot | src/omen/file.rs:474-487 | A concrete guarded run: after an auto-checkpoint and a clean reopen the next snapshot would not list a slot that no manifest has. |
| LimitFailures.LongIdLost | src/omen/file.rs:1307-1333 | A concrete session, under the readers of the code: an id of 65,537 characters is stored after an ordinary record and an auto-checkpoint follows; no call fails, nothing crashes, and a reopen has neither. |
| LimitFailures.ManyRecordsLost | src/omen/file.rs:1822-1890 | A guarded run of n stores whose metadata adds up to 4 GiB (4,194,304 records with 1 KiB each, say), each within every limit: the flush succeeds and the database never opens again. |
| LimitFailures.SwappedVector | src/vector/store/persistence.rs:550-560 | A concrete guarded run at the default threshold: the flush after a deletion compacts, a crash keeps one slot it wrote, and a record nobody touched has the vector of another. |
| LimitFailures.RevivedTail | src/omen/file.rs:1629-1646 | A concrete session without a crash: such a flush completes, the database is closed and opened, and there is a record nobody wrote. |
| LimitFailures.FinishWriting | src/omen/file.rs:1531-1590 | From every reachable state in the middle of a checkpoint's writes, some guarded steps finish and sync them. |
| OmenFiles.CheckpointKeeps | src/omen/file.rs:1436-1893 | Along any stretch of a run made of checkpoint steps that publish only what can be read again, every state keeps the invariant and shows the same map. |
| OmenFiles.CheckpointMends | src/omen/file.rs:1606-1893 | Where the log was not in order, a stretch that completes a full or incremental checkpoint ends in the full invariant. |
| OmenFiles.OmenFile.WalAppend | src/omen/wal.rs:470-487 | Adds the entry at the next timestamp and advances the timestamp. |
| OmenFiles.OmenFile.WalTruncate | src/omen/wal.rs:599-614 | Empties the log, then writes the sidecar one epoch on: two protocol steps, in that order; the next timestamp is kept within the session. |
| OmenFiles.OmenFile.CheckpointVectorsOnly | src/omen/file.rs:1502-1601 | Does nothing without dirty slots or with dimension 0; otherwise leaves exactly the dirty slots rewritten and synced, which is the full rewrite exactly when they cover what changed, the snapshot with the accumulated dirty set and the epoch before truncation, and the log empty one epoch on, through protocol steps only. |
| OmenFiles.OmenFile.CheckpointIncremental | src/omen/file.rs:1606-1706 | Leaves the dirty slots rewritten and synced, or `.vecs` emptied when no slot is left, a manifest with the replay cutoff taken before truncation, no accumulated dirty slots, and the log empty one epoch on, through protocol steps only. |
| OmenFiles.OmenFile.CheckpointFull | src/omen/file.rs:1436-1497 | Leaves `.vecs` holding the rendering of every slot, untouched without slots or with dimension 0, a manifest that uses it exactly when it was written, and the log empty one epoch on, through protocol steps only. |
| OmenFiles.OmenFile.WriteDirty | src/omen/file.rs:1531-1556 | The loop over dirty slots leaves each rendered and every other slot of the mapping alone. |
| OmenFiles.OmenFile.RewriteVectors | src/omen/file.rs:1446-1485 | The full rewrite leaves each slot rendered, zeros where no live vector is. |
| VectorStores.LogKeeps | src/vector/store/crud.rs:35-109 | Logging an operation in a safe state keeps the invariant and changes the map by that operation. |
| VectorStores.VectorStore.Set | src/vector/store/crud.rs:35-109 | Binds the id to the vector and metadata and logs the whole record; with the log at the threshold it checkpoints and leaves the log empty; a vector of the wrong dimension changes nothing. The invariant is kept when the log was safe, the entry is within the limits of the log's readers and what the checkpoint publishes can be read again. |
| VectorStores.VectorStore.Delete | src/vector/store/crud.rs:310-357 | Removes the id and logs the deletion, checkpointing at the threshold; a missing id changes nothing. |
| VectorStores.VectorStore.Compact | src/vector/store/lifecycle.rs:314-392 | Gathers the live records slot by slot; the store is then the compacted one, every id has its record, and the count of tombstones removed is returned; without tombstones nothing changes. |
| VectorStores.VectorStore.FlushInternal | src/vector/store/persistence.rs:627-666 | A flush changes no id, publishes the manifest of the store as it was, takes only checkpoint steps, and always leaves the log empty and safe to append to. If that manifest opens, the full invariant holds after it, whatever had become of the log before. |
| VectorStores.VectorStore.Flush | src/vector/store/persistence.rs:550-560 | The public flush compacts first exactly when the share of tombstones is over the threshold, and is a flush of that store: one compaction and then checkpoint steps only, no id changed. |
| VectorStores.VectorStore.CheckpointWal | src/vector/store/persistence.rs:573-624 | An auto-checkpoint changes no id. It flushes, without compacting, when there is no `.vecs` yet or the store has sparse, multi-vector or edge state; otherwise it does nothing without dirty slots. It publishes the snapshot or manifest of the store as it was, and keeps the invariant when that can be read again. |
| VecsFiles.IncrementalIsFull | src/omen/file.rs:1657-1681 | After growth with zeros, writing only the dirty slots makes `.vecs` equal to the full rewrite, slot for slot, if and only if the dirty set covers every slot whose rendering changed. |
| VecsFiles.OperationsMarkDirty | src/vector/store/record_store.rs:259-365 | Every upsert and delete keeps the dirty set covering all slots whose rendering changed since the last write. |
| VecsFiles.MetadataMarksDirty | src/vector/store/record_store.rs:493-504 | So does a metadata update. |
| VecsFiles.LoadRoundTrip | src/omen/file.rs:976-1025 | Checkpointing and loading returns every live dense vector, zero vectors included, and nothing for any other slot, if and only if some slot is dense or no id is live: with an empty dense list live records without a vector come back with zeros. |
| OrecFiles.LoadWritten | src/omen/file.rs:1280-1424 | Round trip: whatever order the maps were written in, and whatever follows in the file, loading returns the same snapshot if and only if every part is within the loader's limits; beyond any limit the file is reported missing. |
| OrecFiles.LoadPrefix | src/omen/file.rs:1408-1414 | A strict prefix of a written snapshot is missing below 8 bytes, an I/O error up to the epoch, and inside the last 8 bytes loads everything with epoch 0. |
| OrecFiles.LoadCut | src/omen/file.rs:1280-1424 | Both at once: what every cut of a written file, and of a file with more after it, loads as. |
| OrecFiles.SectionsTooBig | src/omen/file.rs:1307-1406 | Passing any one limit, in whichever section, makes the loader give up on the file. |
| OrecFiles.LeadingFull | src/omen/file.rs:1321-1379 | The id, tombstone and metadata sections read back exactly when all of their limits hold. |
| OrecFiles.EnumeratedInserted | src/omen/file.rs:1328-1341 | Inserting the pairs of any enumeration of a map gives that map. |
| OrecProofs.ManyCut | src/omen/file.rs:1321-1341 | A list of entries reads back item by item; a cut inside it is an I/O error and a cut after it loses nothing of it. |
| OrecProofs.ManyRefuses | src/omen/file.rs:1328-1335 | One entry over its limit, anywhere in a list, makes the whole list unreadable. |
| OrecIO.WriteRecordsSnapshot | src/omen/file.rs:1188-1257 | The bytes written, in whatever order the maps are iterated, load back to the snapshot if and only if it is within the loader's limits, and otherwise are taken for no file. |
| OrecIO.WriteIds | src/omen/file.rs:1212-1221 | The id loop writes the count and each pair once, in the iterator's order. |
| OrecIO.WriteMetadata | src/omen/file.rs:1230-1240 | The metadata loop does the same with encoded JSON. |
| OrecIO.LoadRecordsSnapshot | src/omen/file.rs:1280-1424 | The cursor-driven loader terminates on every byte string and returns what the parsing functions say. |
| OrecIO.Cursor.ReadIds | src/omen/file.rs:1321-1341 | Reads the count and that many pairs, later pairs replacing earlier ones, or stops at the first error. |
| OrecIO.Cursor.ReadMetadata | src/omen/file.rs:1354-1379 | The same for metadata; an entry whose JSON does not parse is dropped and the rest kept. |
| Graph.WriteGraph | src/omen/graph.rs:178-204 | The two loops write the levels, the wrapping 32-bit offset table and the length-prefixed lists. |
| GraphProofs.SizeExact | src/omen/graph.rs:208-219 | The byte count equals `size_for_graph`. |
| GraphProofs.OffsetExact | src/omen/graph.rs:189-195 | A node's stored offset is the true position of its list if and only if the lists before it take less than 2^32 bytes. |
| GraphProofs.ReadsAliased | src/omen/graph.rs:113-158 | Reading node i returns the list that really begins where i's offset, wrapped to 32 bits, points: its own when it starts below 2^32. |
| GraphProofs.GraphRoundTrip | src/omen/graph.rs:33-158 | With less than 2^32 bytes of lists, mapping the written section answers the level and the neighbours of every node as written, and nothing beyond the last. |
| GraphProofs.ListAlignment | src/omen/graph.rs:140-158 | The words of a list, handed out as a slice of the mapping itself, are aligned for every list or for none: exactly when the number of nodes is a multiple of four. |
| GraphProofs.WrapMisreads | src/omen/graph.rs:189-195 | With exactly 2^32 bytes before it a node is answered with the first node's list. |
| GraphProofs.ListsAt | src/omen/graph.rs:197-203 | Every list occupies the position the prefix sums give it. |
| Words.ReadWords | src/omen/graph.rs:155-157 | Words read from where they were written are those written. |
| Pages.AlignLeast | src/omen/mod.rs:139-141 | The mask trick gives the least multiple of 8192 at or above its input; if and only if the 64-bit addition wraps it gives 0, below the input. |
| Pages.AndHigh | src/omen/mod.rs:139-141 | A mask of ones above bit k clears exactly the low k bits. |
| Headers.HeaderRoundTrip | src/omen/header.rs:120-193 | Every header is read back from its 4096 bytes, whatever follows. |
| Headers.HeaderToBytes | src/omen/header.rs:120-148 | Filling the buffer range by range gives the header's byte form, zeros elsewhere. |
| Headers.ManifestHeaderRoundTrip | src/omen/manifest.rs:36-66 | Length and checksum are read back. |
| Headers.FooterRoundTrip | src/omen/manifest.rs:138-190 | Every footer field is read back from its 64 bytes. |
| Headers.FooterVerifies | src/omen/manifest.rs:103-135 | A new footer, written and read back, verifies and points at the manifest. |
| Headers.FooterToBytes | src/omen/manifest.rs:138-148 | Filling the buffer range by range gives the footer's byte form. |
| Container.SegmentWriter.WriteAligned | src/omen/file.rs:107-130 | Writes at the next page boundary and returns the location; a segment of 2^32 bytes or more is refused. |
| ContainerProofs.LayPlaces | src/omen/file.rs:93-131 | Segments land on page boundaries, in order, without overlap, and no later write disturbs an earlier one. |
| ContainerProofs.OpenSealed | src/omen/file.rs:1827-1855 | Whatever was written after a header, sealing it with manifest and footer gives a file that passes every check of `open` and decodes to that manifest, if it is shorter than 2^32 bytes; from there on `open` sees its first bytes only. |
| ContainerProofs.ContainerRoundTrip | src/omen/file.rs:291-374 | The written container opens with its manifest and effective header; every segment is aligned, between header and manifest, apart from the others, and reads back as written. |
| ContainerProofs.HeaderRecovered | src/omen/file.rs:376-461 | The header a reopened file works with is the one written, with the live count, when the schema agrees with it. |
| ContainerProofs.ConfigDescribes | src/omen/file.rs:1784-1830 | The manifest's configuration holds the header fields under their keys, whatever the multi-vector settings add. |
| ContainerProofs.ConfiguredReads | src/omen/file.rs:376-461 | So a manifest configured by the writer gives back the header it was written with and the live count, the cutoff that replay uses, and whether `.vecs` is in use. |
| ContainerProofs.ConfigCutoff | src/omen/file.rs:80-87 | It holds the log epoch always and the maximum timestamp exactly when the log had one, and marks `.vecs` exactly when it is used. |
| ContainerProofs.IndexFound | src/omen/file.rs:426-443 | Opening keeps the first index segment that lies inside the file. |
| OmenManifest.WriteOmenManifest | src/omen/file.rs:1733-1855 | Fails exactly when a segment is over 4 GiB; otherwise, for every lossless codec and a manifest below 4 GiB, the file written opens with the manifest, the header it was written with and the live count, and the cutoff for replay, and every segment is found again, aligned and apart. |
| PackedSnapshot.PackVectors | src/omen/file.rs:1947-1989 | Places each live vector at 8192 + 4 dim (live slots before it), gives every other slot an empty location, and fails exactly when a live vector has the wrong length. |
| PackedSnapshot.RangesDisjoint | src/omen/file.rs:1947-1989 | The ranges of two live slots do not overlap. |
| PackedSnapshot.BlockAt | src/omen/file.rs:1970-1978 | A live vector's bytes stand in the block at that position. |
| PackedSnapshot.LoadMainFile | src/omen/file.rs:1026-1059 | The loader's main-file branch returns, for each location, the vector read there or none. |
| PackedSnapshot.SlotRoundTrip | src/omen/file.rs:1026-1059 | Every live slot loads its vector and every deleted slot none, from any file that begins with the block. |
| PackedSnapshot.PackedExact | src/omen/file.rs:1980-1986 | Every slot loads as stored if and only if no live slot lacks a vector: such a slot comes back with an empty vector. |
| PackedSnapshot.CheckpointFromSnapshot | src/omen/file.rs:1900-2098 | Each error exactly on its test, in the order of the tests; otherwise every slot loads from the file written, and for every lossless codec and a manifest below 4 GiB it opens with its manifest. |
| Scalar.DistanceBatch | src/compression/scalar.rs:284-306 | Fills the buffer with one distance per vector, each equal to the single-vector form, and leaves the rest of the buffer alone. |
| Scalar.Params.DistanceRaw | src/compression/scalar.rs:255-270 | The raw form is the same distance. |
| ScalarProofs.HalfStep | src/compression/scalar.rs:144-187 | Inside the trained range a coordinate comes back within half a step. |
| ScalarProofs.NearestCode | src/compression/scalar.rs:144-153 | For every coordinate, in range or not, no code decodes nearer to it than the one chosen. |
| ScalarProofs.CodeRoundTrip | src/compression/scalar.rs:169-187 | Quantizing a dequantized code gives the code back. |
| ScalarProofs.Reconstructed | src/compression/scalar.rs:238-246 | The integer dot product with its two corrections is the dot product of the dequantized vectors. |
| ScalarProofs.SymmetricScaled | src/compression/scalar.rs:481-489 | The distance of the dequantized vectors is scale^2 times the symmetric integer distance of their codes. |
| ScalarProofs.DistanceIdentity | src/compression/scalar.rs:233-248 | The computed distance is scale^2 times the symmetric integer distance, plus an amount that depends on the query alone. |
| ScalarProofs.RankingExact | src/compression/scalar.rs:233-248 | For a fixed query any two vectors rank by the computed distance exactly as by the integer distance of their codes. |
| ScalarProofs.DistanceError | src/compression/scalar.rs:208-248 | For a query and a vector in range the computed distance is within the sum of scale (abs(q_i - v_i) + abs(v_i)) + 3/4 scale^2 of the true one. |
| Training.TrainWithPercentiles | src/compression/scalar.rs:84-140 | Each error exactly on its test, a panic exactly for dimension 0; otherwise scale > 0, exactly 100,000 samples when subsampling, and at least upper rank - lower rank + 1 of the samples inside the representable range. |
| Training.FromSamples | src/compression/scalar.rs:119-139 | The parameters computed from samples are usable and cover the values between the two ranks, also when the range is narrower than 1e-7. |
| Training.SampleCount | src/compression/scalar.rs:101-117 | Striding by total / 100,000 and cutting leaves exactly 100,000 values; smaller sets are used whole. |
| Training.RanksCovered | src/compression/scalar.rs:119-126 | Between the values at two ranks of a sorted list lie at least as many elements as between the ranks. |
| IntKernels.DotScalar | src/compression/scalar.rs:342-348 | The plain loop computes the sum modulo 2^32. |
| IntKernels.DotAvx2 | src/compression/scalar.rs:353-402 | The 32/16/1 blocked kernel on eight wrapping lanes, reduced by halves, computes the same value at every length. |
| IntKernels.DotNeon | src/compression/scalar.rs:407-475 | The 64/16/1 kernel with four accumulators of four wrapping lanes computes the same value at every length. |
| IntKernels.IntDotProduct | src/compression/scalar.rs:318-338 | Whatever the target, the result is the exact sum for all equal-length vectors up to 65,535 elements. |
| IntKernels.FitsExactly | src/compression/scalar.rs:95-97 | All sums at a length fit in 32 bits if and only if the length is at most 66,051; the trained maximum is below that. |
| IntKernels.AddLanesSum | src/compression/scalar.rs:372-375 | Adding registers lane by lane adds their sums modulo 2^32, whichever lanes wrap. |
| IntKernels.Reduce8Sum | src/compression/scalar.rs:387-393 | The shift-and-add reduction leaves the sum of the eight lanes modulo 2^32. |
| DistanceKernels.Simd | src/distance/ops.rs:156-240 | For every lane count and length the four-accumulator loop with its remainder is the scalar sum, and declines exactly the vectors shorter than a register. |
| DistanceKernels.Dispatch | src/distance/ops.rs:59-117 | The cascade of register widths is total and gives the scalar sum on every target and at every length. |
| DistanceKernels.AccumulatedSum | src/distance/ops.rs:173-186 | Accumulating a chunk adds its scalar sum to the sum of the lanes. |
| DistanceKernels.Decomposed | src/distance/ops.rs:44-47 | The squared distance is the two squared norms less twice the dot product. |
| DistanceKernels.L2SquaredDecomposed | src/distance/ops.rs:44-47 | The decomposed form gives the direct distance if and only if the norms handed in add up to the true ones. |
| LockProofs.StepInv | python/src/lifecycle.rs:122-140 | Every step of any call keeps writers alone on their lock and parks exactly the waiting calls, each once. |
| LockProofs.Progress | python/src/lifecycle.rs:117-120 | In every reachable unfinished state some call can step, even if a lock grants only to the head of its queue, so that a reader waits behind a parked writer. |
| LockProofs.StepDecreases | python/src/lifecycle.rs:122-140 | Every step brings the calls nearer to their end. |
| LockProofs.NoDeadlock | node/src/database.rs:626-655 | Any number of merges over any databases, in any interleaving: mutual exclusion, at most five steps a call, and a run stops only when every call has finished. |
| LockProofs.UnorderedDeadlocks | python/src/lifecycle.rs:117-120 | Locking the target first instead reaches, with two opposite merges, a state where no call can step. |
| Bytes.LERoundTrip | src/omen/graph.rs:195-203 | A little-endian integer reads back modulo its width. |

## Left out

- Replay loops: `load_recovery_context`, `build_initial_records` and `replay_wal_into_records` are modelled as functions on the files, so the shared mapping behind recovered vectors and the order of updates in place are not captured.
- RecordStore: modelled as a value with update functions; its locks, sharded maps and mmap-backed vectors are not.
- OmenFiles.OmenFile.CheckpointVectorsOnly: a slot torn within itself is not modelled; a crash keeps each slot's old or new vector whole.
- Safety.RunDurable: runs that append to an unsafe log, publish or log something over a reader's limits, or compact over a manifest with slots are outside guarded runs; what happens then is stated by Atomicity.AppendsDurable, Restoration.AutoKeeps, Restoration.ManifestKeeps and CompactingFlush.CompactingFlushAtomic.
- Safety.StepInv: operations on ids of the reserved form `__slot_k` are outside guarded runs.
- Restoration.CheckpointRestores: compaction that moves an invented record, and an auto-checkpoint between a compaction and the next flush, are outside such stretches; CompactingFlush.AutoVector says what the second does.
- CompactingFlush.CompactingFlushAtomic: a store left without records, whose `.vecs` is emptied, is not covered.
- Atomicity.FullWritesAtomic: a packed file, whose vectors lie in the main file, is not a base of the protocol; its first full checkpoint is not covered.
- VectorStores.VectorStore.Delete: the edge deletions logged before the deletion are not modelled.
- The batch-insert path that skips the log and unsynced log tails: the durability claims are for logged writes.
- Edges, sparse and multi-vector payloads in the log and in snapshots: they follow the same path as metadata; that they exist is a parameter of an auto-checkpoint.
- Corrupt or unknown log entries and the bytes of log entries: entries are values, and what their parser accepts is a parameter.
- LoaderLimits.RunWithin: that the log's parser has these limits is a premise, not derived from the bytes of entries.
- ManifestLimits.OpensExact: how postcard encodes a manifest is a parameter; that its metadata is kept as it is, where `LargeMetadata` uses it, is a premise.
- GraphProofs.GraphRoundTrip: reads of unaligned words, undefined in the source when the number of nodes is not a multiple of four, are taken to give the words that stand there.
- PackedSnapshot.CheckpointFromSnapshot: the vectors are taken to fit into a file of 2^62 bytes.
- HNSW segments, the metadata index, text search and the catalog.
- ScalarProofs.DistanceError: rounding of 32-bit floats, NaN and fused multiply-add are not modelled; arithmetic is over reals.
- DistanceKernels.Simd: `l2_squared_simd` and `dot_simd` are one loop with two lane operations here.
- Training.TrainWithPercentiles: the library sort is replaced by an insertion sort; only its being a sorted permutation is used.
- Graph.Section.Level: reading a level from a section shorter than its node count, which the code does not check, is excluded.
- Container.Manifest: the manifest carries the fields recovery and the loader use; its other optional byte strings are not modelled.
- OREC version 2: modelled in the parser (every id's slot counts as dense), without a printer.
- What a merge does to the two stores, and holders of the locks other than merges.
