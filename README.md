# Transaction restore: version bookkeeping

This project models the version bookkeeping of the transaction restore
pipeline of the backup CLI (`restore.rs`, `TransactionRestoreBatchController`)
and proves properties of the model.

A transaction backup is made of manifests. Each manifest lists chunks. A chunk
is a version range `[firstVersion, lastVersion]` with a file of records
(transaction, transaction info, events, write set) and a proof file. The
pipeline works in these steps:

- **Discovery.** It fetches and self-checks every manifest and flattens their
  chunks in order. It takes chunks while they start at or below the target
  version. A scan with a running "last accepted version" turns any chunk that
  does not continue its predecessor into an error item. The accumulator starts
  at 0, and 0 also means "no previous chunk": after a chunk that ends at
  version 0, the next chunk is not checked. `SentinelSkipsCheck` exhibits this.
- **Loading.** It reads a chunk's records into four parallel vectors and checks
  the record count against the declared span. It then authenticates the chunk.
- **Run, restore mode.** A run first peeks at the loaded stream. An empty
  stream and an error first item both fail the run. Each chunk is then clipped
  to the target version. The versions below the replay cutoff
  (`max(replay_from_version or u64::MAX, next expected version)`) are handed to
  `save_transactions`. The rest is flattened into a replay stream, which is cut
  into batches of `BATCH_SIZE`.
- **Run, verify-only mode.** A fold reports each chunk's last version as the
  verified watermark.

Streams are modelled as sequences of `Result` items consumed in order. Every
consumer stops at the first error item.

Modules, one file each:

- `RestoreTypes`: versions, chunks, loaded chunks, errors, and storage as a map
  from handles to contents.
- `ChunkLoader`: the record loop and the count check.
- `ChunkDiscovery`: flattening, take-while and the contiguity scan.
- `SaveReplaySplit`: the replay cutoff, the clip and drain, and the partition
  theorem.
- `ReplayBatching`: `try_chunks` batching and the verify-only watermarks.
- `RestorePipeline`: `run_impl` and the end-to-end lemmas.

The imperative parts are methods proved against the functions that specify
them: the record loop (`LoadChunk`), the scan (`CheckContiguity`) and the
per-chunk drain (`SaveBeforeReplayChunk`).

Source paths in the table are relative to the repository root.

## Model

| member | source | states |
|---|---|---|
| SaveReplaySplit.ReplayFromVersion | storage/backup/backup-cli/src/backup_types/transaction/restore.rs:70-72 | The supplied version when present, `u64::MAX` otherwise. |
| SaveReplaySplit.FirstToReplay | storage/backup/backup-cli/src/backup_types/transaction/restore.rs:354-357 | The cutoff is at least the next expected version and at least the requested version, and it is one of the two. |
| ChunkLoader.Load | storage/backup/backup-cli/src/backup_types/transaction/restore.rs:96-135 | The checks run in source order, and the first that fails decides the error. A records file that does not open gives an open error naming it. A count that does not match the span gives a count mismatch naming the first version, the last version and the record count. A proof file that does not open gives an open error naming it. An untrusted ledger info, checked only with an epoch history, gives an error naming the first version, and so does a failing range proof. When every check passes, loading succeeds. On success the chunk keeps its descriptor and satisfies the count invariant: four equal-length vectors and `first + len == last + 1`. |
| ChunkLoader.LoadChunk | storage/backup/backup-cli/src/backup_types/transaction/restore.rs:96-117 | The record loop pushing into four vectors, then the checks. It succeeds exactly when all five checks pass; on success the descriptor is kept, the chunk is valid, and its records rebuilt from the four vectors are the file's records. |
| ChunkLoader.LoadedRecordsRoundTrip | storage/backup/backup-cli/src/backup_types/transaction/restore.rs:102-112 | Splitting records into the four vectors and zipping them back loses nothing; the vectors have equal length. |
| ChunkLoader.LoadOk | storage/backup/backup-cli/src/backup_types/transaction/restore.rs:102-152 | A loaded chunk holds exactly the records of its transaction file. |
| ChunkDiscovery.ManifestItems | storage/backup/backup-cli/src/backup_types/transaction/restore.rs:257-266 | A manifest that cannot be fetched gives one fetch error naming its handle. One that fails its self-check gives one invalid-manifest error. Otherwise it gives its chunks, in order, each as an Ok item. |
| ChunkDiscovery.FlattenManifests | storage/backup/backup-cli/src/backup_types/transaction/restore.rs:255-269 | No handles give an empty chunk stream, and a single handle gives exactly that manifest's items. |
| ChunkDiscovery.FlattenManifestsAppend | storage/backup/backup-cli/src/backup_types/transaction/restore.rs:255-269 | Flattening keeps manifest order: the stream for `a + b` is the stream for `a` followed by the stream for `b`. |
| ChunkDiscovery.TakeWithinTarget | storage/backup/backup-cli/src/backup_types/transaction/restore.rs:270 | The result is a prefix of the input; every chunk in it starts at or below the target; if it stops early, it stops at a chunk starting beyond the target. |
| ChunkDiscovery.Scan | storage/backup/backup-cli/src/backup_types/transaction/restore.rs:271-290 | One output item per input item. Each is passed on unchanged, or is a chunk turned into a contiguity error whose `got` is that chunk's first version. |
| ChunkDiscovery.CheckContiguity | storage/backup/backup-cli/src/backup_types/transaction/restore.rs:271-290 | The loop with the mutable accumulator computes `Scan`; its output has no error item exactly when the input has none and its chunks are consecutive modulo the 0 sentinel. |
| ChunkDiscovery.ScanAcceptsExactly | storage/backup/backup-cli/src/backup_types/transaction/restore.rs:271-290 | Both directions of the iff above, and an all-accepted scan is the identity. |
| ChunkDiscovery.EmitsAreScan | storage/backup/backup-cli/src/backup_types/transaction/restore.rs:271-290 | Emitting each item against the accumulator left by its predecessors is the scan, with the same iff. |
| ChunkDiscovery.LastAcceptedOfAcceptedPrefix | storage/backup/backup-cli/src/backup_types/transaction/restore.rs:273-285 | While every item so far was let through, each was an accepted chunk and the accumulator holds the last version of the latest one. |
| ChunkDiscovery.OkConsecutiveAccepted | storage/backup/backup-cli/src/backup_types/transaction/restore.rs:273-285 | Error-free consecutive chunks are all accepted, and the accumulator follows their last versions. |
| ChunkDiscovery.AcceptedPrefixConsecutive | storage/backup/backup-cli/src/backup_types/transaction/restore.rs:271-290 | Up to the first error the scan emits, it emits its input unchanged, and those chunks are consecutive modulo the sentinel. |
| ChunkDiscovery.ScanFirstRejection | storage/backup/backup-cli/src/backup_types/transaction/restore.rs:274-281 | The first rejected chunk follows an accepted chunk that ends at a non-zero version, and the error names that version plus one as expected and the chunk's first version as got. |
| ChunkDiscovery.RejectedKeepsAccumulator | storage/backup/backup-cli/src/backup_types/transaction/restore.rs:274-285 | A rejected chunk does not move the accumulator. |
| ChunkDiscovery.ScanPrefix | storage/backup/backup-cli/src/backup_types/transaction/restore.rs:271-290 | The scan is causal: what it emits for the first `k` items depends on those items only. |
| ChunkDiscovery.FlattenManifestsProper | storage/backup/backup-cli/src/backup_types/transaction/restore.rs:264-269 | Flattening passes on only chunks listed by a manifest, so a property of all listed chunks holds for every chunk item. |
| ChunkDiscovery.DiscoveredChunks | storage/backup/backup-cli/src/backup_types/transaction/restore.rs:267-290 | Every chunk that discovery hands to the loader starts at or below the target. |
| ChunkDiscovery.SentinelSkipsCheck | storage/backup/backup-cli/src/backup_types/transaction/restore.rs:273-283 | The chunks `[0, 0]` then `[5, 9]` pass the scan unchanged: the 0 sentinel skips the check after a chunk ending at 0. |
| SaveReplaySplit.Clip | storage/backup/backup-cli/src/backup_types/transaction/restore.rs:380-387 | The clipped chunk is valid and its descriptor's last version becomes `min(last, target)`, the rest unchanged. |
| SaveReplaySplit.ClipKeepsPrefix | storage/backup/backup-cli/src/backup_types/transaction/restore.rs:380-387 | Clipping keeps a prefix of each vector, and when it cuts, the kept count lies in `[1, len)`. |
| SaveReplaySplit.Split | storage/backup/backup-cli/src/backup_types/transaction/restore.rs:389-420 | A save call is made iff `first < cutoff`, and it is non-empty for a non-empty chunk. Saved plus replayed count is the chunk's length. Saved versions end at or below the cutoff, and replay starts at or above it. |
| SaveReplaySplit.SplitContents | storage/backup/backup-cli/src/backup_types/transaction/restore.rs:389-420 | The save call holds the chunk's first version and the first `n` entries of txns, infos and events. The replay share is the zip of the four vectors from index `n`. |
| SaveReplaySplit.SplitReplayStart | storage/backup/backup-cli/src/backup_types/transaction/restore.rs:389-391 | The first version sent to replay is the cutoff clamped into `[first, last + 1]`. |
| SaveReplaySplit.SaveBeforeReplayChunk | storage/backup/backup-cli/src/backup_types/transaction/restore.rs:380-420 | The in-place drain (truncate, take the prefix, zip the rest) equals `Split` of `Clip`. The saved and replayed counts sum to the kept count. Saved versions stay below the cutoff, and replay starts at or above it. |
| SaveReplaySplit.SaveAndReplay | storage/backup/backup-cli/src/backup_types/transaction/restore.rs:360-425 | At most one save call per chunk. What the calls and the replay stream contain is stated by `SaveReplayPartition`. |
| SaveReplaySplit.ChunkContribution | storage/backup/backup-cli/src/backup_types/transaction/restore.rs:380-420 | For a non-empty chunk, the kept entries span `[first, min(last, target)]`. Its save call covers the part below the clamped cutoff, and its replay share is its entries from that point on. |
| SaveReplaySplit.JoinSaves | storage/backup/backup-cli/src/backup_types/transaction/restore.rs:360-425 | Adjacent parts that each fit their span: the concatenated save calls cover the joined span below the clamped cutoff. |
| SaveReplaySplit.JoinReplay | storage/backup/backup-cli/src/backup_types/transaction/restore.rs:416-425 | For the same parts, the flattened replay shares are the flattened entries from the clamped cutoff on. |
| SaveReplaySplit.SaveReplayPartition | storage/backup/backup-cli/src/backup_types/transaction/restore.rs:354-425 | Over non-empty, strictly consecutive chunks, the save calls cover every kept version below the clamped cutoff, in order, with no gap and no overlap. The replay stream is exactly the entries of the kept versions from the cutoff on. |
| SaveReplaySplit.SavedBelowReplayedAbove | storage/backup/backup-cli/src/backup_types/transaction/restore.rs:349-357 | Every saved version lies below the cutoff, and a non-empty replay stream starts at or above it. |
| ReplayBatching.Batches | storage/backup/backup-cli/src/backup_types/transaction/restore.rs:454 | `try_chunks` on an error-free stream: batches are non-empty and at most `BATCH_SIZE` long. All but the last are full. There are none exactly when the stream is empty. |
| ReplayBatching.BatchesFlatten | storage/backup/backup-cli/src/backup_types/transaction/restore.rs:454-458 | The batches, concatenated, are the replay stream: nothing lost, duplicated or reordered. |
| ReplayBatching.FullBatches | storage/backup/backup-cli/src/backup_types/transaction/restore.rs:454-455 | Before an error only full batches are handed on, and there are none when fewer than `BATCH_SIZE` items precede it. |
| ReplayBatching.FullBatchesPrefix | storage/backup/backup-cli/src/backup_types/transaction/restore.rs:454-455 | The full batches are a prefix of the batches. Their items are a prefix of the stream, short of it by less than one batch. |
| ReplayBatching.Watermarks | storage/backup/backup-cli/src/backup_types/transaction/restore.rs:520-531 | The verify-only fold reports each chunk's last version, one per chunk, in order. |
| ReplayBatching.WatermarksInOrder | storage/backup/backup-cli/src/backup_types/transaction/restore.rs:520-531 | Over valid chunks that are consecutive modulo the sentinel, the watermark never moves backwards. |
| RestorePipeline.LoadItem | storage/backup/backup-cli/src/backup_types/transaction/restore.rs:294-307 | Error items pass through the loader. A chunk item yields exactly what `LoadedChunk::load` yields for it, error or loaded chunk. A loaded chunk keeps the discovered descriptor and is valid. |
| RestorePipeline.LoadedChunkStream | storage/backup/backup-cli/src/backup_types/transaction/restore.rs:252-309 | One loaded item per discovered item, in order. Every loaded chunk is valid and starts at or below the target. |
| RestorePipeline.OkPrefix | storage/backup/backup-cli/src/backup_types/transaction/restore.rs:428-433 | A fail-fast consumer sees exactly the values before the first error item. |
| RestorePipeline.FirstError | storage/backup/backup-cli/src/backup_types/transaction/restore.rs:428-433 | There is no error exactly when the whole stream is error-free. Otherwise the error is the item right after the error-free prefix. |
| RestorePipeline.Run | storage/backup/backup-cli/src/backup_types/transaction/restore.rs:226-249 | No handles: success, doing nothing. An empty loaded stream fails with the stream-empty error. A passing run (with handles) saw a non-empty, error-free loaded stream. Conversely, such a stream makes the run pass in verify-only mode, and in restore mode when `replay_from_version` is given. A failure is a stream-empty error, a missing `replay_from_version`, or the stream's first error. Verify-only makes no saves and no batches. Restore reports no watermarks. Nothing is replayed without `replay_from_version`. |
| RestorePipeline.LoadedChunksHoldRecords | storage/backup/backup-cli/src/backup_types/transaction/restore.rs:294-307 | Every chunk a run works through holds exactly the records of its transaction file. |
| RestorePipeline.LoadedChunksConsecutive | storage/backup/backup-cli/src/backup_types/transaction/restore.rs:266-307 | The chunks a run works through are consecutive modulo the sentinel. If every chunk of the fetched, self-checked manifests named by the handles has a proper range (at least one version, ending after version 0), so do they. |
| RestorePipeline.VerifyRunReportsChunks | storage/backup/backup-cli/src/backup_types/transaction/restore.rs:515-533 | A verify-only run reports exactly the watermarks of the chunks it works through, and none when it works through none. |
| RestorePipeline.LoadedWatermarksInOrder | storage/backup/backup-cli/src/backup_types/transaction/restore.rs:515-533 | The watermarks of the chunks a run works through never decrease. |
| RestorePipeline.VerifiedInOrder | storage/backup/backup-cli/src/backup_types/transaction/restore.rs:515-533 | In verify-only mode the reported watermarks are those of the chunks worked through, and they never decrease. |
| RestorePipeline.PassedChunksContiguous | storage/backup/backup-cli/src/backup_types/transaction/restore.rs:271-290 | A successful run works through a non-empty stream. Under proper ranges of the named, fetched, self-checked manifests, its chunks are non-empty and strictly consecutive. |
| RestorePipeline.LoadedChunksContiguous | storage/backup/backup-cli/src/backup_types/transaction/restore.rs:271-290 | If every chunk of the fetched, self-checked manifests named by the handles has a proper range, the chunks a run works through are non-empty and strictly consecutive. |
| RestorePipeline.RestorePassPartition | storage/backup/backup-cli/src/backup_types/transaction/restore.rs:226-249 | End to end for a successful restore: the save calls cover every kept version below the clamped cutoff without gap, and the concatenated replay batches are exactly the kept entries from the cutoff on. |
| RestorePipeline.RestoreRunReplaysPrefix | storage/backup/backup-cli/src/backup_types/transaction/restore.rs:236-245 | Every restore run saves what the split prescribes and replays a prefix of the replay stream: all of it on success, short by less than one batch on a stream failure. |

## Left out

- Async streams, buffering, `spawn`/`spawn_blocking` and concurrency limits are not modelled. Every stream is an in-order sequential traversal that stops at its first error item. Work in flight when an error arrives is not modelled.
- Storage I/O and decoding are not modelled. Opening and reading files, the JSON manifest and the BCS records are maps from handles to contents in `BackupStorage`. A missing handle is an open failure. Decoding errors of individual records are not modelled.
- The cryptographic checks are booleans attached to the files: `EpochHistory::verify_ledger_info`, `TransactionListWithProof::verify` and `TransactionBackup::verify`. Because the manifest self-check is a boolean, its guarantee that each chunk has `first <= last` is a hypothesis of the end-to-end lemmas. `ProperRanges` asks it only of the manifests the handles name, and only of those that are fetched and pass their self-check.
- `ProperRanges` also excludes chunks ending at version 0. After such a chunk the scan's sentinel skips the contiguity check (`SentinelSkipsCheck`), so the partition would not hold.
- The DB and VM engines are not modelled: `save_transactions`, `confirm_or_save_frozen_subtrees`, `reset_state_store` and `ChunkExecutor` replay/commit. Save calls and replay batches are recorded in the run's trace. Their failures are not modelled, nor is the error of `get_next_expected_transaction_version`. The next expected version is an input.
- Metrics, logging, timing and the floating-point throughput figures are not modelled.
- `BATCH_SIZE` is 10000. The value 2 used in the source's own test builds is not modelled.
- `replay_transactions` panics on a missing `replay_from_version`. The model makes this the error outcome `ReplayFromVersionMissing` instead.
- Versions are bounded by `u64::MAX`, but sums such as `last + 1` are computed on unbounded integers. The u64 overflow at `Version::MAX` is not modelled. The underflow of `last_saved` at restore.rs line 406 needs a chunk with no versions to save that starts at version 0. `Version` is non-negative, so the model cannot express that underflow.
