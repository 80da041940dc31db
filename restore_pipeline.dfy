/** `TransactionRestoreBatchController::run_impl`: the loaded chunk stream is
    peeked for its first chunk, then either split into save calls and a
    replay stream that is cut into batches (restore), or folded over to
    advance a verified watermark (verify only). */
module RestorePipeline {
  import opened RestoreTypes
  import opened ChunkLoader
  import opened ChunkDiscovery
  import opened SaveReplaySplit
  import opened ReplayBatching

  /** `RestoreRunMode`: restoring into a database, which reports the version
      it expects next, or only verifying the backup. */
  datatype RunMode = Restore(nextExpectedVersion: Version) | VerifyOnly

  /** The options the controller runs with: the target version, the run mode,
      the optional `replay_from_version`, and whether an epoch history was
      supplied to check ledger infos against. */
  datatype RestoreOptions = RestoreOptions(
    targetVersion: Version,
    runMode: RunMode,
    replayFromVersion: Option<Version>,
    checkEpoch: bool)

  /** What a run does, in order: the `save_transactions` calls, the batches
      handed to the replayer, the versions reported as verified, and whether
      it ends in success or with an error. */
  datatype RunTrace = RunTrace(
    saves: seq<SaveCall>,
    replayBatches: seq<seq<ReplayItem>>,
    verified: seq<Version>,
    outcome: Outcome)

  /** The `and_then` that loads a discovered chunk; error items pass through. */
  function LoadItem(item: Result<TransactionChunk>, storage: BackupStorage, checkEpoch: bool): (r: Result<LoadedChunk>)
    ensures item.Err? ==> r == Err(item.error)
    ensures item.Ok? ==> r == Load(item.value, storage, checkEpoch)
    ensures r.Ok? ==> item.Ok? && r.value.manifest == item.value && r.value.Valid()
  {
    match item
    case Ok(c) => Load(c, storage, checkEpoch)
    case Err(e) => Err(e)
  }

  /** `loaded_chunk_stream`: every discovered chunk, loaded, in order. */
  function LoadedChunkStream(handles: seq<FileHandle>, storage: BackupStorage, target: Version, checkEpoch: bool)
    : (r: seq<Result<LoadedChunk>>)
    ensures |r| == |DiscoveredChunks(handles, storage, target)|
    ensures forall i :: 0 <= i < |r| ==> r[i] == LoadItem(DiscoveredChunks(handles, storage, target)[i], storage, checkEpoch)
    ensures forall i :: 0 <= i < |r| && r[i].Ok? ==> r[i].value.Valid() && r[i].value.manifest.firstVersion <= target
  {
    var d := DiscoveredChunks(handles, storage, target);
    seq(|d|, i requires 0 <= i < |d| => LoadItem(d[i], storage, checkEpoch))
  }

  /** The values a fail-fast consumer sees before the first error. */
  function OkPrefix<T>(items: seq<Result<T>>): (r: seq<T>)
    ensures |r| <= |items|
    ensures forall i :: 0 <= i < |r| ==> items[i] == Ok(r[i])
    ensures |r| < |items| ==> items[|r|].Err?
  {
    if items == [] || items[0].Err? then [] else [items[0].value] + OkPrefix(items[1..])
  }

  /** The error a fail-fast consumer stops at, if any. */
  function FirstError<T>(items: seq<Result<T>>): (r: Option<RestoreError>)
    ensures r.None? <==> |OkPrefix(items)| == |items|
    ensures r.Some? ==> items[|OkPrefix(items)|] == Err(r.value)
  {
    if items == [] then None
    else if items[0].Err? then Some(items[0].error)
    else FirstError(items[1..])
  }

  function OutcomeOf(err: Option<RestoreError>): (r: Outcome)
    ensures r.Pass? <==> err.None?
    ensures r.Fail? ==> r.error == err.value
  {
    match err
    case None => Pass
    case Some(e) => Fail(e)
  }

  /** One run of the controller over the manifests `handles`. */
  function Run(handles: seq<FileHandle>, storage: BackupStorage, opts: RestoreOptions): (r: RunTrace)
    ensures handles == [] ==> r == RunTrace([], [], [], Pass)
    ensures var stream := LoadedChunkStream(handles, storage, opts.targetVersion, opts.checkEpoch);
      && (r.outcome.Pass? && handles != [] ==> stream != [] && AllOk(stream))
      && (r.outcome.Fail? ==>
            || r.outcome.error == LoadedChunkStreamEmpty
            || r.outcome.error == ReplayFromVersionMissing
            || FirstError(stream) == Some(r.outcome.error))
    ensures var stream := LoadedChunkStream(handles, storage, opts.targetVersion, opts.checkEpoch);
      && (handles != [] && stream == [] ==> r.outcome == Fail(LoadedChunkStreamEmpty))
      && ((handles != [] && stream != [] && AllOk(stream)
           && (opts.runMode.Restore? ==> opts.replayFromVersion.Some?)) ==> r.outcome.Pass?)
    ensures opts.runMode.VerifyOnly? ==> r.saves == [] && r.replayBatches == []
    ensures opts.runMode.Restore? ==> r.verified == []
    ensures opts.replayFromVersion.None? ==> r.replayBatches == []
  {
    if handles == [] then RunTrace([], [], [], Pass)
    else
      var stream := LoadedChunkStream(handles, storage, opts.targetVersion, opts.checkEpoch);
      if stream == [] then RunTrace([], [], [], Fail(LoadedChunkStreamEmpty))
      else if stream[0].Err? then RunTrace([], [], [], Fail(stream[0].error))
      else
        var chunks := OkPrefix(stream);
        var err := FirstError(stream);
        match opts.runMode
        case Restore(next) =>
          var firstToReplay := FirstToReplay(opts.replayFromVersion, next);
          var split := SaveAndReplay(chunks, opts.targetVersion, firstToReplay);
          if split.1 == [] then RunTrace(split.0, [], [], OutcomeOf(err))
          else if opts.replayFromVersion.None? then RunTrace(split.0, [], [], Fail(ReplayFromVersionMissing))
          else if err.Some? then RunTrace(split.0, FullBatches(split.1, BATCH_SIZE), [], Fail(err.value))
          else RunTrace(split.0, Batches(split.1, BATCH_SIZE), [], Pass)
        case VerifyOnly => RunTrace([], [], Watermarks(chunks), OutcomeOf(err))
  }

  /** The descriptors of a sequence of loaded chunks. */
  function Manifests(chunks: seq<LoadedChunk>): (r: seq<TransactionChunk>)
    ensures |r| == |chunks| && forall i :: 0 <= i < |r| ==> r[i] == chunks[i].manifest
  {
    seq(|chunks|, i requires 0 <= i < |chunks| => chunks[i].manifest)
  }

  /** The chunks a run works through: the loaded chunks before the first error. */
  function LoadedChunks(handles: seq<FileHandle>, storage: BackupStorage, opts: RestoreOptions): (r: seq<LoadedChunk>)
    ensures forall j :: 0 <= j < |r| ==> r[j].Valid() && r[j].manifest.firstVersion <= opts.targetVersion
  {
    OkPrefix(LoadedChunkStream(handles, storage, opts.targetVersion, opts.checkEpoch))
  }

  /** The replay cutoff of a restore run. */
  function Cutoff(opts: RestoreOptions): Version
    requires opts.runMode.Restore?
  {
    FirstToReplay(opts.replayFromVersion, opts.runMode.nextExpectedVersion)
  }

  /** Every chunk has a proper range. */
  predicate ProperChunks(chunks: seq<LoadedChunk>) {
    forall j :: 0 <= j < |chunks| ==> ProperRange(chunks[j].manifest)
  }

  /** The chunks a run works through are consecutive (modulo the scan's
      sentinel), and, when every manifest's chunks have proper ranges, so do
      they. */
  lemma LoadedChunksConsecutive(handles: seq<FileHandle>, storage: BackupStorage, opts: RestoreOptions)
    ensures Consecutive(Manifests(LoadedChunks(handles, storage, opts)))
    ensures ProperRanges(handles, storage) ==> ProperChunks(LoadedChunks(handles, storage, opts))
  {
    var target := opts.targetVersion;
    var flat := FlattenManifests(handles, storage);
    var taken := TakeWithinTarget(flat, target);
    var d := Scan(taken);
    assert d == DiscoveredChunks(handles, storage, target);
    var stream := LoadedChunkStream(handles, storage, target, opts.checkEpoch);
    var chunks := LoadedChunks(handles, storage, opts);
    var k := |chunks|;
    forall j | 0 <= j < k ensures d[j].Ok? && d[j].value == chunks[j].manifest {
      assert stream[j] == Ok(chunks[j]) == LoadItem(d[j], storage, opts.checkEpoch);
    }
    AcceptedPrefixConsecutive(taken, k);
    var m := Manifests(chunks);
    forall j | 0 <= j < k - 1 ensures m[j].lastVersion == 0 || m[j + 1].firstVersion == m[j].lastVersion + 1 {
      assert d[j] == taken[j] && d[j + 1] == taken[j + 1];
    }
    if ProperRanges(handles, storage) {
      FlattenManifestsProper(handles, storage);
      forall j | 0 <= j < k ensures ProperRange(m[j]) {
        assert d[j] == taken[j] == flat[j];
      }
    }
  }

  /** Every chunk a run works through holds exactly the records of its
      transaction file. */
  lemma LoadedChunksHoldRecords(handles: seq<FileHandle>, storage: BackupStorage, opts: RestoreOptions)
    ensures forall j :: 0 <= j < |LoadedChunks(handles, storage, opts)| ==>
      var c := LoadedChunks(handles, storage, opts)[j];
      c.manifest.transactions in storage.recordFiles && Records(c) == storage.recordFiles[c.manifest.transactions]
  {
    var d := DiscoveredChunks(handles, storage, opts.targetVersion);
    var stream := LoadedChunkStream(handles, storage, opts.targetVersion, opts.checkEpoch);
    var chunks := LoadedChunks(handles, storage, opts);
    forall j | 0 <= j < |chunks|
      ensures chunks[j].manifest.transactions in storage.recordFiles
      ensures Records(chunks[j]) == storage.recordFiles[chunks[j].manifest.transactions]
    {
      assert stream[j] == Ok(chunks[j]) == LoadItem(d[j], storage, opts.checkEpoch);
      LoadOk(d[j].value, storage, opts.checkEpoch);
    }
  }

  /** A non-decreasing sequence of versions. */
  predicate NonDecreasing(vs: seq<Version>) {
    forall i, j :: 0 <= i <= j < |vs| ==> vs[i] <= vs[j]
  }

  /** In verify-only mode the reported watermark never moves backwards, and
      it reports each chunk the run works through, in order. */
  lemma VerifiedInOrder(handles: seq<FileHandle>, storage: BackupStorage, opts: RestoreOptions)
    requires opts.runMode.VerifyOnly?
    ensures NonDecreasing(Run(handles, storage, opts).verified)
    ensures Run(handles, storage, opts).verified == Watermarks(LoadedChunks(handles, storage, opts))
  {
    VerifyRunReportsChunks(handles, storage, opts);
    LoadedWatermarksInOrder(handles, storage, opts);
  }

  /** The watermarks of the chunks a run works through never decrease. */
  lemma LoadedWatermarksInOrder(handles: seq<FileHandle>, storage: BackupStorage, opts: RestoreOptions)
    ensures NonDecreasing(Watermarks(LoadedChunks(handles, storage, opts)))
  {
    var chunks := LoadedChunks(handles, storage, opts);
    LoadedChunksConsecutive(handles, storage, opts);
    var m := Manifests(chunks);
    forall j | 0 <= j < |chunks| - 1
      ensures chunks[j].manifest.lastVersion == 0 || chunks[j + 1].manifest.firstVersion == chunks[j].manifest.lastVersion + 1
    {
      assert m[j] == chunks[j].manifest && m[j + 1] == chunks[j + 1].manifest;
    }
    WatermarksInOrder(chunks);
  }

  /** A verify-only run reports the watermark of every chunk it works
      through, and nothing when it works through none. */
  lemma VerifyRunReportsChunks(handles: seq<FileHandle>, storage: BackupStorage, opts: RestoreOptions)
    requires opts.runMode.VerifyOnly?
    ensures Run(handles, storage, opts).verified == Watermarks(LoadedChunks(handles, storage, opts))
  {
    var stream := LoadedChunkStream(handles, storage, opts.targetVersion, opts.checkEpoch);
    if handles == [] || stream == [] || stream[0].Err? {
      assert LoadedChunks(handles, storage, opts) == [];
    }
  }

  /** End to end, for a restore run that succeeds over manifests whose
      chunks have proper ranges: the chunks it works through are strictly
      consecutive; its save calls cover, in order and without gaps, every
      kept version below the clamped cutoff, and all lie below the cutoff;
      and its replay batches, concatenated, are exactly the entries of the
      kept versions from the cutoff on, none beyond the target version. */
  lemma RestorePassPartition(handles: seq<FileHandle>, storage: BackupStorage, opts: RestoreOptions)
    requires handles != [] && opts.runMode.Restore? && ProperRanges(handles, storage)
    requires Run(handles, storage, opts).outcome.Pass?
    ensures LoadedChunks(handles, storage, opts) != []
    ensures Contiguous(LoadedChunks(handles, storage, opts))
    ensures PartitionsAt(Run(handles, storage, opts).saves, Flatten(Run(handles, storage, opts).replayBatches),
                         LoadedChunks(handles, storage, opts), opts.targetVersion, Cutoff(opts))
  {
    PassedChunksContiguous(handles, storage, opts);
    SaveReplayPartition(LoadedChunks(handles, storage, opts), opts.targetVersion, Cutoff(opts));
    RestoreRunReplaysPrefix(handles, storage, opts);
  }

  /** A successful run works through the whole loaded stream, and under
      proper ranges its chunks are non-empty and strictly consecutive. */
  lemma PassedChunksContiguous(handles: seq<FileHandle>, storage: BackupStorage, opts: RestoreOptions)
    requires handles != [] && ProperRanges(handles, storage)
    requires Run(handles, storage, opts).outcome.Pass?
    ensures LoadedChunks(handles, storage, opts) != []
    ensures Contiguous(LoadedChunks(handles, storage, opts))
    ensures forall j :: 0 <= j < |LoadedChunks(handles, storage, opts)| ==>
      LoadedChunks(handles, storage, opts)[j].manifest.firstVersion <= LoadedChunks(handles, storage, opts)[j].manifest.lastVersion
  {
    var stream := LoadedChunkStream(handles, storage, opts.targetVersion, opts.checkEpoch);
    assert |LoadedChunks(handles, storage, opts)| == |stream| > 0;
    LoadedChunksContiguous(handles, storage, opts);
  }

  /** Under proper ranges, the chunks a run works through are non-empty and
      strictly consecutive. */
  lemma LoadedChunksContiguous(handles: seq<FileHandle>, storage: BackupStorage, opts: RestoreOptions)
    requires ProperRanges(handles, storage)
    ensures Contiguous(LoadedChunks(handles, storage, opts))
    ensures forall j :: 0 <= j < |LoadedChunks(handles, storage, opts)| ==>
      LoadedChunks(handles, storage, opts)[j].manifest.firstVersion <= LoadedChunks(handles, storage, opts)[j].manifest.lastVersion
  {
    var chunks := LoadedChunks(handles, storage, opts);
    LoadedChunksConsecutive(handles, storage, opts);
    var m := Manifests(chunks);
    forall j | 0 <= j < |chunks| - 1 ensures chunks[j + 1].manifest.firstVersion == chunks[j].manifest.lastVersion + 1 {
      assert m[j] == chunks[j].manifest && m[j + 1] == chunks[j + 1].manifest;
    }
  }

  /** Every restore run makes the save calls of the chunks it works through,
      and replays a prefix of their replay stream: all of it when it
      succeeds, and short of it by less than one batch when the stream fails
      (only `replay_from_version` missing stops it from replaying at all). */
  lemma RestoreRunReplaysPrefix(handles: seq<FileHandle>, storage: BackupStorage, opts: RestoreOptions)
    requires opts.runMode.Restore?
    ensures var split := SaveAndReplay(LoadedChunks(handles, storage, opts), opts.targetVersion, Cutoff(opts));
      var r := Run(handles, storage, opts);
      && r.saves == split.0
      && Flatten(r.replayBatches) <= split.1
      && (r.outcome.Pass? ==> Flatten(r.replayBatches) == split.1)
      && (r.outcome.Fail? && r.outcome.error != ReplayFromVersionMissing ==>
            |split.1| - |Flatten(r.replayBatches)| < BATCH_SIZE)
  {
    var target := opts.targetVersion;
    var stream := LoadedChunkStream(handles, storage, target, opts.checkEpoch);
    var chunks := LoadedChunks(handles, storage, opts);
    var split := SaveAndReplay(chunks, target, Cutoff(opts));
    var r := Run(handles, storage, opts);
    if handles == [] || stream == [] || stream[0].Err? {
      assert chunks == [];
      assert split == ([], []);
      assert Flatten(r.replayBatches) == [];
    } else if split.1 == [] || opts.replayFromVersion.None? {
      assert r.replayBatches == [] && Flatten(r.replayBatches) == [];
    } else if FirstError(stream).Some? {
      assert r.replayBatches == FullBatches(split.1, BATCH_SIZE);
      FullBatchesPrefix(split.1, BATCH_SIZE);
    } else {
      assert r.replayBatches == Batches(split.1, BATCH_SIZE);
      BatchesFlatten(split.1, BATCH_SIZE);
    }
  }
}
