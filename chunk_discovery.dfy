/** Chunk discovery in `loaded_chunk_stream`: manifests are fetched and
    self-checked in order, their chunks flattened, taken while they start at or
    below the target version, and scanned for consecutive version ranges. */
module ChunkDiscovery {
  import opened RestoreTypes

  /** What one manifest contributes to the chunk stream: one error item when
      it cannot be fetched or fails its own check, otherwise its chunks in order. */
  function ManifestItems(h: FileHandle, storage: BackupStorage): (r: seq<Result<TransactionChunk>>)
    ensures h !in storage.manifests ==> r == [Err(ManifestFetchFailed(h))]
    ensures h in storage.manifests && !storage.manifests[h].selfCheckPasses ==> r == [Err(ManifestInvalid)]
    ensures h in storage.manifests && storage.manifests[h].selfCheckPasses ==>
      |r| == |storage.manifests[h].chunks| && forall i :: 0 <= i < |r| ==> r[i] == Ok(storage.manifests[h].chunks[i])
  {
    if h !in storage.manifests then [Err(ManifestFetchFailed(h))]
    else if !storage.manifests[h].selfCheckPasses then [Err(ManifestInvalid)]
    else OkAll(storage.manifests[h].chunks)
  }

  /** The flattened chunk stream: the manifests' contributions, in order. */
  function FlattenManifests(handles: seq<FileHandle>, storage: BackupStorage): (r: seq<Result<TransactionChunk>>)
    ensures handles == [] ==> r == []
    ensures |handles| == 1 ==> r == ManifestItems(handles[0], storage)
  {
    if handles == [] then []
    else ManifestItems(handles[0], storage) + FlattenManifests(handles[1..], storage)
  }

  /** Flattening keeps manifest order: the stream of `a + b` is the stream of
      `a` followed by the stream of `b`. */
  lemma {:induction false} FlattenManifestsAppend(a: seq<FileHandle>, b: seq<FileHandle>, storage: BackupStorage)
    ensures FlattenManifests(a + b, storage) == FlattenManifests(a, storage) + FlattenManifests(b, storage)
    decreases |a|
  {
    if a == [] {
      assert a + b == b;
    } else {
      assert (a + b)[0] == a[0] && (a + b)[1..] == a[1..] + b;
      FlattenManifestsAppend(a[1..], b, storage);
    }
  }

  function OkAll(chunks: seq<TransactionChunk>): (r: seq<Result<TransactionChunk>>)
    ensures |r| == |chunks| && forall i :: 0 <= i < |r| ==> r[i] == Ok(chunks[i])
  {
    seq(|chunks|, i requires 0 <= i < |chunks| => Ok(chunks[i]))
  }

  /** `try_take_while(first_version <= target_version)`: error items pass, and
      the stream ends at the first chunk that starts beyond the target. */
  function TakeWithinTarget(items: seq<Result<TransactionChunk>>, target: Version): (r: seq<Result<TransactionChunk>>)
    ensures r <= items
    ensures forall i :: 0 <= i < |r| && r[i].Ok? ==> r[i].value.firstVersion <= target
    ensures |r| < |items| ==> items[|r|].Ok? && items[|r|].value.firstVersion > target
  {
    if items == [] then []
    else if items[0].Ok? && items[0].value.firstVersion > target then []
    else [items[0]] + TakeWithinTarget(items[1..], target)
  }

  /** Whether the scan accepts chunk `c` when the accumulator holds `last`
      (0 standing for "no chunk accepted yet"). */
  predicate Accepts(last: Version, c: TransactionChunk) {
    last == 0 || c.firstVersion == last + 1
  }

  /** What the scan emits for `item` when the accumulator holds `last`. */
  function Emit(last: Version, item: Result<TransactionChunk>): Result<TransactionChunk> {
    if item.Ok? && !Accepts(last, item.value) then Err(ChunkRangeNotConsecutive(last + 1, item.value.firstVersion))
    else item
  }

  /** The accumulator `last_chunk_last_version` after `items[..i]`: it starts
      at 0 and moves to a chunk's last version only when that chunk is accepted. */
  function LastAccepted(items: seq<Result<TransactionChunk>>, i: nat): Version
    requires i <= |items|
  {
    if i == 0 then 0
    else
      var last := LastAccepted(items, i - 1);
      if items[i - 1].Ok? && Accepts(last, items[i - 1].value) then items[i - 1].value.lastVersion else last
  }

  /** The output of the `scan`: each item as emitted against the accumulator
      left by the items before it. It never alters an item: it passes it on,
      or turns a chunk into a contiguity error naming its first version. */
  function Scan(items: seq<Result<TransactionChunk>>): (r: seq<Result<TransactionChunk>>)
    ensures |r| == |items|
    ensures forall j :: 0 <= j < |r| ==>
      || r[j] == items[j]
      || (items[j].Ok? && r[j].Err? && r[j].error.ChunkRangeNotConsecutive?
          && r[j].error.got == items[j].value.firstVersion)
  {
    seq(|items|, j requires 0 <= j < |items| => Emit(LastAccepted(items, j), items[j]))
  }

  /** Consecutive version ranges, except after a chunk that ends at version 0,
      which the scan's sentinel does not check. */
  predicate Consecutive(chunks: seq<TransactionChunk>) {
    forall j :: 0 <= j < |chunks| - 1 ==>
      chunks[j].lastVersion == 0 || chunks[j + 1].firstVersion == chunks[j].lastVersion + 1
  }

  predicate AllOk<T>(items: seq<Result<T>>) {
    forall j :: 0 <= j < |items| ==> items[j].Ok?
  }

  function Values<T>(items: seq<Result<T>>): (r: seq<T>)
    requires AllOk(items)
    ensures |r| == |items| && forall j :: 0 <= j < |r| ==> r[j] == items[j].value
  {
    seq(|items|, j requires 0 <= j < |items| => items[j].value)
  }

  /** The scan, as the source runs it: a loop over the items with a mutable
      accumulator that advances only on accepted chunks. */
  method CheckContiguity(items: seq<Result<TransactionChunk>>) returns (out: seq<Result<TransactionChunk>>)
    ensures out == Scan(items)
    ensures AllOk(out) <==> AllOk(items) && Consecutive(Values(items))
  {
    var lastChunkLastVersion: Version := 0;
    out := [];
    var i := 0;
    while i < |items|
      invariant 0 <= i <= |items| && |out| == i
      invariant lastChunkLastVersion == LastAccepted(items, i)
      invariant forall j :: 0 <= j < i ==> out[j] == Emit(LastAccepted(items, j), items[j])
    {
      var item := items[i];
      assert LastAccepted(items, i + 1) ==
        if item.Ok? && Accepts(lastChunkLastVersion, item.value) then item.value.lastVersion else lastChunkLastVersion;
      ghost var emitted := Emit(lastChunkLastVersion, item);
      if item.Ok? {
        var chunk := item.value;
        if lastChunkLastVersion != 0 && chunk.firstVersion != lastChunkLastVersion + 1 {
          out := out + [Err(ChunkRangeNotConsecutive(lastChunkLastVersion + 1, chunk.firstVersion))];
        } else {
          lastChunkLastVersion := chunk.lastVersion;
          out := out + [item];
        }
      } else {
        out := out + [item];
      }
      assert out[i] == emitted;
      i := i + 1;
    }
    EmitsAreScan(items, out);
  }

  /** Emitting each item against the accumulator left by the items before it
      is the scan. */
  lemma EmitsAreScan(items: seq<Result<TransactionChunk>>, out: seq<Result<TransactionChunk>>)
    requires |out| == |items|
    requires forall j :: 0 <= j < |items| ==> out[j] == Emit(LastAccepted(items, j), items[j])
    ensures out == Scan(items)
    ensures AllOk(out) <==> AllOk(items) && Consecutive(Values(items))
  {
    assert out == Scan(items);
    ScanAcceptsExactly(items);
  }

  /** While every item so far was let through, the accumulator holds the last
      version of the latest chunk (or 0 before the first). */
  lemma {:induction false} LastAcceptedOfAcceptedPrefix(items: seq<Result<TransactionChunk>>, k: nat)
    requires k <= |items|
    requires forall j :: 0 <= j < k ==> Scan(items)[j].Ok?
    ensures forall j :: 0 <= j < k ==> items[j].Ok? && Accepts(LastAccepted(items, j), items[j].value)
    ensures LastAccepted(items, k) == if k == 0 then 0 else items[k - 1].value.lastVersion
    decreases k
  {
    if k > 0 {
      LastAcceptedOfAcceptedPrefix(items, k - 1);
      assert Scan(items)[k - 1].Ok?;
    }
  }

  /** The scan lets everything through unchanged exactly when there is no
      error item and every chunk continues the one before it (modulo the
      sentinel). */
  lemma ScanAcceptsExactly(items: seq<Result<TransactionChunk>>)
    ensures AllOk(Scan(items)) <==> AllOk(items) && Consecutive(Values(items))
    ensures AllOk(Scan(items)) ==> Scan(items) == items
  {
    if AllOk(Scan(items)) {
      LastAcceptedOfAcceptedPrefix(items, |items|);
      forall j | 0 <= j < |items| - 1
        ensures items[j].value.lastVersion == 0 || items[j + 1].value.firstVersion == items[j].value.lastVersion + 1
      {
        LastAcceptedOfAcceptedPrefix(items, j + 1);
      }
    }
    if AllOk(items) && Consecutive(Values(items)) {
      OkConsecutiveAccepted(items, |items|);
      assert Scan(items) == items;
    }
  }

  lemma {:induction false} OkConsecutiveAccepted(items: seq<Result<TransactionChunk>>, k: nat)
    requires k <= |items| && AllOk(items) && Consecutive(Values(items))
    ensures forall j :: 0 <= j < k ==> Accepts(LastAccepted(items, j), items[j].value)
    ensures LastAccepted(items, k) == if k == 0 then 0 else items[k - 1].value.lastVersion
    decreases k
  {
    if k > 1 {
      OkConsecutiveAccepted(items, k - 1);
      var vs := Values(items);
      assert vs[k - 2].lastVersion == 0 || vs[k - 1].firstVersion == vs[k - 2].lastVersion + 1;
      assert Accepts(LastAccepted(items, k - 1), items[k - 1].value);
    }
  }

  /** Up to the first item the scan emits as an error, it emits the items
      unchanged, and their chunks are consecutive (modulo the sentinel). */
  lemma AcceptedPrefixConsecutive(items: seq<Result<TransactionChunk>>, k: nat)
    requires k <= |items|
    requires forall j :: 0 <= j < k ==> Scan(items)[j].Ok?
    ensures forall j :: 0 <= j < k ==> Scan(items)[j] == items[j]
    ensures forall j :: 0 <= j < k - 1 ==>
      items[j].value.lastVersion == 0 || items[j + 1].value.firstVersion == items[j].value.lastVersion + 1
  {
    LastAcceptedOfAcceptedPrefix(items, k);
    forall j | 0 <= j < k - 1
      ensures items[j].value.lastVersion == 0 || items[j + 1].value.firstVersion == items[j].value.lastVersion + 1
    {
      LastAcceptedOfAcceptedPrefix(items, j + 1);
    }
  }

  /** The first chunk the scan rejects is reported with the version that the
      previous chunk promised and the version it actually starts at. */
  lemma ScanFirstRejection(items: seq<Result<TransactionChunk>>, k: nat)
    requires k < |items| && items[k].Ok?
    requires forall j :: 0 <= j < k ==> Scan(items)[j].Ok?
    requires Scan(items)[k].Err?
    ensures k > 0 && items[k - 1].Ok?
    ensures items[k - 1].value.lastVersion != 0
    ensures items[k].value.firstVersion != items[k - 1].value.lastVersion + 1
    ensures Scan(items)[k].error == ChunkRangeNotConsecutive(items[k - 1].value.lastVersion + 1, items[k].value.firstVersion)
  {
    LastAcceptedOfAcceptedPrefix(items, k);
  }

  /** A rejected chunk does not move the accumulator: the chunk after it is
      checked against the same expected version. */
  lemma RejectedKeepsAccumulator(items: seq<Result<TransactionChunk>>, k: nat)
    requires k < |items| && items[k].Ok? && Scan(items)[k].Err?
    ensures LastAccepted(items, k + 1) == LastAccepted(items, k)
  {
  }

  /** The scan is causal: what it emits for the first `k` items depends on
      those items alone. */
  lemma ScanPrefix(items: seq<Result<TransactionChunk>>, k: nat)
    requires k <= |items|
    ensures Scan(items[..k]) == Scan(items)[..k]
  {
    forall j | 0 <= j < k ensures Scan(items[..k])[j] == Scan(items)[j] {
      LastAcceptedPrefix(items, k, j);
    }
  }

  lemma {:induction false} LastAcceptedPrefix(items: seq<Result<TransactionChunk>>, k: nat, j: nat)
    requires j <= k <= |items|
    ensures LastAccepted(items[..k], j) == LastAccepted(items, j)
    decreases j
  {
    if j > 0 {
      LastAcceptedPrefix(items, k, j - 1);
      assert items[..k][j - 1] == items[j - 1];
    }
  }

  /** A chunk that spans at least one version and ends after version 0. */
  predicate ProperRange(c: TransactionChunk) {
    c.firstVersion <= c.lastVersion && c.lastVersion != 0
  }

  /** Every chunk of every manifest the run fetches and whose self-check
      passes has a proper range. */
  predicate ProperRanges(handles: seq<FileHandle>, storage: BackupStorage) {
    forall h, c ::
      (h in handles && h in storage.manifests && storage.manifests[h].selfCheckPasses
       && c in storage.manifests[h].chunks) ==>
      ProperRange(c)
  }

  /** Every chunk item has a proper range. */
  predicate ProperItems(items: seq<Result<TransactionChunk>>) {
    forall i :: 0 <= i < |items| && items[i].Ok? ==> ProperRange(items[i].value)
  }

  /** Flattening passes on only chunks that a fetched, self-checked manifest
      named by a handle lists. */
  lemma {:induction false} FlattenManifestsProper(handles: seq<FileHandle>, storage: BackupStorage)
    requires ProperRanges(handles, storage)
    ensures ProperItems(FlattenManifests(handles, storage))
    decreases |handles|
  {
    if handles != [] {
      forall h, c | h in handles[1..] && h in storage.manifests && storage.manifests[h].selfCheckPasses
        && c in storage.manifests[h].chunks
        ensures ProperRange(c)
      {
        assert h in handles;
      }
      FlattenManifestsProper(handles[1..], storage);
      var r := FlattenManifests(handles, storage);
      var rest := FlattenManifests(handles[1..], storage);
      var h := handles[0];
      var items := ManifestItems(h, storage);
      assert r == items + rest;
      forall i | 0 <= i < |r| && r[i].Ok?
        ensures ProperRange(r[i].value)
      {
        if i >= |items| {
          assert r[i] == rest[i - |items|];
        } else {
          var chunks := storage.manifests[h].chunks;
          assert r[i] == items[i] == Ok(chunks[i]) && chunks[i] in chunks;
        }
      }
    }
  }

  /** The chunks that discovery hands to the loader, in order. */
  function DiscoveredChunks(handles: seq<FileHandle>, storage: BackupStorage, target: Version): (r: seq<Result<TransactionChunk>>)
    ensures forall i :: 0 <= i < |r| && r[i].Ok? ==> r[i].value.firstVersion <= target
  {
    Scan(TakeWithinTarget(FlattenManifests(handles, storage), target))
  }

  /** Because the accumulator's sentinel is 0, a chunk ending at version 0
      leaves the next chunk unchecked: `[0, 0]` followed by `[5, 9]` passes. */
  lemma SentinelSkipsCheck(h: FileHandle)
    ensures var items := [Ok(TransactionChunk(0, 0, h, h)), Ok(TransactionChunk(5, 9, h, h))];
      Scan(items) == items
  {
    var items := [Ok(TransactionChunk(0, 0, h, h)), Ok(TransactionChunk(5, 9, h, h))];
    assert LastAccepted(items, 1) == 0;
  }
}
