/** The two consumers of the loaded stream that are pure folds: the replay
    stream cut into batches by `try_chunks(BATCH_SIZE)`, and the verify-only
    pass that only advances a "verified through" watermark. */
module ReplayBatching {
  import opened RestoreTypes

  /** Transactions per replay batch (the source uses 2 in its own unit-test
      builds). */
  const BATCH_SIZE: nat := 10000

  /** `try_chunks(size)` over a stream without errors: consecutive batches of
      `size` items, the last one possibly shorter, none empty. */
  function Batches<T>(items: seq<T>, size: nat): (r: seq<seq<T>>)
    requires size > 0
    ensures forall i :: 0 <= i < |r| ==> 0 < |r[i]| <= size
    ensures forall i :: 0 <= i < |r| - 1 ==> |r[i]| == size
    ensures items == [] <==> r == []
    decreases |items|
  {
    if items == [] then []
    else if |items| <= size then [items]
    else [items[..size]] + Batches(items[size..], size)
  }

  /** Batching loses, duplicates and reorders nothing. */
  lemma {:induction false} BatchesFlatten<T>(items: seq<T>, size: nat)
    requires size > 0
    ensures Flatten(Batches(items, size)) == items
    decreases |items|
  {
    if items == [] {
    } else if |items| <= size {
      assert Flatten([items]) == items + Flatten<T>([]);
    } else {
      var head: seq<seq<T>> := [items[..size]];
      BatchesFlatten(items[size..], size);
      FlattenAppend(head, Batches(items[size..], size));
      assert Flatten(head) == items[..size] + Flatten<T>([]);
    }
  }

  /** The batches `try_chunks(size)` hands on before the stream fails: only
      the full ones; the partial batch it holds when the error arrives is
      dropped with the error. */
  function FullBatches<T>(items: seq<T>, size: nat): (r: seq<seq<T>>)
    requires size > 0
    ensures forall i :: 0 <= i < |r| ==> |r[i]| == size
    ensures |items| < size <==> r == []
    decreases |items|
  {
    if |items| < size then []
    else [items[..size]] + FullBatches(items[size..], size)
  }

  /** Before a failure, exactly the items of the full batches reach the
      replayer: a prefix of what an error-free run would replay, short of it
      by less than one batch. */
  lemma {:induction false} FullBatchesPrefix<T>(items: seq<T>, size: nat)
    requires size > 0
    ensures Flatten(FullBatches(items, size)) <= items
    ensures |items| - |Flatten(FullBatches(items, size))| < size
    ensures FullBatches(items, size) <= Batches(items, size)
    decreases |items|
  {
    if |items| >= size {
      var rest := items[size..];
      FullBatchesPrefix(rest, size);
      var head: seq<seq<T>> := [items[..size]];
      FlattenAppend(head, FullBatches(rest, size));
      assert Flatten(head) == items[..size] + Flatten<T>([]);
      assert items == items[..size] + rest;
      if |items| == size {
        assert Batches(items, size) == [items] && FullBatches(items, size) == [items[..size]] + [];
      }
    }
  }

  /** The verify-only fold: the watermark after each verified chunk is its
      last version. */
  function Watermarks(chunks: seq<LoadedChunk>): (r: seq<Version>)
    ensures |r| == |chunks| && forall i :: 0 <= i < |r| ==> r[i] == chunks[i].manifest.lastVersion
  {
    seq(|chunks|, i requires 0 <= i < |chunks| => chunks[i].manifest.lastVersion)
  }

  /** The watermark never moves backwards, even across a chunk that the
      scan's zero sentinel let through unchecked. */
  lemma WatermarksInOrder(chunks: seq<LoadedChunk>)
    requires forall j :: 0 <= j < |chunks| ==> chunks[j].Valid()
    requires forall j :: 0 <= j < |chunks| - 1 ==>
      chunks[j].manifest.lastVersion == 0 || chunks[j + 1].manifest.firstVersion == chunks[j].manifest.lastVersion + 1
    ensures forall i, j :: 0 <= i <= j < |chunks| ==> Watermarks(chunks)[i] <= Watermarks(chunks)[j]
  {
    var w := Watermarks(chunks);
    forall i, j | 0 <= i <= j < |chunks| ensures w[i] <= w[j] {
      WatermarksStep(chunks, i, j);
    }
  }

  lemma {:induction false} WatermarksStep(chunks: seq<LoadedChunk>, i: nat, j: nat)
    requires i <= j < |chunks|
    requires forall j :: 0 <= j < |chunks| ==> chunks[j].Valid()
    requires forall j :: 0 <= j < |chunks| - 1 ==>
      chunks[j].manifest.lastVersion == 0 || chunks[j + 1].manifest.firstVersion == chunks[j].manifest.lastVersion + 1
    ensures chunks[i].manifest.lastVersion <= chunks[j].manifest.lastVersion
    decreases j - i
  {
    if i < j {
      WatermarksStep(chunks, i + 1, j);
      assert chunks[i + 1].Valid();
    }
  }
}
