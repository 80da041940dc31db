/** `save_before_replay_version`: each loaded chunk is clipped to the target
    version, the versions below the replay cutoff are handed to
    `save_transactions`, and the rest is flattened into the replay stream. */
module SaveReplaySplit {
  import opened RestoreTypes

  /** `TransactionRestoreOpt::replay_from_version`: the requested version, or
      "replay nothing" (`Version::MAX`) when none was given. */
  function ReplayFromVersion(requested: Option<Version>): (v: Version)
    ensures requested.Some? ==> v == requested.value
    ensures requested.None? ==> v == VERSION_MAX
  {
    match requested
    case Some(w) => w
    case None => VERSION_MAX
  }

  /** The replay cutoff `first_to_replay`: the later of the requested version
      and the version the target database expects next. */
  function FirstToReplay(requested: Option<Version>, nextExpectedVersion: Version): (v: Version)
    ensures v >= nextExpectedVersion && v >= ReplayFromVersion(requested)
    ensures v == nextExpectedVersion || v == ReplayFromVersion(requested)
  {
    if ReplayFromVersion(requested) >= nextExpectedVersion then ReplayFromVersion(requested) else nextExpectedVersion
  }

  function Min(a: int, b: int): int { if a <= b then a else b }

  /** `x` moved into `[lo, hi]`. */
  function Clamp(x: int, lo: int, hi: int): (r: int)
    requires lo <= hi
    ensures lo <= r <= hi
    ensures lo <= x <= hi ==> r == x
    ensures x < lo ==> r == lo
    ensures x > hi ==> r == hi
  {
    if x < lo then lo else if x > hi then hi else x
  }

  /** The chunk cut back to the target version: records past it are dropped
      and `lastVersion` becomes the target. */
  function Clip(c: LoadedChunk, target: Version): (r: LoadedChunk)
    requires c.Valid() && c.manifest.firstVersion <= target
    ensures r.Valid()
    ensures r.manifest == c.manifest.(lastVersion := Min(c.manifest.lastVersion, target))
  {
    if target < c.manifest.lastVersion then
      var numToKeep := target - c.manifest.firstVersion + 1;
      LoadedChunk(c.manifest.(lastVersion := target), c.txns[..numToKeep], c.txnInfos[..numToKeep],
                  c.eventVecs[..numToKeep], c.writeSets[..numToKeep])
    else c
  }

  /** The replay stream entries for the records of `txns` etc. from index `from` on. */
  function ZipFrom(txns: seq<Transaction>, txnInfos: seq<TransactionInfo>, writeSets: seq<WriteSet>,
                   eventVecs: seq<seq<ContractEvent>>, from: nat): (r: seq<ReplayItem>)
    requires |txnInfos| == |txns| && |writeSets| == |txns| && |eventVecs| == |txns| && from <= |txns|
    ensures |r| == |txns| - from
  {
    seq(|txns| - from, i requires 0 <= i < |txns| - from =>
      ReplayItem(txns[from + i], txnInfos[from + i], writeSets[from + i], eventVecs[from + i]))
  }

  /** What one (already clipped) chunk contributes: the save call, if any, and
      its share of the replay stream. */
  datatype ChunkSplit = ChunkSplit(save: Option<SaveCall>, replay: seq<ReplayItem>)

  /** The save calls a split makes: none or one. */
  function SavesOf(s: ChunkSplit): seq<SaveCall> {
    if s.save.Some? then [s.save.value] else []
  }

  /** How many of the chunk's records a split hands to `save_transactions`. */
  function SavedCount(s: ChunkSplit): nat {
    if s.save.Some? then |s.save.value.txns| else 0
  }

  /** The split at the cutoff `firstToReplay`: the versions below the cutoff
      are saved, the versions at or above it are replayed. */
  function Split(c: LoadedChunk, firstToReplay: Version): (r: ChunkSplit)
    requires c.Valid()
    ensures r.save.Some? <==> c.manifest.firstVersion < firstToReplay
    ensures r.save.Some? && c.manifest.firstVersion <= c.manifest.lastVersion ==> SavedCount(r) > 0
    ensures SavedCount(r) + |r.replay| == |c.txns|
    ensures r.save.Some? ==> c.manifest.firstVersion + SavedCount(r) <= firstToReplay
    ensures |r.replay| > 0 ==> c.manifest.firstVersion + SavedCount(r) >= firstToReplay
  {
    var first := c.manifest.firstVersion;
    if first < firstToReplay then
      var numToSave := Min(firstToReplay, c.manifest.lastVersion as int + 1) - first;
      ChunkSplit(Some(SaveCall(first, c.txns[..numToSave], c.txnInfos[..numToSave], c.eventVecs[..numToSave])),
                 ZipFrom(c.txns, c.txnInfos, c.writeSets, c.eventVecs, numToSave))
    else ChunkSplit(None, ZipFrom(c.txns, c.txnInfos, c.writeSets, c.eventVecs, 0))
  }

  /** Clipping keeps a prefix of each vector: the records of the versions up
      to the target. */
  lemma ClipKeepsPrefix(c: LoadedChunk, target: Version)
    requires c.Valid() && c.manifest.firstVersion <= target
    ensures var r := Clip(c, target);
      && r.txns <= c.txns && r.txnInfos <= c.txnInfos && r.eventVecs <= c.eventVecs && r.writeSets <= c.writeSets
      && (target < c.manifest.lastVersion ==> 1 <= |r.txns| < |c.txns|)
  {
  }

  /** The save call holds the chunk's first records and the replay share is
      the rest, zipped in the order the replay stream wants. */
  lemma SplitContents(c: LoadedChunk, firstToReplay: Version)
    requires c.Valid()
    ensures var r := Split(c, firstToReplay);
      var n := SavedCount(r);
      && (r.save.Some? ==> r.save.value == SaveCall(c.manifest.firstVersion, c.txns[..n], c.txnInfos[..n], c.eventVecs[..n]))
      && r.replay == ZipFrom(c.txns, c.txnInfos, c.writeSets, c.eventVecs, n)
  {
  }

  /** The first version a split sends to replay: the cutoff, moved into the
      chunk's version range. */
  lemma SplitReplayStart(c: LoadedChunk, firstToReplay: Version)
    requires c.Valid()
    ensures c.manifest.firstVersion + SavedCount(Split(c, firstToReplay))
         == Clamp(firstToReplay, c.manifest.firstVersion, c.manifest.lastVersion + 1)
  {
  }

  /** The per-chunk body of `save_before_replay_version`, as the source runs
      it on the chunk's own vectors: truncate to the target, drain the prefix
      to save, zip what is left. */
  method SaveBeforeReplayChunk(chunk: LoadedChunk, target: Version, firstToReplay: Version)
    returns (save: Option<SaveCall>, replay: seq<ReplayItem>)
    requires chunk.Valid() && chunk.manifest.firstVersion <= target
    ensures ChunkSplit(save, replay) == Split(Clip(chunk, target), firstToReplay)
    ensures var kept := Min(chunk.manifest.lastVersion, target) + 1 - chunk.manifest.firstVersion;
      && (save.Some? ==> |save.value.txns| + |replay| == kept)
      && (save.None? ==> |replay| == kept)
      && (save.Some? ==> chunk.manifest.firstVersion + |save.value.txns| <= firstToReplay)
      && (|replay| > 0 ==> chunk.manifest.firstVersion + kept - |replay| >= firstToReplay)
  {
    var firstVersion := chunk.manifest.firstVersion;
    var lastVersion := chunk.manifest.lastVersion;
    var txns, txnInfos, eventVecs, writeSets := chunk.txns, chunk.txnInfos, chunk.eventVecs, chunk.writeSets;
    if target < lastVersion {
      var numToKeep := target - firstVersion + 1;
      txns := txns[..numToKeep];
      txnInfos := txnInfos[..numToKeep];
      eventVecs := eventVecs[..numToKeep];
      writeSets := writeSets[..numToKeep];
      lastVersion := target;
    }
    save := None;
    if firstVersion < firstToReplay {
      var numToSave := Min(firstToReplay, lastVersion as int + 1) - firstVersion;
      var txnsToSave := txns[..numToSave];
      txns := txns[numToSave..];
      var txnInfosToSave := txnInfos[..numToSave];
      txnInfos := txnInfos[numToSave..];
      var eventVecsToSave := eventVecs[..numToSave];
      eventVecs := eventVecs[numToSave..];
      writeSets := writeSets[numToSave..];
      save := Some(SaveCall(firstVersion, txnsToSave, txnInfosToSave, eventVecsToSave));
      var lastSaved := firstVersion + numToSave - 1;
      assert lastSaved < firstToReplay;
    }
    replay := ZipFrom(txns, txnInfos, writeSets, eventVecs, 0);
    var clipped := Clip(chunk, target);
    var expected := Split(clipped, firstToReplay);
    SplitContents(clipped, firstToReplay);
    assert save == expected.save;
    assert replay == expected.replay by {
      var n := SavedCount(expected);
      assert txns == clipped.txns[n..] && txnInfos == clipped.txnInfos[n..];
      assert writeSets == clipped.writeSets[n..] && eventVecs == clipped.eventVecs[n..];
    }
  }

  /** What each chunk contributes, in stream order. */
  function Shares(chunks: seq<LoadedChunk>, target: Version, firstToReplay: Version): (r: seq<ChunkSplit>)
    requires forall j :: 0 <= j < |chunks| ==> chunks[j].Valid() && chunks[j].manifest.firstVersion <= target
    ensures |r| == |chunks|
  {
    seq(|chunks|, j requires 0 <= j < |chunks| => Split(Clip(chunks[j], target), firstToReplay))
  }

  /** The save calls of a sequence of chunk contributions, in order. */
  function AllSaves(shares: seq<ChunkSplit>): (r: seq<SaveCall>)
    ensures |r| <= |shares|
  {
    if shares == [] then [] else SavesOf(shares[0]) + AllSaves(shares[1..])
  }

  /** The replay stream of a sequence of chunk contributions: their shares,
      flattened in order. */
  function AllReplay(shares: seq<ChunkSplit>): seq<ReplayItem> {
    if shares == [] then [] else shares[0].replay + AllReplay(shares[1..])
  }

  /** The save calls and the replay stream of a sequence of loaded chunks. */
  function SaveAndReplay(chunks: seq<LoadedChunk>, target: Version, firstToReplay: Version): (r: (seq<SaveCall>, seq<ReplayItem>))
    requires forall j :: 0 <= j < |chunks| ==> chunks[j].Valid() && chunks[j].manifest.firstVersion <= target
    ensures |r.0| <= |chunks|
  {
    var shares := Shares(chunks, target, firstToReplay);
    (AllSaves(shares), AllReplay(shares))
  }

  /** The entries for every version a chunk keeps under `target`. */
  function ChunkItems(c: LoadedChunk, target: Version): (r: seq<ReplayItem>)
    requires c.Valid() && c.manifest.firstVersion <= target
    ensures |r| == Min(c.manifest.lastVersion, target) + 1 - c.manifest.firstVersion
  {
    var k := Clip(c, target);
    ZipFrom(k.txns, k.txnInfos, k.writeSets, k.eventVecs, 0)
  }

  /** The replay entries of every version kept from `chunks` under
      `target`, in version order. */
  function KeptItems(chunks: seq<LoadedChunk>, target: Version): seq<ReplayItem>
    requires forall j :: 0 <= j < |chunks| ==> chunks[j].Valid() && chunks[j].manifest.firstVersion <= target
  {
    Flatten(ItemsPerChunk(chunks, target))
  }

  function ItemsPerChunk(chunks: seq<LoadedChunk>, target: Version): (r: seq<seq<ReplayItem>>)
    requires forall j :: 0 <= j < |chunks| ==> chunks[j].Valid() && chunks[j].manifest.firstVersion <= target
    ensures |r| == |chunks|
  {
    seq(|chunks|, j requires 0 <= j < |chunks| => ChunkItems(chunks[j], target))
  }

  /** The save calls, in call order, cover the versions `lo .. hi - 1`
      exactly: each call saves at least one version and starts where the
      previous one ended. */
  predicate Covers(saves: seq<SaveCall>, lo: int, hi: int)
    decreases |saves|
  {
    if saves == [] then lo == hi
    else saves[0].firstVersion == lo && |saves[0].txns| > 0 && Covers(saves[1..], lo + |saves[0].txns|, hi)
  }

  /** Strictly consecutive version ranges. */
  predicate Contiguous(chunks: seq<LoadedChunk>) {
    forall j :: 0 <= j < |chunks| - 1 ==> chunks[j + 1].manifest.firstVersion == chunks[j].manifest.lastVersion + 1
  }

  /** The end (exclusive) of the versions kept from `chunks` under `target`. */
  function KeptEnd(chunks: seq<LoadedChunk>, target: Version): int
    requires chunks != []
  {
    Min(target, chunks[|chunks| - 1].manifest.lastVersion) + 1
  }

  /** Calls covering adjacent ranges, one after the other, cover their union. */
  lemma {:induction false} CoversAppend(a: seq<SaveCall>, b: seq<SaveCall>, lo: int, mid: int, hi: int)
    requires Covers(a, lo, mid) && Covers(b, mid, hi)
    ensures Covers(a + b, lo, hi)
    decreases |a|
  {
    if a == [] {
      assert a + b == b;
    } else {
      assert (a + b)[0] == a[0] && (a + b)[1..] == a[1..] + b;
      CoversAppend(a[1..], b, lo + |a[0].txns|, mid, hi);
    }
  }

  /** Every call of a covering lies inside the covered range. */
  lemma {:induction false} CoversBounds(saves: seq<SaveCall>, lo: int, hi: int)
    requires Covers(saves, lo, hi)
    ensures lo <= hi && (saves != [] ==> lo < hi)
    ensures forall i :: 0 <= i < |saves| ==> lo <= saves[i].firstVersion && saves[i].firstVersion + |saves[i].txns| <= hi
    decreases |saves|
  {
    if saves != [] {
      CoversBounds(saves[1..], lo + |saves[0].txns|, hi);
      forall i | 1 <= i < |saves| ensures saves[i] == saves[1..][i - 1] { }
    }
  }

  /** What one chunk contributes, in versions: its save call covers the kept
      versions below the clamped cutoff, its replay share holds its kept
      entries from the cutoff on. */
  lemma ChunkContribution(c: LoadedChunk, target: Version, firstToReplay: Version)
    requires c.Valid() && c.manifest.firstVersion <= target && c.manifest.firstVersion <= c.manifest.lastVersion
    ensures var f := c.manifest.firstVersion;
      var e := Min(c.manifest.lastVersion, target) + 1;
      var s := Split(Clip(c, target), firstToReplay);
      && f <= e
      && |ChunkItems(c, target)| == e - f
      && PartFits(s, ChunkItems(c, target), f, Clamp(firstToReplay, f, e))
  {
    var k := Clip(c, target);
    var s := Split(k, firstToReplay);
    SplitReplayStart(k, firstToReplay);
    SplitContents(k, firstToReplay);
    ZipFromDrop(k.txns, k.txnInfos, k.writeSets, k.eventVecs, SavedCount(s));
  }

  /** Zipping from `from` is zipping everything and dropping the first
      `from` entries. */
  lemma ZipFromDrop(txns: seq<Transaction>, txnInfos: seq<TransactionInfo>, writeSets: seq<WriteSet>,
                    eventVecs: seq<seq<ContractEvent>>, from: nat)
    requires |txnInfos| == |txns| && |writeSets| == |txns| && |eventVecs| == |txns| && from <= |txns|
    ensures ZipFrom(txns, txnInfos, writeSets, eventVecs, from) == ZipFrom(txns, txnInfos, writeSets, eventVecs, 0)[from..]
  {
  }

  /** The partition over abstract contributions: the parts' spans follow one
      another from `lo` on, each as long as its entries, and each part saves
      the part of its span below the clamped cutoff and replays its entries
      from the cutoff on. Then the joined save calls cover the whole span
      below the cutoff (and, by `JoinReplay`, the joined replay stream is the
      flattened entries from the cutoff on). */
  lemma {:induction false} JoinSaves(shares: seq<ChunkSplit>, items: seq<seq<ReplayItem>>, lo: int, cutoff: int)
    requires |shares| == |items|
    requires PartsFit(shares, items, lo, cutoff)
    ensures SavesCover(shares, items, lo, cutoff)
    decreases |shares|
  {
    if shares == [] {
      assert Flatten(items) == [] && AllSaves(shares) == [];
    } else {
      JoinSaves(shares[1..], items[1..], lo + |items[0]|, cutoff);
      SavesStep(shares, items, lo, cutoff);
    }
  }

  /** The replay half of the partition, by the same induction. */
  lemma {:induction false} JoinReplay(shares: seq<ChunkSplit>, items: seq<seq<ReplayItem>>, lo: int, cutoff: int)
    requires |shares| == |items|
    requires PartsFit(shares, items, lo, cutoff)
    ensures ReplayIsTail(shares, items, lo, cutoff)
    decreases |shares|
  {
    if shares == [] {
      assert Flatten(items) == [] && AllReplay(shares) == [];
    } else {
      JoinReplay(shares[1..], items[1..], lo + |items[0]|, cutoff);
      ReplayStep(shares, items, lo, cutoff);
    }
  }

  /** The joined save calls of parts starting at `lo` cover the span below
      the clamped cutoff. */
  predicate SavesCover(shares: seq<ChunkSplit>, items: seq<seq<ReplayItem>>, lo: int, cutoff: int) {
    Covers(AllSaves(shares), lo, Clamp(cutoff, lo, lo + |Flatten(items)|))
  }

  /** The joined replay stream of parts starting at `lo` is their flattened
      entries from the clamped cutoff on. */
  predicate ReplayIsTail(shares: seq<ChunkSplit>, items: seq<seq<ReplayItem>>, lo: int, cutoff: int) {
    AllReplay(shares) == Flatten(items)[Clamp(cutoff, lo, lo + |Flatten(items)|) - lo..]
  }

  /** A part's save call covers `lo .. cut - 1` and its replay share is its
      entries from `cut - lo` on. */
  predicate PartFits(s: ChunkSplit, items: seq<ReplayItem>, lo: int, cut: int)
  {
    && (s.save.Some? ==> s.save.value.firstVersion == lo && |s.save.value.txns| == cut - lo > 0)
    && (s.save.None? ==> cut == lo)
    && lo <= cut <= lo + |items|
    && s.replay == items[cut - lo..]
  }

  /** The hypotheses of the partition, for abstract parts starting at `lo`:
      each part fits its span at the clamped cutoff, and the next span starts
      where it ends. */
  predicate PartsFit(shares: seq<ChunkSplit>, items: seq<seq<ReplayItem>>, lo: int, cutoff: int)
    requires |shares| == |items|
    decreases |shares|
  {
    shares == [] ||
    (&& PartFits(shares[0], items[0], lo, Clamp(cutoff, lo, lo + |items[0]|))
     && PartsFit(shares[1..], items[1..], lo + |items[0]|, cutoff))
  }

  /** Part `j` fits its span, which starts at `lo[j]`. */
  predicate FitsAt(shares: seq<ChunkSplit>, items: seq<seq<ReplayItem>>, lo: seq<int>, cutoff: int, j: nat)
    requires |shares| == |items| == |lo| && j < |shares|
  {
    PartFits(shares[j], items[j], lo[j], Clamp(cutoff, lo[j], lo[j] + |items[j]|))
  }

  /** Span `j + 1` starts where span `j` ends. */
  predicate AdjacentAt(items: seq<seq<ReplayItem>>, lo: seq<int>, j: nat)
    requires |items| == |lo| && j + 1 < |lo|
  {
    lo[j + 1] == lo[j] + |items[j]|
  }

  /** Part-by-part facts establish the hypotheses for every suffix, and the
      suffix's entries run up to `end`. */
  lemma {:induction false} PartsFitFrom(shares: seq<ChunkSplit>, items: seq<seq<ReplayItem>>, lo: seq<int>, end: int,
                                        cutoff: int, k: nat)
    requires |shares| == |items| == |lo| > 0 && k < |shares|
    requires forall j: nat :: k <= j < |lo| ==> FitsAt(shares, items, lo, cutoff, j)
    requires forall j: nat :: k <= j < |lo| - 1 ==> AdjacentAt(items, lo, j)
    requires lo[|lo| - 1] + |items[|lo| - 1]| == end
    ensures PartsFit(shares[k..], items[k..], lo[k], cutoff)
    ensures lo[k] + |Flatten(items[k..])| == end
    decreases |shares| - k
  {
    var rest, restItems := shares[k..][1..], items[k..][1..];
    assert FitsAt(shares, items, lo, cutoff, k);
    if k == |shares| - 1 {
      assert rest == [] && restItems == [];
    } else {
      PartsFitFrom(shares, items, lo, end, cutoff, k + 1);
      assert rest == shares[k + 1..] && restItems == items[k + 1..];
      assert AdjacentAt(items, lo, k);
      assert Flatten(items[k..]) == items[k] + Flatten(restItems);
    }
  }

  /** A part that fits covers its own range. */
  lemma PartCovers(s: ChunkSplit, items: seq<ReplayItem>, lo: int, cut: int)
    requires PartFits(s, items, lo, cut)
    ensures Covers(SavesOf(s), lo, cut)
  {
    if s.save.Some? {
      var head := [s.save.value];
      assert head[1..] == [];
    }
  }

  /** One part's save call in front of the rest's. */
  lemma SavesStep(shares: seq<ChunkSplit>, items: seq<seq<ReplayItem>>, f0: int, cutoff: int)
    requires |shares| == |items| > 0
    requires PartFits(shares[0], items[0], f0, Clamp(cutoff, f0, f0 + |items[0]|))
    requires SavesCover(shares[1..], items[1..], f0 + |items[0]|, cutoff)
    ensures SavesCover(shares, items, f0, cutoff)
  {
    var mid := f0 + |items[0]|;
    var tail := Flatten(items[1..]);
    var e := mid + |tail|;
    assert Covers(AllSaves(shares[1..]), mid, Clamp(cutoff, mid, e));
    assert AllSaves(shares) == SavesOf(shares[0]) + AllSaves(shares[1..]);
    assert f0 + |Flatten(items)| == e by {
      assert Flatten(items) == items[0] + tail;
    }
    PartCovers(shares[0], items[0], f0, Clamp(cutoff, f0, mid));
    CombineCovers(SavesOf(shares[0]), AllSaves(shares[1..]), f0, mid, e, cutoff);
  }

  /** One part's replay share in front of the rest's. */
  lemma ReplayStep(shares: seq<ChunkSplit>, items: seq<seq<ReplayItem>>, f0: int, cutoff: int)
    requires |shares| == |items| > 0
    requires PartFits(shares[0], items[0], f0, Clamp(cutoff, f0, f0 + |items[0]|))
    requires ReplayIsTail(shares[1..], items[1..], f0 + |items[0]|, cutoff)
    ensures ReplayIsTail(shares, items, f0, cutoff)
  {
    var mid := f0 + |items[0]|;
    var tail := Flatten(items[1..]);
    var e := mid + |tail|;
    var rest := AllReplay(shares[1..]);
    assert rest == tail[Clamp(cutoff, mid, e) - mid..];
    assert AllReplay(shares) == shares[0].replay + rest;
    assert Flatten(items) == items[0] + tail;
    SpliceReplay(items[0], tail, shares[0].replay, rest, f0, mid, e, cutoff);
  }

  /** The cutoff splits two adjacent ranges as it splits their union. */
  lemma CombineCovers(a: seq<SaveCall>, b: seq<SaveCall>, f0: int, mid: int, e: int, cutoff: int)
    requires f0 <= mid <= e
    requires Covers(a, f0, Clamp(cutoff, f0, mid)) && Covers(b, mid, Clamp(cutoff, mid, e))
    ensures Covers(a + b, f0, Clamp(cutoff, f0, e))
  {
    if cutoff > mid {
      CoversAppend(a, b, f0, mid, Clamp(cutoff, f0, e));
    } else {
      CoversBounds(b, mid, mid);
      assert a + b == a;
    }
  }

  /** Cutting two adjacent runs at the cutoff and joining the tails is cutting
      their concatenation. */
  lemma SpliceReplay<T>(z: seq<T>, kr: seq<T>, sr: seq<T>, rr: seq<T>, f0: int, mid: int, e: int, cutoff: int)
    requires f0 <= mid <= e && |z| == mid - f0 && |kr| == e - mid
    requires sr == z[Clamp(cutoff, f0, mid) - f0..]
    requires rr == kr[Clamp(cutoff, mid, e) - mid..]
    ensures sr + rr == (z + kr)[Clamp(cutoff, f0, e) - f0..]
  {
    if cutoff <= mid {
      assert rr == kr;
    } else {
      assert sr == [];
    }
  }

  /** `saves` and `replay` split the versions kept from `chunks` under
      `target` (which run from the first chunk's first version up to
      `KeptEnd`) at the cutoff clamped into that span: the save calls cover,
      in order and without gaps, the versions below it, and the replay
      stream is exactly the entries of the versions from it on. */
  predicate PartitionsAt(saves: seq<SaveCall>, replay: seq<ReplayItem>, chunks: seq<LoadedChunk>, target: Version, cutoff: int)
    requires chunks != []
    requires forall j :: 0 <= j < |chunks| ==> chunks[j].Valid() && chunks[j].manifest.firstVersion <= target
  {
    var f0 := chunks[0].manifest.firstVersion;
    var e := KeptEnd(chunks, target);
    && f0 <= e
    && |KeptItems(chunks, target)| == e - f0
    && Covers(saves, f0, Clamp(cutoff, f0, e))
    && replay == KeptItems(chunks, target)[Clamp(cutoff, f0, e) - f0..]
  }

  /** The partition `save_before_replay_version` achieves over contiguous,
      non-empty chunks: the save calls cover, in order and without gaps, the
      kept versions below the clamped cutoff, and the replay stream holds
      exactly the entries of the kept versions from the cutoff on, so nothing
      beyond the target is replayed. */
  lemma SaveReplayPartition(chunks: seq<LoadedChunk>, target: Version, firstToReplay: Version)
    requires chunks != [] && Contiguous(chunks)
    requires forall j :: 0 <= j < |chunks| ==> chunks[j].Valid() && chunks[j].manifest.firstVersion <= target
    requires forall j :: 0 <= j < |chunks| ==> chunks[j].manifest.firstVersion <= chunks[j].manifest.lastVersion
    ensures PartitionsAt(SaveAndReplay(chunks, target, firstToReplay).0, SaveAndReplay(chunks, target, firstToReplay).1,
                         chunks, target, firstToReplay)
  {
    var shares := Shares(chunks, target, firstToReplay);
    var items := ItemsPerChunk(chunks, target);
    var f0 := chunks[0].manifest.firstVersion;
    PartitionHypotheses(chunks, target, firstToReplay);
    JoinSaves(shares, items, f0, firstToReplay);
    JoinReplay(shares, items, f0, firstToReplay);
    assert SavesCover(shares, items, f0, firstToReplay) && ReplayIsTail(shares, items, f0, firstToReplay);
    assert KeptItems(chunks, target) == Flatten(items);
  }

  /** The chunks meet the hypotheses of the partition, starting at the first
      chunk's first version. */
  lemma PartitionHypotheses(chunks: seq<LoadedChunk>, target: Version, firstToReplay: Version)
    requires chunks != [] && Contiguous(chunks)
    requires forall j :: 0 <= j < |chunks| ==> chunks[j].Valid() && chunks[j].manifest.firstVersion <= target
    requires forall j :: 0 <= j < |chunks| ==> chunks[j].manifest.firstVersion <= chunks[j].manifest.lastVersion
    ensures PartsFit(Shares(chunks, target, firstToReplay), ItemsPerChunk(chunks, target), chunks[0].manifest.firstVersion, firstToReplay)
    ensures chunks[0].manifest.firstVersion + |Flatten(ItemsPerChunk(chunks, target))| == KeptEnd(chunks, target)
  {
    var n := |chunks|;
    var shares := Shares(chunks, target, firstToReplay);
    var items := ItemsPerChunk(chunks, target);
    var lo := seq(n, j requires 0 <= j < n => chunks[j].manifest.firstVersion as int);
    forall j: nat | j < n ensures FitsAt(shares, items, lo, firstToReplay, j) {
      ChunkContribution(chunks[j], target, firstToReplay);
    }
    forall j: nat | j < n - 1 ensures AdjacentAt(items, lo, j) {
      // Only the last chunk can reach past the target.
      assert chunks[j + 1].manifest.firstVersion == chunks[j].manifest.lastVersion + 1 <= target;
    }
    PartsFitFrom(shares, items, lo, KeptEnd(chunks, target), firstToReplay, 0);
    assert shares[0..] == shares && items[0..] == items;
  }

  /** Every saved version lies below the cutoff and every replayed one at or
      above it: a resumed restore never replays what the database already has,
      and never saves what it is asked to replay. */
  lemma SavedBelowReplayedAbove(chunks: seq<LoadedChunk>, target: Version, firstToReplay: Version)
    requires chunks != [] && Contiguous(chunks)
    requires forall j :: 0 <= j < |chunks| ==> chunks[j].Valid() && chunks[j].manifest.firstVersion <= target
    requires forall j :: 0 <= j < |chunks| ==> chunks[j].manifest.firstVersion <= chunks[j].manifest.lastVersion
    ensures chunks[0].manifest.firstVersion <= KeptEnd(chunks, target)
    ensures var saves := SaveAndReplay(chunks, target, firstToReplay).0;
      forall i :: 0 <= i < |saves| ==> saves[i].firstVersion + |saves[i].txns| <= firstToReplay
    ensures |SaveAndReplay(chunks, target, firstToReplay).1| > 0 ==>
      Clamp(firstToReplay, chunks[0].manifest.firstVersion, KeptEnd(chunks, target)) >= firstToReplay
  {
    SaveReplayPartition(chunks, target, firstToReplay);
    var cut := Clamp(firstToReplay, chunks[0].manifest.firstVersion, KeptEnd(chunks, target));
    CoversBounds(SaveAndReplay(chunks, target, firstToReplay).0, chunks[0].manifest.firstVersion, cut);
  }
}
