/** `LoadedChunk::load`: read a chunk's records into four vectors, check the
    record count against the declared version span, then authenticate. */
module ChunkLoader {
  import opened RestoreTypes

  function Txns(records: seq<Record>): (r: seq<Transaction>)
    ensures |r| == |records| && forall i :: 0 <= i < |r| ==> r[i] == records[i].txn
  {
    seq(|records|, i requires 0 <= i < |records| => records[i].txn)
  }

  function TxnInfos(records: seq<Record>): (r: seq<TransactionInfo>)
    ensures |r| == |records| && forall i :: 0 <= i < |r| ==> r[i] == records[i].txnInfo
  {
    seq(|records|, i requires 0 <= i < |records| => records[i].txnInfo)
  }

  function EventVecs(records: seq<Record>): (r: seq<seq<ContractEvent>>)
    ensures |r| == |records| && forall i :: 0 <= i < |r| ==> r[i] == records[i].events
  {
    seq(|records|, i requires 0 <= i < |records| => records[i].events)
  }

  function WriteSets(records: seq<Record>): (r: seq<WriteSet>)
    ensures |r| == |records| && forall i :: 0 <= i < |r| ==> r[i] == records[i].writeSet
  {
    seq(|records|, i requires 0 <= i < |records| => records[i].writeSet)
  }

  /** The records a loaded chunk holds, rebuilt from its four vectors. */
  function Records(c: LoadedChunk): (r: seq<Record>)
    requires c.Valid()
    ensures |r| == |c.txns|
  {
    seq(|c.txns|, i requires 0 <= i < |c.txns| => Record(c.txns[i], c.txnInfos[i], c.eventVecs[i], c.writeSets[i]))
  }

  /** The condition under which loading fails with a count mismatch. */
  predicate CountMatches(manifest: TransactionChunk, count: nat) {
    manifest.firstVersion + count == manifest.lastVersion + 1
  }

  /** What loading `manifest` from `storage` yields; `checkEpoch` says whether
      an epoch history was supplied. The checks fail in source order: the
      records file opens, the count matches the span (the error names both),
      the proof file opens, the ledger info is trusted, the range proof holds. */
  function Load(manifest: TransactionChunk, storage: BackupStorage, checkEpoch: bool): (r: Result<LoadedChunk>)
    ensures r.Ok? ==> r.value.manifest == manifest && r.value.Valid()
    ensures manifest.transactions !in storage.recordFiles ==> r == Err(FileOpenFailed(manifest.transactions))
    ensures manifest.transactions in storage.recordFiles ==>
      var count := |storage.recordFiles[manifest.transactions]|;
      && (!CountMatches(manifest, count) ==>
            r == Err(CountMismatch(manifest.firstVersion, manifest.lastVersion, count)))
      && (CountMatches(manifest, count) && manifest.proof !in storage.proofFiles ==>
            r == Err(FileOpenFailed(manifest.proof)))
      && (CountMatches(manifest, count) && manifest.proof in storage.proofFiles ==>
            var proof := storage.proofFiles[manifest.proof];
            && (checkEpoch && !proof.ledgerInfoTrusted ==> r == Err(LedgerInfoUntrusted(manifest.firstVersion)))
            && ((checkEpoch ==> proof.ledgerInfoTrusted) && !proof.rangeProofVerifies ==>
                  r == Err(ProofVerificationFailed(manifest.firstVersion)))
            && ((checkEpoch ==> proof.ledgerInfoTrusted) && proof.rangeProofVerifies ==> r.Ok?))
  {
    if manifest.transactions !in storage.recordFiles then Err(FileOpenFailed(manifest.transactions))
    else
      var records := storage.recordFiles[manifest.transactions];
      if !CountMatches(manifest, |records|) then
        Err(CountMismatch(manifest.firstVersion, manifest.lastVersion, |records|))
      else if manifest.proof !in storage.proofFiles then Err(FileOpenFailed(manifest.proof))
      else if checkEpoch && !storage.proofFiles[manifest.proof].ledgerInfoTrusted then
        Err(LedgerInfoUntrusted(manifest.firstVersion))
      else if !storage.proofFiles[manifest.proof].rangeProofVerifies then
        Err(ProofVerificationFailed(manifest.firstVersion))
      else Ok(LoadedChunk(manifest, Txns(records), TxnInfos(records), EventVecs(records), WriteSets(records)))
  }

  /** The record loop and the checks after it, as the source runs them. */
  method LoadChunk(manifest: TransactionChunk, storage: BackupStorage, checkEpoch: bool) returns (r: Result<LoadedChunk>)
    ensures r == Load(manifest, storage, checkEpoch)
    ensures r.Ok? <==>
      && manifest.transactions in storage.recordFiles
      && CountMatches(manifest, |storage.recordFiles[manifest.transactions]|)
      && manifest.proof in storage.proofFiles
      && (checkEpoch ==> storage.proofFiles[manifest.proof].ledgerInfoTrusted)
      && storage.proofFiles[manifest.proof].rangeProofVerifies
    ensures r.Ok? ==>
      && r.value.manifest == manifest && r.value.Valid()
      && Records(r.value) == storage.recordFiles[manifest.transactions]
  {
    if manifest.transactions !in storage.recordFiles {
      return Err(FileOpenFailed(manifest.transactions));
    }
    var file := storage.recordFiles[manifest.transactions];
    var txns: seq<Transaction> := [];
    var txnInfos: seq<TransactionInfo> := [];
    var eventVecs: seq<seq<ContractEvent>> := [];
    var writeSets: seq<WriteSet> := [];
    var next := 0;
    while next < |file|
      invariant 0 <= next <= |file|
      invariant txns == Txns(file[..next]) && txnInfos == TxnInfos(file[..next])
      invariant eventVecs == EventVecs(file[..next]) && writeSets == WriteSets(file[..next])
    {
      var record := file[next];
      txns := txns + [record.txn];
      txnInfos := txnInfos + [record.txnInfo];
      eventVecs := eventVecs + [record.events];
      writeSets := writeSets + [record.writeSet];
      next := next + 1;
    }
    assert file[..next] == file;
    if manifest.firstVersion + |txns| != manifest.lastVersion + 1 {
      return Err(CountMismatch(manifest.firstVersion, manifest.lastVersion, |txns|));
    }
    if manifest.proof !in storage.proofFiles {
      return Err(FileOpenFailed(manifest.proof));
    }
    var proof := storage.proofFiles[manifest.proof];
    if checkEpoch && !proof.ledgerInfoTrusted {
      return Err(LedgerInfoUntrusted(manifest.firstVersion));
    }
    if !proof.rangeProofVerifies {
      return Err(ProofVerificationFailed(manifest.firstVersion));
    }
    r := Ok(LoadedChunk(manifest, txns, txnInfos, eventVecs, writeSets));
    LoadedRecordsRoundTrip(manifest, file);
  }

  /** Splitting the records into four vectors and zipping them back loses nothing. */
  lemma LoadedRecordsRoundTrip(manifest: TransactionChunk, records: seq<Record>)
    requires CountMatches(manifest, |records|)
    ensures LoadedChunk(manifest, Txns(records), TxnInfos(records), EventVecs(records), WriteSets(records)).Valid()
    ensures Records(LoadedChunk(manifest, Txns(records), TxnInfos(records), EventVecs(records), WriteSets(records))) == records
  {
    var c := LoadedChunk(manifest, Txns(records), TxnInfos(records), EventVecs(records), WriteSets(records));
    forall i | 0 <= i < |records| ensures Records(c)[i] == records[i] {
    }
  }

  /** A successfully loaded chunk holds exactly the records of its
      transaction file. */
  lemma LoadOk(manifest: TransactionChunk, storage: BackupStorage, checkEpoch: bool)
    requires Load(manifest, storage, checkEpoch).Ok?
    ensures Records(Load(manifest, storage, checkEpoch).value) == storage.recordFiles[manifest.transactions]
  {
    LoadedRecordsRoundTrip(manifest, storage.recordFiles[manifest.transactions]);
  }
}
