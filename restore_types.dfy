/** Shared vocabulary of the transaction restore pipeline: versions, chunk
    descriptors, loaded chunks, errors, and the backup storage as seen by the
    pipeline. */
module RestoreTypes {

  /** Largest value of the source's 64-bit unsigned `Version`. */
  const VERSION_MAX: nat := 0xFFFF_FFFF_FFFF_FFFF

  /** A ledger version (`u64`). */
  type Version = v: nat | v <= VERSION_MAX

  /** Name of a file in the backup storage. */
  type FileHandle = string

  /** The payload types of a transaction record; the pipeline never looks inside them. */
  type Transaction
  type TransactionInfo
  type ContractEvent
  type WriteSet

  /** One decoded record of a chunk's transaction file. */
  datatype Record = Record(txn: Transaction, txnInfo: TransactionInfo, events: seq<ContractEvent>, writeSet: WriteSet)

  /** One entry of the flattened replay stream, in the order the source zips it. */
  datatype ReplayItem = ReplayItem(txn: Transaction, txnInfo: TransactionInfo, writeSet: WriteSet, events: seq<ContractEvent>)

  /** A chunk as described by a transaction backup manifest. */
  datatype TransactionChunk = TransactionChunk(firstVersion: Version, lastVersion: Version, transactions: FileHandle, proof: FileHandle)

  /** A top-level transaction backup manifest: its chunks, and the outcome of its
      own consistency check (`TransactionBackup::verify`, which is not part of
      this model). */
  datatype TransactionBackup = TransactionBackup(chunks: seq<TransactionChunk>, selfCheckPasses: bool)

  /** The outcome of the two external checks on a chunk's proof file: the
      ledger info's signatures against the epoch history, and the range proof
      against the ledger info. */
  datatype ProofFile = ProofFile(ledgerInfoTrusted: bool, rangeProofVerifies: bool)

  /** The backup storage: what each handle yields when it is read. A handle
      missing from its map fails to open. */
  datatype BackupStorage = BackupStorage(
    manifests: map<FileHandle, TransactionBackup>,
    recordFiles: map<FileHandle, seq<Record>>,
    proofFiles: map<FileHandle, ProofFile>)

  /** A chunk whose records were read and authenticated: the descriptor and
      four parallel vectors, one entry per record. */
  datatype LoadedChunk = LoadedChunk(
    manifest: TransactionChunk,
    txns: seq<Transaction>,
    txnInfos: seq<TransactionInfo>,
    eventVecs: seq<seq<ContractEvent>>,
    writeSets: seq<WriteSet>)
  {
    /** The invariant `LoadedChunk::load` establishes: four vectors of equal
        length, exactly one entry per version of `[firstVersion, lastVersion]`. */
    predicate Valid() {
      && |txnInfos| == |txns|
      && |eventVecs| == |txns|
      && |writeSets| == |txns|
      && manifest.firstVersion + |txns| == manifest.lastVersion + 1
    }
  }

  /** The arguments of one `RestoreHandler::save_transactions` call. */
  datatype SaveCall = SaveCall(firstVersion: Version, txns: seq<Transaction>, txnInfos: seq<TransactionInfo>, eventVecs: seq<seq<ContractEvent>>)

  /** The error conditions of the pipeline. */
  datatype RestoreError =
    | ManifestFetchFailed(handle: FileHandle)
    | ManifestInvalid
    | ChunkRangeNotConsecutive(expecting: int, got: Version)
    | FileOpenFailed(handle: FileHandle)
    | CountMismatch(firstVersion: Version, lastVersion: Version, items: nat)
    | LedgerInfoUntrusted(firstVersion: Version)
    | ProofVerificationFailed(firstVersion: Version)
    | LoadedChunkStreamEmpty
    | ReplayFromVersionMissing

  datatype Option<T> = None | Some(value: T)

  datatype Result<T> = Ok(value: T) | Err(error: RestoreError)

  datatype Outcome = Pass | Fail(error: RestoreError)

  /** The items of `parts`, in order. */
  function Flatten<T>(parts: seq<seq<T>>): seq<T> {
    if parts == [] then [] else parts[0] + Flatten(parts[1..])
  }

  lemma {:induction false} FlattenAppend<T>(a: seq<seq<T>>, b: seq<seq<T>>)
    ensures Flatten(a + b) == Flatten(a) + Flatten(b)
    decreases |a|
  {
    if a == [] {
      assert a + b == b;
    } else {
      assert (a + b)[0] == a[0] && (a + b)[1..] == a[1..] + b;
      FlattenAppend(a[1..], b);
    }
  }
}
