/** The stores that move together with the vector store: the BM25 index, the embedding model and the
    ingestion history (src/ingestion/storage/bm25_indexer.py, src/libs/embedding/local_lsa_embedding.py,
    src/ingestion/corpus_processor.py).

    As in the corpus swap, a failing external call has no effect, and a method returns false where
    the source raises. */
module IndexStores {
  import opened Outcomes
  import opened Corpus
  import opened Resync
  import opened ExternalCalls

  datatype Status = Success | Failure

  /** A file that a history record lists as its own. */
  datatype Artifact = DocumentArtifact(path: string) | ChunkArtifact(path: string) | ImageArtifact(path: string)

  /** `source` is the source path in the metadata, `path` the column beside it. */
  datatype Row = Row(
    path: string,
    source: Option<string>,
    status: Status,
    error: Option<string>,
    artifacts: seq<Artifact>,
    details: string,
    processedAt: nat)

  /** A history record is keyed by file hash and collection. */
  datatype RowKey = RowKey(fileHash: string, collection: string)

  type History = map<RowKey, Row>

  /** Equal but for the time of processing. */
  predicate SameRow(a: Row, b: Row) {
    a.(processedAt := 0) == b.(processedAt := 0)
  }

  /** What `restore_history` writes back for a captured record. */
  function RestoredRow(row: Row, now: nat): Row {
    if row.status == Success then row.(error := None, processedAt := now)
    else row.(error := Some(RestoredError(row.error)), processedAt := now)
  }

  /** `snapshot.error_msg or "restored ingestion failure"`. */
  function RestoredError(error: Option<string>): string {
    if error.Some? && error.value != "" then error.value else "restored ingestion failure"
  }

  /** Restoring gives the record back exactly when it is a success, or a failure that says why. */
  lemma RestoreFaithfulIff(row: Row, now: nat)
    ensures SameRow(RestoredRow(row, now), row) <==>
            (row.status == Success && row.error == None) ||
            (row.status == Failure && row.error.Some? && row.error.value != "")
  {
    if row.error == Some("") {
      assert RestoredError(row.error) != "";
    }
  }

  /** A failure recorded without a message comes back with one. */
  lemma SilentFailureNotRestored(now: nat)
    ensures var row := Row("a.pdf", None, Failure, Some(""), [], "", now);
            !SameRow(RestoredRow(row, now), row)
  {
    RestoreFaithfulIff(Row("a.pdf", None, Failure, Some(""), [], "", now), now);
  }

  class CoordinatedStores {
    const calls: Calls
    // BM25Indexer: the documents in memory and in the index file
    var documents: SparseIndex
    var indexFile: SparseIndex
    // LocalLSAEmbedding: the model in memory, its file, and what prepare_fit keeps for a rollback
    var model: Option<Model>
    var modelFile: Option<Model>
    var preparedBackup: Option<Option<Model>>
    var preparedFile: Option<Model>
    // SQLiteIntegrityChecker
    var history: History
    // flags of the indexing run in progress
    var sparseAttempted: bool
    var modelPrepared: bool

    constructor (calls: Calls)
      ensures this.calls == calls && !sparseAttempted && !modelPrepared
      ensures documents == map[] && indexFile == map[] && history == map[]
      ensures model == None && modelFile == None && preparedBackup == None && preparedFile == None
    {
      this.calls := calls;
      documents, indexFile, history := map[], map[], map[];
      model, modelFile, preparedBackup, preparedFile := None, None, None, None;
      sparseAttempted, modelPrepared := false, false;
    }

    method LoadSparse() returns (ok: bool)
      modifies this`documents, calls`failed
      ensures documents == if ok then indexFile else old(documents)
      ensures calls.failed == old(calls.failed) + if ok then 0 else 1
    {
      ok := calls.Forward();
      if ok {
        documents := indexFile;
      }
    }

    /** `BM25Indexer.build`: memory first, then the file in one atomic replacement. */
    method BuildSparse(index: SparseIndex, undo: bool) returns (ok: bool)
      modifies this`documents, this`indexFile, calls
      ensures indexFile == if ok then index else old(indexFile)
      ensures ok ==> documents == index
      ensures !ok ==> documents == index || documents == old(documents)
      ensures calls.Failures(undo) == old(calls.Failures(undo)) + if ok then 0 else 1
      ensures calls.Failures(!undo) == old(calls.Failures(!undo))
    {
      ok := calls.Try(undo);
      if !ok {
        return false;
      }
      documents := index;
      ok := calls.Try(undo);
      if ok {
        indexFile := index;
      }
    }

    /** Nothing is prepared, or what is prepared gives back this memory and this file. */
    predicate Prepared(memory: Option<Model>, file: Option<Model>)
      reads this
    {
      preparedBackup == Some(memory) && preparedFile == file
    }

    /** `prepare_fit`: None when it raises, otherwise whether a new model was trained. */
    method PrepareFit(texts: seq<string>, force: bool, fitted: Model) returns (trained: Option<bool>)
      requires fitted.corpusHash == texts
      modifies this`model, this`preparedBackup, this`preparedFile, calls`failed
      ensures calls.failed >= old(calls.failed)
      ensures trained.None? ==> old(preparedBackup).Some? || calls.failed > old(calls.failed)
      ensures model == old(model) || model == modelFile || (trained == Some(true) && model == Some(fitted))
      ensures old(preparedBackup).Some? ==> trained == None && preparedBackup == old(preparedBackup)
      ensures trained == Some(true) ==> model == Some(fitted) && preparedBackup.Some? && preparedFile == modelFile
      ensures trained == Some(true) ==> preparedBackup == Some(old(model)) || preparedBackup == Some(modelFile)
      ensures trained == Some(false) ==> !force && model == modelFile && model.Some? && model.value.corpusHash == texts
      ensures trained == Some(false) ==> preparedBackup == old(preparedBackup)
      ensures trained == Some(true) ==>
                force || modelFile.None? || modelFile.value.corpusHash != texts
    {
      if preparedBackup.Some? {
        return None;
      }
      var ok := calls.Forward();
      if !ok {
        return None;
      }
      if !force && modelFile.Some? {
        ok := calls.Forward();
        if !ok {
          return None;
        }
        model := modelFile;
        if model.value.corpusHash == texts {
          return Some(false);
        }
      }
      ok := calls.Forward();
      if !ok {
        return None;
      }
      preparedBackup := Some(model);
      ok := calls.Forward();
      if !ok {
        return None;
      }
      preparedFile := modelFile;
      model := Some(fitted);
      return Some(true);
    }

    method CommitFit() returns (ok: bool)
      modifies this`modelFile, calls`failed
      ensures calls.failed == old(calls.failed) + if ok then 0 else 1
      ensures modelFile == if ok && preparedBackup.Some? then model else old(modelFile)
    {
      if preparedBackup.None? {
        return true;
      }
      ok := calls.Forward();
      if ok {
        modelFile := model;
      }
    }

    method FinalizeFit()
      modifies this`preparedBackup, this`preparedFile
      ensures preparedBackup == None && preparedFile == None
    {
      preparedBackup, preparedFile := None, None;
    }

    method RollbackFit() returns (ok: bool)
      modifies this`model, this`modelFile, this`preparedBackup, this`preparedFile, calls`failedUndo
      ensures calls.failedUndo == old(calls.failedUndo) + if ok then 0 else 1
      ensures old(preparedBackup).Some? ==> model == old(preparedBackup).value
      ensures old(preparedBackup).Some? && ok ==>
                modelFile == old(preparedFile) && preparedBackup == None && preparedFile == None
      ensures !ok ==> modelFile == old(modelFile)
    {
      if preparedBackup.None? {
        return true;
      }
      model := preparedBackup.value;
      ok := calls.Backward();
      if ok {
        modelFile := preparedFile;
        preparedBackup, preparedFile := None, None;
      }
    }

    /** `commit_history`: verify the source, then write the success row; the checkpoint after the
        commit may still raise. */
    method CommitHistory(key: RowKey, row: Row) returns (ok: bool)
      modifies this`history, calls`failed
      ensures calls.failed == old(calls.failed) + if ok then 0 else 1
      ensures history == old(history) || history == old(history)[key := row]
      ensures ok ==> history == old(history)[key := row]
    {
      ok := calls.Forward();
      if !ok {
        return false;
      }
      history := history[key := row];
      ok := calls.Forward();
    }

    /** `restore_history`: remove the row, then write the captured one back. */
    method RestoreHistory(key: RowKey, snapshot: Option<Row>, now: nat) returns (ok: bool)
      modifies this`history, calls`failedUndo
      ensures calls.failedUndo == old(calls.failedUndo) + if ok then 0 else 1
      ensures forall k :: k != key ==> (k in history <==> k in old(history))
      ensures forall k :: k != key && k in history ==> history[k] == old(history)[k]
      ensures ok ==> (key in history <==> snapshot.Some?)
      ensures ok && snapshot.Some? ==> history[key] == RestoredRow(snapshot.value, now)
    {
      ok := calls.Backward();
      if !ok {
        return false;
      }
      history := history - {key};
      if snapshot.None? {
        return true;
      }
      ok := calls.Backward();
      if !ok {
        return false;
      }
      var row := snapshot.value;
      history := history[key := row.(status := Success, error := None, processedAt := now)];
      if row.status == Success {
        return true;
      }
      ok := calls.Backward();
      if !ok {
        return false;
      }
      history := history[key := row.(error := Some(RestoredError(row.error)), processedAt := now)];
    }

    /** `commit_sparse_and_model`: what runs while the previous collection is still the backup. */
    method CommitSparseAndModel(index: SparseIndex, key: RowKey, row: Row, vectorCount: nat, expected: nat)
      returns (ok: bool)
      modifies this`documents, this`indexFile, this`modelFile, this`history, this`sparseAttempted, calls
      ensures calls.failed >= old(calls.failed) && calls.failedUndo == old(calls.failedUndo)
      ensures !ok && vectorCount == expected == |index| ==> calls.failed > old(calls.failed)
      ensures !sparseAttempted ==> !old(sparseAttempted) && documents == old(documents) && indexFile == old(indexFile)
      ensures !modelPrepared ==> modelFile == old(modelFile)
      ensures history == old(history) || history == old(history)[key := row]
      ensures ok ==> documents == index && indexFile == index && vectorCount == expected == |index|
      ensures ok && modelPrepared && preparedBackup.Some? ==> modelFile == model
      ensures ok ==> history == old(history)[key := row]
    {
      ok := calls.Forward();
      if !ok {
        return false;
      }
      sparseAttempted := true;
      ok := BuildSparse(index, false);
      if !ok {
        return false;
      }
      ok := calls.Forward();
      if !ok {
        return false;
      }
      if modelPrepared {
        ok := CommitFit();
        if !ok {
          return false;
        }
      }
      ok := CommitHistory(key, row);
      if !ok {
        return false;
      }
      ok := calls.Forward();
      ok := ok && vectorCount == expected && |documents| == expected;
    }
  }
}
