/** `IndexingPipeline.index` (src/ingestion/pipeline.py): fit, encode, swap the vector corpus, rebuild
    BM25, commit the model and the history, and undo all of it when any step raises. */
module Indexing {
  import opened Outcomes
  import opened Ordering
  import opened Corpus
  import opened Resync
  import opened IndexStores
  import opened ChromaSwap
  import opened ExternalCalls

  // ----- encoding --------------------------------------------------------------------------------

  function Encoded(c: Chunk, signature: Model): DenseRecord {
    DenseRecord(c.text, c.metadata, signature, Sha256(c.text))
  }

  function Encode(chunks: seq<Chunk>, signature: Model): (records: seq<(string, DenseRecord)>)
    ensures |records| == |chunks|
  {
    seq(|chunks|, i requires 0 <= i < |chunks| => (chunks[i].id, Encoded(chunks[i], signature)))
  }

  /** The stored vector of a chunk was computed by this model from this text. */
  predicate UpToDate(c: Chunk, dense: DenseIndex, signature: Model) {
    c.id in dense && dense[c.id].signature == signature && dense[c.id].contentHash == Sha256(c.text)
  }

  /** The dense index holds exactly the chunks, each up to date. */
  predicate DenseCurrent(dense: DenseIndex, chunks: seq<Chunk>, signature: Model) {
    dense.Keys == Ids(chunks) && forall c :: c in chunks ==> UpToDate(c, dense, signature)
  }

  lemma {:induction false} EncodedKeys(chunks: seq<Chunk>, signature: Model)
    ensures RecordIndex(Encode(chunks, signature)).Keys == Ids(chunks)
  {
    if chunks != [] {
      var front, c := chunks[..|chunks| - 1], chunks[|chunks| - 1];
      assert chunks == front + [c];
      EncodedKeys(front, signature);
      assert Encode(chunks, signature)[..|front|] == Encode(front, signature);
      assert Ids(chunks) == Ids(front) + {c.id};
    }
  }

  /** The counts alone force the ids apart: fewer ids than chunks would show. */
  lemma {:induction false} CountedApart(chunks: seq<Chunk>)
    ensures |Ids(chunks)| <= |chunks|
    ensures |Ids(chunks)| == |chunks| ==> DistinctIds(chunks)
  {
    if chunks != [] {
      var front, c := chunks[..|chunks| - 1], chunks[|chunks| - 1];
      assert chunks == front + [c];
      CountedApart(front);
      assert Ids(chunks) == Ids(front) + {c.id};
      assert c.id in Ids(front) ==> Ids(chunks) == Ids(front);
      if |Ids(chunks)| == |chunks| {
        forall i | 0 <= i < |front| ensures front[i].id != c.id {
          assert front[i] in front;
        }
      }
    }
  }

  lemma {:induction false} DistinctMeansApart(chunks: seq<Chunk>)
    requires DistinctIds(chunks)
    ensures |Ids(chunks)| == |chunks|
  {
    if chunks != [] {
      var front, c := chunks[..|chunks| - 1], chunks[|chunks| - 1];
      assert chunks == front + [c];
      DistinctMeansApart(front);
      assert Ids(chunks) == Ids(front) + {c.id} && c.id !in Ids(front);
    }
  }

  /** Chunks with distinct ids are counted alike by every store. */
  lemma CountsAgree(chunks: seq<Chunk>, signature: Model, index: map<string, SparseDocument>)
    requires DistinctIds(chunks) && index.Keys == Ids(chunks)
    ensures |RecordIndex(Encode(chunks, signature))| == |chunks| == |index|
  {
    DistinctMeansApart(chunks);
    EncodedKeys(chunks, signature);
    assert |RecordIndex(Encode(chunks, signature)).Keys| == |RecordIndex(Encode(chunks, signature))|;
    assert |index.Keys| == |index|;
  }

  lemma {:induction false} EncodedUpToDate(chunks: seq<Chunk>, signature: Model)
    requires DistinctIds(chunks)
    ensures forall c :: c in chunks ==> UpToDate(c, RecordIndex(Encode(chunks, signature)), signature)
  {
    if chunks != [] {
      var front, last := chunks[..|chunks| - 1], chunks[|chunks| - 1];
      EncodedUpToDate(front, signature);
      assert Encode(chunks, signature)[..|front|] == Encode(front, signature);
      forall c | c in chunks ensures UpToDate(c, RecordIndex(Encode(chunks, signature)), signature) {
        var i :| 0 <= i < |chunks| && chunks[i] == c;
        if i < |front| {
          assert front[i] == c && c in front && c.id != last.id;
        }
      }
    }
  }

  lemma EncodedCorpus(chunks: seq<Chunk>, signature: Model)
    requires |RecordIndex(Encode(chunks, signature))| == |chunks|
    ensures DistinctIds(chunks) && DenseCurrent(RecordIndex(Encode(chunks, signature)), chunks, signature)
  {
    EncodedKeys(chunks, signature);
    var dense := RecordIndex(Encode(chunks, signature));
    assert |dense.Keys| == |dense|;
    CountedApart(chunks);
    EncodedUpToDate(chunks, signature);
  }

  /** In a current corpus every vector was computed by the model from the text that its chunk has now. */
  lemma CurrentMeans(dense: DenseIndex, chunks: seq<Chunk>, signature: Model, c: Chunk)
    requires DenseCurrent(dense, chunks, signature) && c in chunks
    ensures c.id in dense && dense[c.id].signature == signature && dense[c.id].contentHash == Sha256(c.text)
  {
  }

  /** A corpus that is written through the swap says of every chunk what the chunk says. */
  lemma {:induction false} EncodedSays(chunks: seq<Chunk>, signature: Model, c: Chunk)
    requires DistinctIds(chunks) && c in chunks
    ensures var index := RecordIndex(Encode(chunks, signature));
      c.id in index && index[c.id] == DenseRecord(c.text, c.metadata, signature, Sha256(c.text))
  {
    var front, last := chunks[..|chunks| - 1], chunks[|chunks| - 1];
    assert Encode(chunks, signature)[..|front|] == Encode(front, signature);
    if c != last {
      assert c in front;
      EncodedSays(front, signature, c);
      var i :| 0 <= i < |front| && front[i] == c;
    }
  }

  /** `_changed_or_missing_chunks`. */
  function Pending(chunks: seq<Chunk>, dense: DenseIndex, signature: Model): (pending: seq<Chunk>)
    ensures pending == [] <==> forall c :: c in chunks ==> UpToDate(c, dense, signature)
    ensures forall c :: c in pending <==> c in chunks && !UpToDate(c, dense, signature)
  {
    if chunks == [] then [] else
    var front, c := chunks[..|chunks| - 1], chunks[|chunks| - 1];
    assert chunks == front + [c];
    if UpToDate(c, dense, signature) then Pending(front, dense, signature)
    else Pending(front, dense, signature) + [c]
  }

  /** A corpus is current exactly when nothing is to be upserted and nothing to be deleted. */
  lemma NothingToDoIff(chunks: seq<Chunk>, dense: DenseIndex, signature: Model)
    ensures DenseCurrent(dense, chunks, signature) <==>
            Pending(chunks, dense, signature) == [] && dense.Keys - Ids(chunks) == {}
  {
    if dense.Keys - Ids(chunks) == {} && Pending(chunks, dense, signature) == [] {
      assert forall k :: k in dense ==> k in Ids(chunks) || k in dense.Keys - Ids(chunks);
      assert dense.Keys == Ids(chunks);
    }
  }

  // ----- index -----------------------------------------------------------------------------------

  predicate IdLeq(a: Chunk, b: Chunk) {
    StrLeq(a.id, b.id)
  }

  /** `sorted(chunks, key=lambda chunk: chunk.id)`. */
  function SortedChunks(chunks: seq<Chunk>): (s: seq<Chunk>)
    ensures multiset(s) == multiset(chunks) && |s| == |chunks|
    ensures Ids(s) == Ids(chunks)
  {
    StrLeqIsOrder();
    Sort(IdLeq, chunks)
  }

  lemma SortedDistinct(chunks: seq<Chunk>)
    ensures SortedBy(IdLeq, SortedChunks(chunks)) && (DistinctIds(chunks) ==> DistinctIds(SortedChunks(chunks)))
  {
    StrLeqIsOrder();
    if DistinctIds(chunks) {
      DistinctMeansApart(chunks);
      CountedApart(SortedChunks(chunks));
    }
  }

  /** The BM25 documents of a corpus, `sparseOf` counting the tokens of one chunk. */
  function SparseCorpus(chunks: seq<Chunk>, sparseOf: Chunk -> SparseDocument): (index: SparseIndex)
    ensures index.Keys == Ids(chunks)
  {
    if chunks == [] then map[] else
    var front, c := chunks[..|chunks| - 1], chunks[|chunks| - 1];
    assert chunks == front + [c];
    assert Ids(chunks) == Ids(front) + {c.id};
    SparseCorpus(front, sparseOf)[c.id := sparseOf(c)]
  }

  /** Every chunk is counted by itself. */
  lemma {:induction false} SparseCorpusSays(chunks: seq<Chunk>, sparseOf: Chunk -> SparseDocument, c: Chunk)
    requires DistinctIds(chunks) && c in chunks
    ensures SparseCorpus(chunks, sparseOf)[c.id] == sparseOf(c)
  {
    var front, last := chunks[..|chunks| - 1], chunks[|chunks| - 1];
    if c != last {
      assert c in front;
      SparseCorpusSays(front, sparseOf, c);
      var i :| 0 <= i < |front| && front[i] == c;
    }
  }

  class IndexingPipeline {
    const chroma: ChromaStore
    const stores: CoordinatedStores
    const calls: Calls
    const sparseOf: Chunk -> SparseDocument

    constructor (chroma: ChromaStore, stores: CoordinatedStores, sparseOf: Chunk -> SparseDocument)
      requires chroma.calls == stores.calls
      ensures this.chroma == chroma && this.stores == stores && this.sparseOf == sparseOf && Joined()
    {
      this.chroma, this.stores, this.sparseOf := chroma, stores, sparseOf;
      calls := stores.calls;
    }

    /** One ledger counts the failed calls of every store. */
    predicate Joined() {
      chroma.calls == calls == stores.calls
    }

    /** Every query-facing store holds exactly this corpus, under one embedding model. */
    ghost predicate Holds(chunks: seq<Chunk>)
      reads chroma`disk, chroma`active, stores`modelFile, stores`indexFile
    {
      && chroma.Fresh() && DistinctIds(chunks)
      && stores.modelFile.Some? && stores.modelFile.value.corpusHash == EmbeddingTexts(chunks)
      && DenseCurrent(chroma.disk.collections[Canonical].records, chunks, stores.modelFile.value)
      && stores.indexFile == SparseCorpus(chunks, sparseOf)
    }

    /** The stores hold the corpus, and the history says so. */
    ghost predicate Committed(chunks: seq<Chunk>, key: RowKey, row: Row)
      reads chroma`disk, chroma`active, stores`modelFile, stores`indexFile, stores`history
    {
      Holds(chunks) && key in stores.history && stores.history[key] == row
    }

    /** The vector store and the model file hold exactly this corpus already. */
    predicate Current(chunks: seq<Chunk>)
      reads chroma`disk, stores`modelFile
    {
      && Canonical in chroma.disk.collections
      && stores.modelFile.Some? && stores.modelFile.value.corpusHash == EmbeddingTexts(chunks)
      && DenseCurrent(chroma.disk.collections[Canonical].records, chunks, stores.modelFile.value)
    }

    /** The corpus a run may install: the old one, or the complete encoding of the chunks by one model. */
    static ghost predicate NewCorpus(after: DenseIndex, before: DenseIndex, ordered: seq<Chunk>) {
      after == before || exists m: Model :: EncodesAs(after, ordered, m)
    }

    static predicate EncodesAs(after: DenseIndex, ordered: seq<Chunk>, m: Model) {
      m.corpusHash == EmbeddingTexts(ordered) && after == RecordIndex(Encode(ordered, m))
    }

    /** Nothing was upserted, deleted, renamed or journaled, and no model was saved. */
    twostate predicate Untouched()
      reads chroma`disk, chroma`seen, stores`modelFile
    {
      chroma.disk == old(chroma.disk) && chroma.seen == old(chroma.seen) && stores.modelFile == old(stores.modelFile)
    }

    /** The vector corpus as it was: the same collection under the same name, and no swap pending
        that was not pending before. */
    twostate predicate CorpusKept(tx: nat)
      reads chroma`disk
    {
      && chroma.disk.collections - {Staging(tx), Failed(tx)} == old(chroma.disk.collections)
      && (chroma.disk.journal == None || chroma.disk.journal == old(chroma.disk.journal))
    }

    /** A run raises only when a call of it failed, or when it was not ready for the corpus; it cannot undo itself only
        when a call of the restoration failed too; and when none of those did, no collection is left over. */
    twostate predicate Accountable(r: Outcome, ready: bool)
      reads calls, chroma`disk
    {
      && calls.failed >= old(calls.failed) && calls.failedUndo >= old(calls.failedUndo)
      && (r.Raised? && ready ==> calls.failed > old(calls.failed))
      && (r == Raised(false) ==> calls.failedUndo > old(calls.failedUndo))
      && (r.Raised? && calls.failedUndo == old(calls.failedUndo) ==>
            chroma.disk.collections == old(chroma.disk).collections)
    }

    /** How much of the vector store, BM25 and the model file is not as before. */
    twostate function Lost(tx: nat): nat
      reads chroma`disk, stores`indexFile, stores`modelFile
    {
      Missed(CorpusKept(tx)) + Missed(stores.indexFile == old(stores.indexFile)) +
      Missed(stores.modelFile == old(stores.modelFile))
    }

    static function Missed(restored: bool): nat {
      if restored then 0 else 1
    }

    /** When every vector is current, only the other stores are written. */
    method RebuildOthers(ordered: seq<Chunk>, index: SparseIndex, signature: Model, key: RowKey, row: Row)
      returns (ok: bool)
      requires Joined() && chroma.Fresh() && index == SparseCorpus(ordered, sparseOf)
      requires stores.model == Some(signature) && signature.corpusHash == EmbeddingTexts(ordered)
      requires !stores.modelPrepared && stores.modelFile == stores.model
      requires DenseCurrent(chroma.disk.collections[Canonical].records, ordered, signature)
      modifies calls, stores`documents, stores`indexFile, stores`modelFile, stores`history, stores`sparseAttempted
      ensures calls.failedUndo == old(calls.failedUndo) && calls.failed >= old(calls.failed)
      ensures !ok && DistinctIds(ordered) ==> calls.failed > old(calls.failed)
      ensures ok ==> Committed(ordered, key, row)
      ensures ok ==> stores.history == old(stores.history)[key := row]
      ensures stores.modelFile == old(stores.modelFile)
      ensures !stores.sparseAttempted ==> !old(stores.sparseAttempted) && stores.indexFile == old(stores.indexFile)
      ensures stores.history == old(stores.history) || stores.history == old(stores.history)[key := row]
    {
      var existing := chroma.disk.collections[Canonical].records;
      ok := stores.CommitSparseAndModel(index, key, row, |existing|, |ordered|);
      if ok {
        assert |index.Keys| == |index|;
        CountedApart(ordered);
      } else if DistinctIds(ordered) {
        DistinctMeansApart(ordered);
        assert |existing.Keys| == |existing| && |index.Keys| == |index|;
      }
    }

    /** Write the corpus through the swap. */
    method ReplaceCorpus(ordered: seq<Chunk>, index: SparseIndex, signature: Model, tx: nat, key: RowKey, row: Row)
      returns (dense: Outcome)
      requires Joined() && chroma.Fresh() && chroma.Unused(tx) && index == SparseCorpus(ordered, sparseOf)
      requires stores.model == Some(signature) && signature.corpusHash == EmbeddingTexts(ordered)
      requires if stores.modelPrepared then stores.preparedBackup.Some? else stores.modelFile == stores.model
      modifies chroma, calls,
               stores`documents, stores`indexFile, stores`modelFile, stores`history, stores`sparseAttempted
      ensures Accountable(dense, DistinctIds(ordered))
      ensures dense == Done ==> Committed(ordered, key, row)
      ensures dense == Done ==> stores.history == old(stores.history)[key := row]
      ensures dense == Done ==>
        chroma.disk.collections[Canonical].records == RecordIndex(Encode(ordered, signature))
      ensures dense == Raised(true) ==> CorpusKept(tx)
      ensures dense == Raised(false) ==> Open(chroma.disk) == Refused
      ensures chroma.SafeThroughout(RecordIndex(Encode(ordered, signature)))
      ensures !stores.modelPrepared ==> stores.modelFile == old(stores.modelFile)
      ensures !stores.sparseAttempted ==> !old(stores.sparseAttempted) && stores.indexFile == old(stores.indexFile)
      ensures stores.history == old(stores.history) || stores.history == old(stores.history)[key := row]
    {
      dense := chroma.ReplaceAllAtomically(Encode(ordered, signature), tx, stores, index, key, row);
      if dense == Done {
        EncodedCorpus(ordered, signature);
      } else if DistinctIds(ordered) {
        CountsAgree(ordered, signature, index);
      }
    }

    /** Write the corpus through the swap, or, when every vector is current, rebuild only the rest. */
    method Synchronize(ordered: seq<Chunk>, pending: seq<Chunk>, mustSync: bool, signature: Model, tx: nat,
                       key: RowKey, row: Row)
      returns (dense: Outcome, ghost after: DenseIndex)
      requires Joined() && chroma.Fresh() && chroma.Unused(tx) && stores.model == Some(signature)
      requires signature.corpusHash == EmbeddingTexts(ordered)
      requires pending == Pending(ordered, chroma.disk.collections[Canonical].records, signature) || mustSync
      requires
        if stores.modelPrepared then stores.preparedBackup.Some? && mustSync else stores.modelFile == stores.model
      modifies chroma, calls,
               stores`documents, stores`indexFile, stores`modelFile, stores`history, stores`sparseAttempted
      ensures Accountable(dense, DistinctIds(ordered))
      ensures dense == Done ==> Committed(ordered, key, row)
      ensures dense == Done ==> stores.history == old(stores.history)[key := row]
      ensures dense == Raised(true) ==> CorpusKept(tx)
      ensures dense == Raised(false) ==> Open(chroma.disk) == Refused
      ensures chroma.SafeThroughout(after)
      ensures !stores.modelPrepared ==> stores.modelFile == old(stores.modelFile)
      ensures !stores.sparseAttempted ==> !old(stores.sparseAttempted) && stores.indexFile == old(stores.indexFile)
      ensures stores.history == old(stores.history) || stores.history == old(stores.history)[key := row]
      ensures NewCorpus(after, old(chroma.disk).collections[Canonical].records, ordered)
      ensures dense == Done ==> after == chroma.disk.collections[Canonical].records
      ensures pending == [] && !mustSync && old(chroma.disk).collections[Canonical].records.Keys <= Ids(ordered) ==>
        chroma.disk == old(chroma.disk) && chroma.seen == old(chroma.seen)
    {
      var index := SparseCorpus(ordered, sparseOf);
      var existing := chroma.disk.collections[Canonical].records;
      var stale := existing.Keys - Ids(ordered);
      after := existing;
      if pending != [] || stale != {} || mustSync {
        after := RecordIndex(Encode(ordered, signature));
        assert EncodesAs(after, ordered, signature);
        dense := ReplaceCorpus(ordered, index, signature, tx, key, row);
      } else {
        assert chroma.disk.collections - {Staging(tx), Failed(tx)} == chroma.disk.collections;
        NothingToDoIff(ordered, existing, signature);
        var ok := RebuildOthers(ordered, index, signature, key, row);
        dense := if ok then Done else Raised(true);
      }
    }

    /** Fit the model and find the chunks to encode; None when it raises. */
    method Prepare(ordered: seq<Chunk>, force: bool) returns (mustSync: Option<bool>, pending: seq<Chunk>)
      requires Joined() && chroma.Fresh() && !stores.modelPrepared
      modifies calls`failed, stores`model, stores`preparedBackup, stores`preparedFile, stores`modelPrepared
      ensures calls.failed >= old(calls.failed)
      ensures mustSync.None? && old(stores.preparedBackup).None? ==> calls.failed > old(calls.failed)
      ensures mustSync.None? ==> !stores.modelPrepared
      ensures mustSync.Some? ==> old(stores.preparedBackup).None? && stores.model.Some?
      ensures mustSync.Some? ==> stores.model.value.corpusHash == EmbeddingTexts(ordered)
      ensures mustSync.Some? && stores.modelPrepared ==>
                mustSync.value && stores.preparedBackup.Some? && stores.preparedFile == stores.modelFile
      ensures mustSync.Some? && !stores.modelPrepared ==>
                stores.modelFile == stores.model && stores.preparedBackup.None?
      ensures mustSync.Some? && !mustSync.value ==>
                pending == Pending(ordered, chroma.disk.collections[Canonical].records, stores.model.value)
      ensures !force && Current(ordered) ==> !stores.modelPrepared
      ensures !force && Current(ordered) && mustSync.Some? ==>
                !mustSync.value && pending == [] && chroma.disk.collections[Canonical].records.Keys <= Ids(ordered)
    {
      var texts := EmbeddingTexts(ordered);
      var dimensions: nat := *;
      var trained := stores.PrepareFit(texts, force, Model(dimensions, texts));
      if trained.None? {
        return None, [];
      }
      stores.modelPrepared := trained.value;
      mustSync := Some(force || trained.value);
      var existing := chroma.disk.collections[Canonical].records;
      if mustSync.value {
        pending := ordered;
        return;
      }
      pending := Pending(ordered, existing, stores.model.value);
      if Current(ordered) {
        NothingToDoIff(ordered, existing, stores.model.value);
      }
    }

    /** The `try` block: `dense` tells whether the corpus swap, when it raised, was undone. */
    method Attempt(ordered: seq<Chunk>, force: bool, tx: nat, key: RowKey, row: Row)
      returns (dense: Outcome, ghost after: DenseIndex)
      requires Joined() && chroma.Fresh() && chroma.Unused(tx)
      requires !stores.sparseAttempted && !stores.modelPrepared
      modifies chroma, stores, calls
      ensures Accountable(dense, old(stores.preparedBackup).None? && DistinctIds(ordered))
      ensures dense == Done ==> old(stores.preparedBackup).None?
      ensures dense == Done && !stores.modelPrepared ==> stores.preparedBackup.None?
      ensures dense == Done ==> Committed(ordered, key, row)
      ensures dense == Done ==> stores.history == old(stores.history)[key := row]
      ensures dense == Raised(true) ==> CorpusKept(tx)
      ensures dense == Raised(false) ==> Open(chroma.disk) == Refused
      ensures chroma.SafeThroughout(after)
      ensures stores.modelPrepared ==> stores.preparedBackup.Some? && stores.preparedFile == old(stores.modelFile)
      ensures !stores.modelPrepared ==> stores.modelFile == old(stores.modelFile)
      ensures !stores.sparseAttempted ==> stores.indexFile == old(stores.indexFile)
      ensures stores.history == old(stores.history) || stores.history == old(stores.history)[key := row]
      ensures NewCorpus(after, old(chroma.disk).collections[Canonical].records, ordered)
      ensures dense == Done ==> after == chroma.disk.collections[Canonical].records
      ensures !force && old(Current(ordered)) ==> Untouched() && !stores.modelPrepared
    {
      dense, after := Raised(true), chroma.disk.collections[Canonical].records;
      assert chroma.disk.collections - {Staging(tx), Failed(tx)} == chroma.disk.collections;
      var mustSync, pending := Prepare(ordered, force);
      if mustSync.None? {
        return;
      }
      var step := calls.Forward();
      if !step {
        return;
      }
      dense, after := Synchronize(ordered, pending, mustSync.value, stores.model.value, tx, key, row);
    }

    /** The `except` block: rebuild BM25 from the snapshot and roll the model back, as far as each
        was touched. */
    method Compensate(snapshot: SparseIndex, swapUndone: bool) returns (compensated: bool)
      requires Joined() && (stores.modelPrepared ==> stores.preparedBackup.Some?)
      modifies calls, stores`documents, stores`indexFile, stores`model, stores`modelFile,
               stores`preparedBackup, stores`preparedFile
      ensures calls.failed == old(calls.failed) && calls.failedUndo >= old(calls.failedUndo)
      ensures compensated <==> swapUndone && calls.failedUndo == old(calls.failedUndo)
      ensures !stores.modelPrepared ==> stores.modelFile == old(stores.modelFile)
      ensures
        var sparse := stores.indexFile == if stores.sparseAttempted then snapshot else old(stores.indexFile);
        var model :=
          stores.modelFile == if stores.modelPrepared then old(stores.preparedFile) else old(stores.modelFile);
        calls.failedUndo >= old(calls.failedUndo) + Missed(sparse) + Missed(model)
    {
      compensated := swapUndone;
      if stores.sparseAttempted {
        var ok := stores.BuildSparse(snapshot, true);
        compensated := compensated && ok;
      }
      if stores.modelPrepared {
        var ok := stores.RollbackFit();
        compensated := compensated && ok;
      }
    }

    /** `index`: a normal return has committed every store; a raise that could undo itself has
        changed none of them, but for the history row its caller restores. */
    method Index(chunks: seq<Chunk>, force: bool, tx: nat, key: RowKey, row: Row)
      returns (r: Outcome, ghost after: DenseIndex)
      requires Joined() && Canonical in chroma.disk.collections && chroma.Unused(tx)
      modifies chroma, stores, calls
      ensures Accountable(r, chunks != [] && DistinctIds(chunks) && old(stores.preparedBackup).None?)
      ensures r == Done ==> old(stores.preparedBackup).None?
      ensures r == Done && calls.failed == old(calls.failed) ==> stores.preparedBackup.None?
      ensures r == Done ==> chunks != [] && Committed(SortedChunks(chunks), key, row)
      ensures r == Done ==> stores.history == old(stores.history)[key := row]
      ensures r.Raised? ==> calls.failedUndo >= old(calls.failedUndo) + Lost(tx)
      ensures r == Raised(true) ==> CorpusKept(tx)
      ensures r == Raised(true) ==> stores.indexFile == old(stores.indexFile)
      ensures r == Raised(true) ==> stores.modelFile == old(stores.modelFile)
      ensures stores.history == old(stores.history) || stores.history == old(stores.history)[key := row]
      ensures chroma.SafeThroughout(after)
      ensures NewCorpus(after, old(chroma.disk).collections[Canonical].records, SortedChunks(chunks))
      ensures r == Done ==> after == chroma.disk.collections[Canonical].records
      ensures r == Done ==> Current(SortedChunks(chunks))
      ensures !force && old(Current(SortedChunks(chunks))) ==> Untouched()
    {
      after := chroma.disk.collections[Canonical].records;
      assert chroma.disk.collections - {Staging(tx), Failed(tx)} == chroma.disk.collections;
      var ok := chunks != [];
      if ok {
        ok := chroma.RefreshActiveGeneration();
      }
      if ok {
        ok := stores.LoadSparse();
      }
      if !ok {
        return Raised(true), after;
      }
      var ordered := SortedChunks(chunks);
      SortedDistinct(chunks);
      r, after := Run(ordered, stores.documents, force, tx, key, row);
    }

    /** Attempt the run; when it raises, compensate; when it does not, release the rollback state. */
    method Run(ordered: seq<Chunk>, snapshot: SparseIndex, force: bool, tx: nat, key: RowKey, row: Row)
      returns (r: Outcome, ghost after: DenseIndex)
      requires Joined() && chroma.Fresh() && chroma.Unused(tx) && snapshot == stores.indexFile
      modifies chroma, stores, calls
      ensures Accountable(r, DistinctIds(ordered) && old(stores.preparedBackup).None?)
      ensures r == Done ==> old(stores.preparedBackup).None?
      ensures r == Done && calls.failed == old(calls.failed) ==> stores.preparedBackup.None?
      ensures r == Done ==> Committed(ordered, key, row)
      ensures r == Done ==> stores.history == old(stores.history)[key := row]
      ensures r.Raised? ==> calls.failedUndo >= old(calls.failedUndo) + Lost(tx)
      ensures r == Raised(true) ==> CorpusKept(tx)
      ensures r == Raised(true) ==> stores.indexFile == old(stores.indexFile)
      ensures r == Raised(true) ==> stores.modelFile == old(stores.modelFile)
      ensures stores.history == old(stores.history) || stores.history == old(stores.history)[key := row]
      ensures chroma.SafeThroughout(after)
      ensures NewCorpus(after, old(chroma.disk).collections[Canonical].records, ordered)
      ensures r == Done ==> after == chroma.disk.collections[Canonical].records
      ensures !force && old(Current(ordered)) ==> Untouched()
    {
      stores.sparseAttempted, stores.modelPrepared := false, false;
      r, after := Attempt(ordered, force, tx, key, row);
      if r != Done {
        var ok := Compensate(snapshot, r.compensated);
        return Raised(ok), after;
      }
      var ok := calls.Forward();
      if stores.modelPrepared && ok {
        stores.FinalizeFit();
      }
    }
  }
}
