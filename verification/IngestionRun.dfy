/** One coordinated ingestion under the lifecycle lock: process the document, resynchronize every
    store, and restore everything when a step raises (src/ingestion/pipeline.py,
    src/ingestion/corpus_processor.py). */
module IngestionRun {
  import opened Outcomes
  import opened Ordering
  import opened Corpus
  import opened Resync
  import opened IndexStores
  import opened ChromaSwap
  import opened Indexing
  import opened ExternalCalls

  /** A document artifact lists the extracted images it refers to. */
  datatype File = DocumentFile(images: set<string>, body: string) | DataFile(body: string)

  type Files = map<string, File>

  /** What `process` does to the files until it returns or raises: what it unlinks, what it writes, and whether
      it returns. */
  datatype Processing = Processing(removed: set<string>, written: Files, completes: bool)

  class IngestionPipeline {
    const indexing: IndexingPipeline
    const chroma: ChromaStore
    const stores: CoordinatedStores
    const calls: Calls
    const documentPath: string
    const chunksPath: string
    const ledgerPath: string
    const reportPath: string
    // the managed directories
    const documentDirectory: string
    const chunkDirectory: string
    const imageDirectory: string
    var files: Files

    constructor (indexing: IndexingPipeline, documentPath: string, chunksPath: string, ledgerPath: string,
                 reportPath: string, documentDirectory: string, chunkDirectory: string, imageDirectory: string)
      requires indexing.Joined()
      ensures this.calls == indexing.calls
      ensures this.documentDirectory == documentDirectory && this.chunkDirectory == chunkDirectory
      ensures this.indexing == indexing && this.chroma == indexing.chroma && this.stores == indexing.stores
      ensures this.documentPath == documentPath && this.chunksPath == chunksPath && this.ledgerPath == ledgerPath
      ensures this.reportPath == reportPath && this.imageDirectory == imageDirectory && files == map[]
    {
      this.indexing, chroma, stores, calls := indexing, indexing.chroma, indexing.stores, indexing.calls;
      this.documentDirectory, this.chunkDirectory := documentDirectory, chunkDirectory;
      this.documentPath, this.chunksPath, this.ledgerPath := documentPath, chunksPath, ledgerPath;
      this.reportPath, this.imageDirectory := reportPath, imageDirectory;
      files := map[];
    }

    predicate Wired() {
      && indexing.Joined() && chroma == indexing.chroma && stores == indexing.stores && calls == indexing.calls
      && !IsImage(documentPath) && !IsImage(chunksPath) && !IsImage(ledgerPath) && !IsImage(reportPath)
      && !(documentDirectory <= ledgerPath) && !(chunkDirectory <= ledgerPath) && documentPath != ledgerPath
    }

    predicate IsImage(path: string) {
      imageDirectory <= path
    }

    /** The images of the document artifact that lie in the managed directory. */
    function DocumentImages(fs: Files): set<string> {
      if documentPath in fs && fs[documentPath].DocumentFile? then
        set p | p in fs[documentPath].images && IsImage(p)
      else {}
    }

    function BackupPaths(fs: Files): set<string> {
      {documentPath, chunksPath, ledgerPath} + DocumentImages(fs)
    }

    function ImageInventory(fs: Files): set<string> {
      set p | p in fs && IsImage(p)
    }

    /** Whether a failed run gives back the content of a path, from the files before it and those that processing
        left: what was captured, and the absence of a new image, always; any other path exactly when processing
        left it alone, and, for an image, did not list it in the document either. */
    predicate ComesBack(path: string, before: Files, left: Files) {
      || path in BackupPaths(before)
      || (IsImage(path) && path !in before)
      || (SameFile(left, before, path) && path !in DocumentImages(left))
    }

    /** The files after a failed run are those before it exactly where they come back. */
    ghost predicate GivenBack(before: Files, left: Files, now: Files) {
      forall p :: SameFile(now, before, p) <==> ComesBack(p, before, left)
    }

    /** A failed run gives back the document, its chunks, the ledger, and every managed image that the document listed
        before. */
    lemma OwnFilesComeBack(path: string, before: Files, left: Files)
      requires
        || path == documentPath || path == chunksPath || path == ledgerPath
        || (documentPath in before && before[documentPath].DocumentFile? && path in before[documentPath].images &&
            imageDirectory <= path)
      ensures ComesBack(path, before, left)
    {
    }

    /** An image another document put there, which this document did not list before, is lost when the new version
        of this document lists it and the run then fails. */
    lemma SharedImageIsLost(image: string, body: string)
      requires Wired() && IsImage(image)
      ensures var before := map[image := DataFile(body)];
        var work := Processing({}, map[documentPath := DocumentFile({image}, "")], false);
        !ComesBack(image, before, Processed(before, work))
    {
      var before := map[image := DataFile(body)];
      var left := Processed(before, Processing({}, map[documentPath := DocumentFile({image}, "")], false));
      assert left[documentPath] == DocumentFile({image}, "");
      assert image in DocumentImages(left);
    }

    static predicate SameFile(a: Files, b: Files, path: string) {
      (path in a <==> path in b) && (path in a ==> a[path] == b[path])
    }

    /** What `process` may write: the artifacts of this document, the ledger, the report, and images. */
    predicate Writable(path: string) {
      path in {documentPath, chunksPath, ledgerPath, reportPath} || IsImage(path)
    }

    twostate predicate WroteOnly()
      reads this
    {
      forall p :: !Writable(p) ==> SameFile(files, old(files), p)
    }

    // ----- restore_artifacts and remove_new_extracted_images -------------------------------------

    /** Write one path, or remove it when there is nothing to write. */
    method PutFile(path: string, payload: Option<File>, undo: bool) returns (ok: bool)
      modifies this`files, calls
      ensures files == if ok then Written(old(files), path, payload) else old(files)
      ensures calls.Failures(undo) == old(calls.Failures(undo)) + if ok then 0 else 1
      ensures calls.Failures(!undo) == old(calls.Failures(!undo))
    {
      ok := calls.Try(undo);
      if ok {
        files := Written(files, path, payload);
      }
    }

    static function Written(fs: Files, path: string, payload: Option<File>): Files {
      if payload.Some? then fs[path := payload.value] else fs - {path}
    }

    method RestoreArtifacts(backups: map<string, Option<File>>) returns (ok: bool)
      requires Wired() && documentPath in backups
      modifies this`files, calls
      ensures calls.failed == old(calls.failed) && calls.failedUndo == old(calls.failedUndo) + if ok then 0 else 1
      ensures forall p :: p !in backups && !IsImage(p) ==> SameFile(files, old(files), p)
      ensures forall p :: p in files ==> p in old(files) || p in backups
      ensures ok ==> forall p :: p in backups ==> IsBackup(backups[p], files, p)
      ensures ok ==> forall p :: p !in backups ==>
                if p in old(DocumentImages(files)) then p !in files else SameFile(files, old(files), p)
    {
      var current := DocumentImages(files);
      var todo := backups.Keys;
      while todo != {}
        invariant todo <= backups.Keys
        invariant calls.failed == old(calls.failed) && calls.failedUndo == old(calls.failedUndo)
        invariant forall p :: p !in backups ==> SameFile(files, old(files), p)
        invariant forall p :: p in files ==> p in old(files) || p in backups
        invariant forall p :: p in backups && p !in todo ==> IsBackup(backups[p], files, p)
        decreases |todo|
      {
        var path :| path in todo;
        ok := PutFile(path, backups[path], true);
        if !ok {
          return;
        }
        todo := todo - {path};
      }
      ghost var restored := files;
      ok := Unlink(current - backups.Keys);
      forall p | p !in backups && !IsImage(p) ensures SameFile(files, old(files), p) {
        assert SameFile(files, restored, p) && SameFile(restored, old(files), p);
      }
      forall p | p in backups ensures SameFile(files, restored, p) {
      }
      if ok {
        forall p | p !in backups && p !in current ensures SameFile(files, old(files), p) {
          assert SameFile(files, restored, p) && SameFile(restored, old(files), p);
        }
      }
    }

    method RemoveNewImages(inventory: set<string>) returns (ok: bool)
      modifies this`files, calls
      ensures calls.failed == old(calls.failed) && calls.failedUndo == old(calls.failedUndo) + if ok then 0 else 1
      ensures forall p :: p in inventory || !IsImage(p) ==> SameFile(files, old(files), p)
      ensures forall p :: p in files ==> p in old(files)
      ensures ok ==> ImageInventory(files) <= inventory
    {
      ok := Unlink(ImageInventory(files) - inventory);
    }

    method Unlink(paths: set<string>) returns (ok: bool)
      modifies this`files, calls
      ensures calls.failed == old(calls.failed) && calls.failedUndo == old(calls.failedUndo) + if ok then 0 else 1
      ensures forall p :: p !in paths ==> SameFile(files, old(files), p)
      ensures forall p :: p in files ==> p in old(files)
      ensures ok ==> paths !! files.Keys
    {
      var todo := paths;
      while todo != {}
        invariant calls.failed == old(calls.failed) && calls.failedUndo == old(calls.failedUndo)
        invariant todo <= paths && forall p :: p !in paths ==> SameFile(files, old(files), p)
        invariant forall p :: p in files ==> p in old(files)
        invariant forall p :: p in paths && p !in todo ==> p !in files
        decreases |todo|
      {
        var path :| path in todo;
        ok := PutFile(path, None, true);
        if !ok {
          return;
        }
        todo := todo - {path};
      }
      return true;
    }

    // ----- _run_locked ---------------------------------------------------------------------------

    /** The files after processing: whatever it writes, it writes only artifacts. */
    function Processed(fs: Files, work: Processing): Files {
      (fs - (set p | p in work.removed && Writable(p))) + (map p | p in work.written && Writable(p) :: work.written[p])
    }

    /** What processing writes is there, what it only unlinks is gone, and all else is as it was. */
    lemma ProcessedIs(fs: Files, work: Processing, path: string)
      ensures var after := Processed(fs, work);
        && (path in work.written && Writable(path) ==> path in after && after[path] == work.written[path])
        && (path in work.removed - work.written.Keys && Writable(path) ==> path !in after)
        && ((path !in work.removed && path !in work.written) || !Writable(path) ==> SameFile(after, fs, path))
    {
    }

    /** `CorpusProcessor.process` with `defer_success`; it may raise at any point of writing. */
    method Process(work: Processing) returns (ok: bool)
      modifies this`files
      ensures files == Processed(old(files), work) && ok == work.completes
      ensures WroteOnly()
    {
      files := Processed(files, work);
      ok := work.completes;
    }

    /** `load_preprocessed_chunks`: the chunks the artifacts hold, sorted by id, or a raise when there are none or two
        share an id. */
    method LoadChunks(stored: seq<Chunk>) returns (r: Option<seq<Chunk>>)
      modifies calls`failed
      ensures calls.failed >= old(calls.failed)
      ensures r.None? && stored != [] && DistinctIds(stored) ==> calls.failed > old(calls.failed)
      ensures r.Some? ==> stored != [] && DistinctIds(stored)
      ensures r.Some? ==> r.value == SortedChunks(stored) && DistinctIds(r.value) && SortedBy(IdLeq, r.value)
    {
      StrLeqIsOrder();
      var ok := calls.Forward();
      if ok && stored != [] && forall i, j :: 0 <= i < j < |stored| ==> stored[i].id != stored[j].id {
        SortedDistinct(stored);
        return Some(SortedChunks(stored));
      }
      return None;
    }

    /** What a corpus swap may replace: nothing of another source is lost, nothing unindexed returns. */
    ghost predicate Preserves(chunks: seq<Chunk>, dense: DenseIndex, sparse: SparseIndex, entry: Entry,
                              collection: string)
    {
      && Covers(Ids(chunks), dense, sparse, entry, collection)
      && NotResurrected(chunks, dense, sparse, entry, collection)
      && NoStaleVersion(chunks, entry, collection)
    }

    /** The stored chunks that a run may index. */
    function ToIndex(stored: seq<Chunk>, entry: Entry, collection: string): seq<Chunk>
      requires Canonical in chroma.disk.collections
      reads chroma`disk, stores`indexFile
    {
      var dense := chroma.disk.collections[Canonical].records;
      Selection(SortedChunks(stored), dense, stores.indexFile, entry, collection)
    }

    /** Processing returns, the artifacts hold chunks of their own ids, some of these may be indexed without losing a
        chunk of another source, and no model waits to be rolled back. */
    predicate Ready(work: Processing, stored: seq<Chunk>, entry: Entry, collection: string)
      requires Canonical in chroma.disk.collections
      reads chroma`disk, stores`indexFile, stores`preparedBackup
    {
      && work.completes && stored != [] && DistinctIds(stored) && stores.preparedBackup.None?
      && var kept := ToIndex(stored, entry, collection);
      && kept != []
      && Covers(Ids(kept), chroma.disk.collections[Canonical].records, stores.indexFile, entry, collection)
    }

    /** The stored chunks that may be indexed are, in every store, and no chunk of another source was lost. */
    twostate predicate Ingested(entry: Entry, collection: string, work: Processing, stored: seq<Chunk>,
                                chunks: seq<Chunk>)
      requires Canonical in old(chroma.disk).collections
      reads chroma`disk, chroma`active, stores`modelFile, stores`indexFile,
            indexing.chroma`disk, indexing.chroma`active, indexing.stores`modelFile, indexing.stores`indexFile
    {
      && Wired() && old(Ready(work, stored, entry, collection))
      && chunks != [] && chunks == SortedChunks(old(ToIndex(stored, entry, collection)))
      && indexing.Holds(chunks)
      && Preserves(chunks, old(chroma.disk).collections[Canonical].records, old(stores.indexFile), entry, collection)
    }

    /** The `try` block up to the chunks to be indexed. `stored` is what the chunk artifacts hold after processing. */
    method Select(entry: Entry, collection: string, work: Processing, stored: seq<Chunk>)
      returns (selected: Option<seq<Chunk>>, processed: bool)
      requires Wired() && Canonical in chroma.disk.collections
      modifies this`files, stores`documents, calls`failed
      ensures calls.failed >= old(calls.failed)
      ensures files == Processed(old(files), work) && WroteOnly() && (selected.Some? ==> processed)
      ensures selected.None? && Ready(work, stored, entry, collection) ==> calls.failed > old(calls.failed)
      ensures selected.Some? ==> work.completes && stored != [] && DistinctIds(stored)
      ensures selected.Some? ==> selected.value == ToIndex(stored, entry, collection) && DistinctIds(selected.value)
      ensures selected.Some? ==> Covers(Ids(selected.value), chroma.disk.collections[Canonical].records,
                                        stores.indexFile, entry, collection)
    {
      selected, processed := None, false;
      var ok := Process(work);
      if !ok {
        return;
      }
      processed := true;
      ok := calls.Forward();
      if !ok {
        return;
      }
      var loaded := LoadChunks(stored);
      if loaded.None? {
        return;
      }
      ok := stores.LoadSparse();
      if !ok {
        return;
      }
      var dense := chroma.disk.collections[Canonical].records;
      var kept := SelectIndexedOrCurrent(loaded.value, dense, stores.documents, entry, collection);
      if kept.None? {
        return;
      }
      ok := ValidateSnapshot(kept.value, dense, stores.documents, entry, collection);
      if !ok {
        return;
      }
      SelectionMembers(loaded.value, dense, stores.documents, entry, collection);
      selected := kept;
    }

    /** The `try` block up to the committed index. */
    method Advance(entry: Entry, collection: string, force: bool, tx: nat, row: Row, work: Processing,
                   stored: seq<Chunk>)
      returns (r: Outcome, processed: bool, ghost chunks: seq<Chunk>, ghost after: DenseIndex)
      requires Wired() && Canonical in chroma.disk.collections && chroma.Unused(tx)
      modifies this`files, chroma, stores, calls
      ensures indexing.Accountable(r, old(Ready(work, stored, entry, collection)))
      ensures r == Done && calls.failed == old(calls.failed) ==> stores.preparedBackup.None?
      ensures files == Processed(old(files), work) && WroteOnly() && (r == Done ==> processed)
      ensures r == Done ==> Ingested(entry, collection, work, stored, chunks)
      ensures r.Raised? ==> calls.failedUndo >= old(calls.failedUndo) + indexing.Lost(tx)
      ensures r == Raised(true) ==> indexing.CorpusKept(tx)
      ensures r == Raised(true) ==> stores.indexFile == old(stores.indexFile)
      ensures r == Raised(true) ==> stores.modelFile == old(stores.modelFile)
      ensures var key := RowKey(entry.fileHash, collection);
              stores.history == old(stores.history) || stores.history == old(stores.history)[key := row]
      ensures !processed ==> stores.history == old(stores.history)
      ensures r == Done ==> stores.history == old(stores.history)[RowKey(entry.fileHash, collection) := row]
      ensures chroma.SafeThroughout(after)
      ensures IndexingPipeline.NewCorpus(after, old(chroma.disk).collections[Canonical].records, chunks)
      ensures r == Done ==> after == chroma.disk.collections[Canonical].records
    {
      r, processed, chunks := Raised(true), false, [];
      after := chroma.disk.collections[Canonical].records;
      assert chroma.disk.collections - {Staging(tx), Failed(tx)} == chroma.disk.collections;
      var selected;
      selected, processed := Select(entry, collection, work, stored);
      if selected.None? {
        return;
      }
      r, after := indexing.Index(selected.value, force, tx, RowKey(entry.fileHash, collection), row);
      chunks := SortedChunks(selected.value);
      if r == Done {
        ResyncPreserves(SortedChunks(stored), old(chroma.disk).collections[Canonical].records, old(stores.indexFile),
                        entry, collection);
        SortedKeepsMembers(selected.value);
      }
    }

    static lemma SortedKeepsMembers(chunks: seq<Chunk>)
      ensures forall c :: c in SortedChunks(chunks) <==> c in chunks
    {
      forall c ensures c in SortedChunks(chunks) <==> c in chunks {
        assert c in multiset(SortedChunks(chunks)) <==> c in multiset(chunks);
      }
    }

    /** Everything a failed run gives back outside the vector store and the files: BM25, the model file, and the
        history, where the captured row comes back as `restore_history` writes it. */
    twostate predicate Undone(key: RowKey, now: nat, processed: bool)
      reads stores`indexFile, stores`modelFile, stores`history
    {
      && stores.indexFile == old(stores.indexFile) && stores.modelFile == old(stores.modelFile)
      && RowsGivenBack(stores.history, old(stores.history), key, now, processed)
    }

    /** Whatever is not as before, each by itself, a call of the restoration failed for: the vector store, BM25, the
        model file, the captured files, the images that were not there, and the history. */
    twostate predicate LossesHaveFailed(key: RowKey, tx: nat, now: nat, processed: bool)
      reads this, calls, chroma`disk, indexing.chroma`disk, indexing.stores`indexFile, indexing.stores`modelFile,
            stores`history
    {
      calls.failedUndo >=
        old(calls.failedUndo) + indexing.Lost(tx) + LostFiles(old(files), files) +
        IndexingPipeline.Missed(RowsGivenBack(stores.history, old(stores.history), key, now, processed))
    }

    /** How much of what `restore_artifacts` and `remove_new_extracted_images` are for is not as before. */
    ghost function LostFiles(before: Files, now: Files): nat {
      IndexingPipeline.Missed(CapturedAreBack(before, now)) +
      IndexingPipeline.Missed(ImageInventory(now) <= ImageInventory(before))
    }

    ghost predicate CapturedAreBack(before: Files, now: Files) {
      forall p :: p in BackupPaths(before) ==> SameFile(now, before, p)
    }

    static ghost predicate RowsGivenBack(history: History, was: History, key: RowKey, now: nat, processed: bool) {
      && (forall k :: k != key ==> SameEntry(history, was, k))
      && (key in history <==> key in was)
      && (key in history ==> history[key] == var row := was[key]; if processed then RestoredRow(row, now) else row)
    }

    /** Every store is as before, and so is every file that comes back, and no other. */
    twostate predicate Abandoned(entry: Entry, collection: string, tx: nat, now: nat, work: Processing,
                                 processed: bool)
      reads this, chroma`disk, indexing.chroma`disk, stores`indexFile, stores`modelFile, stores`history
    {
      && indexing.CorpusKept(tx)
      && Undone(RowKey(entry.fileHash, collection), now, processed)
      && (files == old(files) || GivenBack(old(files), Processed(old(files), work), files))
    }

    static predicate SameEntry(a: History, b: History, k: RowKey) {
      (k in a <==> k in b) && (k in a ==> a[k] == b[k])
    }

    /** What capturing the artifacts kept of the files before the run. */
    ghost predicate Captures(backups: map<string, Option<File>>, before: Files) {
      && backups.Keys == BackupPaths(before)
      && forall p :: p in backups ==> IsBackup(backups[p], before, p)
    }

    static predicate IsBackup(backup: Option<File>, before: Files, path: string) {
      (path in before <==> backup.Some?) && (path in before ==> before[path] == backup.value)
    }

    function CaptureArtifacts(fs: Files): (backups: map<string, Option<File>>)
      ensures Captures(backups, fs)
    {
      map p | p in BackupPaths(fs) :: if p in fs then Some(fs[p]) else None
    }

    lemma RestoredFiles(backups: map<string, Option<File>>, before: Files, left: Files, restored: Files, now: Files)
      requires Captures(backups, before) && forall p :: !Writable(p) ==> SameFile(left, before, p)
      requires forall p :: p in backups ==> IsBackup(backups[p], restored, p)
      requires forall p :: p !in backups ==>
                 if p in DocumentImages(left) then p !in restored else SameFile(restored, left, p)
      requires forall p :: p in ImageInventory(before) || !IsImage(p) ==> SameFile(now, restored, p)
      requires forall p :: p in now ==> p in restored
      requires ImageInventory(now) <= ImageInventory(before)
      ensures GivenBack(before, left, now)
    {
      forall p ensures SameFile(now, before, p) <==> ComesBack(p, before, left) {
        if IsImage(p) && p !in before {
          assert p !in ImageInventory(now);
        } else {
          assert SameFile(now, restored, p);
          if p !in backups && p !in DocumentImages(left) {
            assert SameFile(restored, left, p);
          }
        }
      }
    }

    /** The first two restorations. */
    method RestoreFiles(backups: map<string, Option<File>>, inventory: set<string>, ghost before: Files)
      returns (ok: bool)
      requires Wired() && Captures(backups, before) && inventory == ImageInventory(before)
      requires forall p :: !Writable(p) ==> SameFile(files, before, p)
      modifies this`files, calls
      ensures calls.failed == old(calls.failed) && calls.failedUndo >= old(calls.failedUndo) + LostFiles(before, files)
      ensures !ok ==> calls.failedUndo > old(calls.failedUndo)
      ensures ok ==> GivenBack(before, old(files), files)
    {
      ok := RestoreArtifacts(backups);
      ghost var restored := files;
      var removed := RemoveNewImages(inventory);
      if ok && removed {
        RestoredFiles(backups, before, old(files), restored, files);
      }
      if ok {
        forall p | p in BackupPaths(before) ensures SameFile(files, before, p) {
          assert IsBackup(backups[p], before, p) && IsBackup(backups[p], restored, p);
          assert p in ImageInventory(before) || !IsImage(p) ==> SameFile(files, restored, p);
        }
      }
      ok := ok && removed;
    }

    /** The `except` block: each restoration is tried even when an earlier one raised. */
    method Rollback(backups: map<string, Option<File>>, inventory: set<string>, snapshot: Option<Row>,
                    key: RowKey, row: Row, now: nat, processed: bool, ghost before: Files, ghost was: History)
      returns (ok: bool)
      requires Wired() && Captures(backups, before) && inventory == ImageInventory(before)
      requires forall p :: !Writable(p) ==> SameFile(files, before, p)
      requires snapshot == if key in was then Some(was[key]) else None
      requires stores.history == was || (processed && stores.history == was[key := row])
      modifies this`files, stores`history, calls
      ensures calls.failed == old(calls.failed) && calls.failedUndo >= old(calls.failedUndo)
      ensures !ok ==> calls.failedUndo > old(calls.failedUndo)
      ensures calls.failedUndo >= old(calls.failedUndo) + LostFiles(before, files) +
                IndexingPipeline.Missed(RowsGivenBack(stores.history, was, key, now, processed))
      ensures ok ==> GivenBack(before, old(files), files)
      ensures forall k :: k != key ==> SameEntry(stores.history, was, k)
      ensures ok ==> RowsGivenBack(stores.history, was, key, now, processed)
    {
      ok := RestoreFiles(backups, inventory, before);
      if processed {
        var rewritten := stores.RestoreHistory(key, snapshot, now);
        ok := ok && rewritten;
      }
    }

    // ----- finalize_optional_assets and cleanup_superseded ---------------------------------------

    /** A success of the same collection and source, with another hash. */
    static predicate AnotherVersion(k: RowKey, row: Row, entry: Entry, collection: string) {
      var source := if row.source == None || row.source == Some("") then row.path else row.source.value;
      k.fileHash != entry.fileHash && k.collection == collection && row.status.Success? &&
      PathKey(source) == PathKey(entry.sourcePath)
    }

    /** `_superseded_records`: another version of the same source that was ingested into the same collection. */
    static predicate IsSuperseded(k: RowKey, row: Row, entry: Entry, collection: string) {
      && k.collection == collection && row.status == Success && k.fileHash != entry.fileHash
      && PathKey(if row.source.Some? && row.source.value != "" then row.source.value else row.path) ==
         PathKey(entry.sourcePath)
    }

    static function Superseded(h: History, entry: Entry, collection: string): (superseded: set<RowKey>)
      ensures forall k :: k in superseded <==> k in h && AnotherVersion(k, h[k], entry, collection)
    {
      set k | k in h && IsSuperseded(k, h[k], entry, collection)
    }

    /** Each kind of artifact has its own managed directory. */
    predicate Managed(a: Artifact) {
      match a
      case DocumentArtifact(path) => documentDirectory <= path
      case ChunkArtifact(path) => chunkDirectory <= path
      case ImageArtifact(path) => imageDirectory <= path
    }

    /** `_image_referenced_by_other_record`, the owners being set aside. */
    static predicate Referenced(path: string, h: History, owners: set<RowKey>) {
      exists k :: k in h && k !in owners && h[k].status == Success && ImageArtifact(path) in h[k].artifacts
    }

    /** The removal of the owners' records takes this artifact along. */
    predicate Disposable(a: Artifact, h: History, owners: set<RowKey>) {
      Managed(a) && (a.ImageArtifact? ==> !Referenced(a.path, h, owners))
    }

    /** The files that the removal of the owners' records takes along. */
    ghost function DisposablePaths(h: History, owners: set<RowKey>): set<string>
      requires owners <= h.Keys
    {
      set k, a | k in owners && a in h[k].artifacts && Disposable(a, h, owners) :: a.path
    }

    /** Who refers to an image as one of its own. */
    static predicate Lists(h: History, k: RowKey, image: string) {
      k in h && h[k].status == Success && ImageArtifact(image) in h[k].artifacts
    }

    static ghost predicate ListedOnlyBy(h: History, owners: set<RowKey>, image: string) {
      forall other :: Lists(h, other, image) ==> other in owners
    }

    /** What goes with records: their documents and chunks where these lie in the managed directories, and such images
        as no other successful record lists. */
    lemma WhatGoes(h: History, owners: set<RowKey>, path: string)
      requires owners <= h.Keys
      ensures path in DisposablePaths(h, owners) <==>
        exists k :: k in owners &&
          (|| (DocumentArtifact(path) in h[k].artifacts && documentDirectory <= path)
           || (ChunkArtifact(path) in h[k].artifacts && chunkDirectory <= path)
           || (ImageArtifact(path) in h[k].artifacts && imageDirectory <= path && ListedOnlyBy(h, owners, path)))
    {
      if path in DisposablePaths(h, owners) {
        var k, a :| k in owners && a in h[k].artifacts && Disposable(a, h, owners) && a.path == path;
        assert a == DocumentArtifact(path) || a == ChunkArtifact(path) || a == ImageArtifact(path);
        ReferencedIff(path, h, owners);
      }
      forall k | k in owners
        ensures DocumentArtifact(path) in h[k].artifacts && documentDirectory <= path ==>
          path in DisposablePaths(h, owners)
        ensures ChunkArtifact(path) in h[k].artifacts && chunkDirectory <= path ==> path in DisposablePaths(h, owners)
        ensures ImageArtifact(path) in h[k].artifacts && imageDirectory <= path && ListedOnlyBy(h, owners, path) ==>
          path in DisposablePaths(h, owners)
      {
        assert Disposable(DocumentArtifact(path), h, owners) <==> documentDirectory <= path;
        assert Disposable(ChunkArtifact(path), h, owners) <==> chunkDirectory <= path;
        ReferencedIff(path, h, owners);
      }
    }

    static lemma ReferencedIff(path: string, h: History, owners: set<RowKey>)
      ensures Referenced(path, h, owners) <==> !ListedOnlyBy(h, owners, path)
    {
      if other :| Lists(h, other, path) && other !in owners {
        assert Referenced(path, h, owners);
      }
    }

    /** After a run has succeeded: the history differs from the committed one in some superseded records that are gone,
        and the files differ from those that processing left in files of superseded records that are gone, in the
        failure ledger, and in the document, which its final form may have replaced. */
    ghost predicate CleanedUp(committed: History, history: History, left: Files, now: Files, finalized: Option<File>,
                              entry: Entry, collection: string)
    {
      var superseded := Superseded(committed, entry, collection);
      && (forall k :: k !in superseded || k in history ==> SameEntry(history, committed, k))
      && (forall p :: p !in {documentPath, ledgerPath} && (p !in DisposablePaths(committed, superseded) || p in now) ==>
            SameFile(now, left, p))
      && (documentPath in now ==> documentPath in left)
      && (documentPath in left && documentPath !in DisposablePaths(committed, superseded) ==> documentPath in now)
      && (documentPath in now ==> now[documentPath] == left[documentPath] || Some(now[documentPath]) == finalized)
    }

    /** No superseded record is left, nor any of its files that no other record refers to; unless one of them lies
        outside the managed directories. */
    ghost predicate NothingSuperseded(committed: History, history: History, now: Files, entry: Entry,
                                      collection: string)
    {
      var superseded := Superseded(committed, entry, collection);
      AllManaged(committed, superseded) ==>
        && history == committed - superseded
        && DisposablePaths(committed, superseded) !! now.Keys
    }

    /** `finalize_optional_assets`: once its images are stored, the document is rewritten. */
    method FinalizeOptionalAssets(finalized: File) returns (ok: bool)
      modifies this`files, calls
      ensures calls.failedUndo == old(calls.failedUndo) && calls.failed >= old(calls.failed)
      ensures !ok && documentPath in old(files) ==> calls.failed > old(calls.failed)
      ensures files == if ok then old(files)[documentPath := finalized] else old(files)
      ensures ok ==> documentPath in old(files)
    {
      ok := calls.Forward();
      ok := ok && documentPath in files;
      if !ok {
        return;
      }
      ok := calls.Forward();
      if !ok {
        return;
      }
      ok := PutFile(documentPath, Some(finalized), false);
    }

    /** `_delete_superseded_artifacts`: in order, up to the first one outside its managed directory. */
    method DeleteArtifacts(owner: RowKey) returns (ok: bool, ghost removed: set<string>)
      requires owner in stores.history
      modifies this`files, calls
      ensures calls.failedUndo == old(calls.failedUndo) && calls.failed >= old(calls.failed)
      ensures files == old(files) - removed && removed <= DisposablePaths(stores.history, {owner})
      ensures ok ==> removed == DisposablePaths(stores.history, {owner})
      ensures !ok && AllManaged(stores.history, {owner}) ==> calls.failed > old(calls.failed)
    {
      var artifacts := stores.history[owner].artifacts;
      removed := {};
      for i := 0 to |artifacts|
        invariant calls.failedUndo == old(calls.failedUndo) && calls.failed == old(calls.failed)
        invariant files == old(files) - removed && removed <= DisposablePaths(stores.history, {owner})
        invariant forall j :: 0 <= j < i && Disposable(artifacts[j], stores.history, {owner}) ==>
                    artifacts[j].path in removed
      {
        var a := artifacts[i];
        if !Managed(a) {
          return false, removed;
        }
        if a.ImageArtifact? && Referenced(a.path, stores.history, {owner}) {
          continue;
        }
        assert a in artifacts && Disposable(a, stores.history, {owner});
        ok := PutFile(a.path, None, false);
        if !ok {
          return;
        }
        removed := removed + {a.path};
      }
      return true, removed;
    }

    /** One turn of the loop of `cleanup_superseded`: the stored images, the artifacts, and then the record. */
    method RemoveRecord(owner: RowKey) returns (ok: bool, ghost removed: set<string>)
      requires owner in stores.history
      modifies this`files, stores`history, calls
      ensures calls.failedUndo == old(calls.failedUndo) && calls.failed >= old(calls.failed)
      ensures stores.history == if ok then old(stores.history) - {owner} else old(stores.history)
      ensures files == old(files) - removed && removed <= DisposablePaths(old(stores.history), {owner})
      ensures ok ==> removed == DisposablePaths(old(stores.history), {owner})
      ensures !ok && AllManaged(old(stores.history), {owner}) ==> calls.failed > old(calls.failed)
    {
      removed := {};
      assert files == files - removed;
      ok := calls.Forward();
      if !ok {
        return;
      }
      ok, removed := DeleteArtifacts(owner);
      if !ok {
        return;
      }
      ok := calls.Forward();
      if ok {
        stores.history := stores.history - {owner};
      }
    }

    ghost predicate AllManaged(h: History, owners: set<RowKey>)
      requires owners <= h.Keys
    {
      forall k, a :: k in owners && a in h[k].artifacts ==> Managed(a)
    }

    /** The files of the records that are gone are gone too, but for images that a record left refers to. */
    ghost predicate Cleared(h: History, gone: set<RowKey>, removed: set<string>)
      requires gone <= h.Keys
    {
      forall k, a :: k in gone && a in h[k].artifacts ==>
        a.path in removed || (a.ImageArtifact? && Referenced(a.path, h - gone, {}))
    }

    /** What goes with one record goes with all of them. */
    lemma DisposableGrows(h: History, gone: set<RowKey>, k: RowKey, owners: set<RowKey>)
      requires owners <= h.Keys && gone <= owners && k in owners - gone
      ensures DisposablePaths(h - gone, {k}) <= DisposablePaths(h, owners)
    {
      forall p | p in DisposablePaths(h - gone, {k}) ensures p in DisposablePaths(h, owners) {
        var a :| a in h[k].artifacts && Disposable(a, h - gone, {k}) && a.path == p;
        if Referenced(p, h, owners) {
          var s :| s in h && s !in owners && h[s].status == Success && ImageArtifact(p) in h[s].artifacts;
          assert s in h - gone && (h - gone)[s] == h[s];
          assert Referenced(p, h - gone, {k});
        }
        assert Disposable(a, h, owners);
      }
    }

    lemma ClearedGrows(h: History, gone: set<RowKey>, k: RowKey, removed: set<string>)
      requires gone <= h.Keys && k in h && k !in gone && h[k].status == Success && Cleared(h, gone, removed)
      requires AllManaged(h, {k})
      ensures Cleared(h, gone + {k}, removed + DisposablePaths(h - gone, {k}))
    {
      var rest := h - (gone + {k});
      var more := DisposablePaths(h - gone, {k});
      forall j, a | j in gone + {k} && a in h[j].artifacts && a.path !in removed + more
        ensures a.ImageArtifact? && Referenced(a.path, rest, {})
      {
        if j == k {
          assert !Disposable(a, h - gone, {k}) by {
            assert (h - gone)[k] == h[k];
          }
        } else {
          KeptByOther(a.path, h - gone, k);
        }
        OtherReference(a.path, h, gone, k);
      }
    }

    /** An image that its record's removal leaves alone is one that another record refers to. */
    lemma KeptByOther(path: string, h: History, k: RowKey)
      requires k in h && AllManaged(h, {k})
      requires path !in DisposablePaths(h, {k}) && Referenced(path, h, {})
      ensures Referenced(path, h, {k})
    {
      var s :| s in h && h[s].status == Success && ImageArtifact(path) in h[s].artifacts;
      if s == k {
        assert !Disposable(ImageArtifact(path), h, {k});
      }
    }

    static lemma OtherReference(path: string, h: History, gone: set<RowKey>, k: RowKey)
      requires Referenced(path, h - gone, {k})
      ensures Referenced(path, h - (gone + {k}), {})
    {
      var s :| s in h - gone && s !in {k} && (h - gone)[s].status == Success &&
               ImageArtifact(path) in (h - gone)[s].artifacts;
      var rest := h - (gone + {k});
      assert s in rest && rest[s] == h[s];
    }

    lemma ClearedAll(h: History, owners: set<RowKey>, removed: set<string>)
      requires owners <= h.Keys && Cleared(h, owners, removed)
      ensures DisposablePaths(h, owners) <= removed
    {
      forall p | p in DisposablePaths(h, owners) ensures p in removed {
        var k, a :| k in owners && a in h[k].artifacts && Disposable(a, h, owners) && a.path == p;
        if Referenced(p, h - owners, {}) {
          var s :| s in h - owners && (h - owners)[s].status == Success &&
                   ImageArtifact(p) in (h - owners)[s].artifacts;
          assert Referenced(p, h, owners);
        }
      }
    }

    /** Some of these records are gone, and `removed` are files that went with them. */
    ghost predicate Purging(h: History, owners: set<RowKey>, gone: set<RowKey>, removed: set<string>) {
      gone <= owners <= h.Keys && removed <= DisposablePaths(h, owners)
    }

    /** Where every artifact is managed, every record that is not left to do is gone, with all files that had to go. */
    ghost predicate Thorough(h: History, owners: set<RowKey>, todo: set<RowKey>, gone: set<RowKey>,
                             removed: set<string>)
    {
      owners <= h.Keys && AllManaged(h, owners) ==> gone == owners - todo && Cleared(h, gone, removed)
    }

    lemma PurgingStep(h: History, owners: set<RowKey>, todo: set<RowKey>, gone: set<RowKey>, k: RowKey,
                      removed: set<string>, more: set<string>)
      requires Purging(h, owners, gone, removed) && k in todo && todo <= owners - gone && h[k].status == Success
      requires more <= DisposablePaths(h - gone, {k})
      ensures Purging(h, owners, gone, removed + more) && Purging(h, owners, gone + {k}, removed + more)
      ensures Thorough(h, owners, todo, gone, removed) && more == DisposablePaths(h - gone, {k}) ==>
                Thorough(h, owners, todo - {k}, gone + {k}, removed + more)
      ensures AllManaged(h, owners) ==> AllManaged(h - gone, {k})
    {
      DisposableGrows(h, gone, k, owners);
      if Cleared(h, gone, removed) && more == DisposablePaths(h - gone, {k}) && AllManaged(h, owners) {
        ClearedGrows(h, gone, k, removed);
      }
    }

    method RemoveNext(owner: RowKey, ghost h: History, ghost owners: set<RowKey>, ghost todo: set<RowKey>,
                      ghost gone: set<RowKey>, ghost removed: set<string>, ghost before: Files)
      returns (ok: bool, ghost nowGone: set<RowKey>, ghost nowRemoved: set<string>)
      requires Purging(h, owners, gone, removed) && owner in todo && todo <= owners - gone && h[owner].status == Success
      requires stores.history == h - gone && files == before - removed
      modifies this`files, stores`history, calls
      ensures calls.failedUndo == old(calls.failedUndo) && calls.failed >= old(calls.failed)
      ensures nowGone == (if ok then gone + {owner} else gone) && Purging(h, owners, nowGone, nowRemoved)
      ensures stores.history == h - nowGone && files == before - nowRemoved
      ensures calls.failed == old(calls.failed) && Thorough(h, owners, todo, gone, removed) ==>
                Thorough(h, owners, todo - {owner}, nowGone, nowRemoved)
    {
      assert stores.history[owner] == h[owner];
      ghost var more;
      ok, more := RemoveRecord(owner);
      PurgingStep(h, owners, todo, gone, owner, removed, more);
      nowGone, nowRemoved := if ok then gone + {owner} else gone, removed + more;
      assert before - removed - more == before - nowRemoved;
      assert ok ==> h - gone - {owner} == h - nowGone;
    }

    /** The loop of `cleanup_superseded`: an OSError, ValueError or SQLite error of one record is noted and the next one
        tried; any other ends the loop. */
    method RemoveRecords(owners: set<RowKey>) returns (ghost gone: set<RowKey>, ghost removed: set<string>)
      requires owners <= stores.history.Keys && forall k :: k in owners ==> stores.history[k].status == Success
      modifies this`files, stores`history, calls
      ensures calls.failedUndo == old(calls.failedUndo) && calls.failed >= old(calls.failed)
      ensures Purging(old(stores.history), owners, gone, removed)
      ensures stores.history == old(stores.history) - gone && files == old(files) - removed
      ensures calls.failed == old(calls.failed) ==> Thorough(old(stores.history), owners, {}, gone, removed)
    {
      ghost var h := stores.history;
      var todo := owners;
      gone, removed := {}, {};
      assert h - gone == h && files - removed == files;
      while todo != {}
        invariant todo <= owners && gone <= owners - todo && stores.history == h - gone
        invariant calls.failedUndo == old(calls.failedUndo) && calls.failed >= old(calls.failed)
        invariant Purging(h, owners, gone, removed) && files == old(files) - removed
        invariant calls.failed == old(calls.failed) ==> Thorough(h, owners, todo, gone, removed)
        decreases |todo|
      {
        var owner :| owner in todo;
        var ok;
        ok, gone, removed := RemoveNext(owner, h, owners, todo, gone, removed, old(files));
        todo := todo - {owner};
        if !ok {
          var caught: bool := *;
          if !caught {
            return;
          }
        }
      }
    }

    /** `cleanup_superseded`. */
    method CleanUpSuperseded(entry: Entry, collection: string, ledger: File)
      requires Wired()
      modifies this`files, stores`history, calls
      ensures calls.failedUndo == old(calls.failedUndo) && calls.failed >= old(calls.failed)
      ensures var superseded := Superseded(old(stores.history), entry, collection);
        && (forall k :: k !in superseded || k in stores.history ==> SameEntry(stores.history, old(stores.history), k))
        && (forall p :: p != ledgerPath && (p !in DisposablePaths(old(stores.history), superseded) || p in files) ==>
              SameFile(files, old(files), p))
      ensures calls.failed == old(calls.failed) ==>
                NothingSuperseded(old(stores.history), stores.history, files, entry, collection)
    {
      var superseded := Superseded(stores.history, entry, collection);
      var ok := calls.Forward();
      if !ok {
        return;
      }
      ghost var gone, removed := RemoveRecords(superseded);
      if calls.failed == old(calls.failed) && AllManaged(old(stores.history), superseded) {
        ClearedAll(old(stores.history), superseded, removed);
      }
      if superseded != {} {
        ok := PutFile(ledgerPath, Some(ledger), false);
      }
    }

    /** Both steps after the commit; whatever the first raises keeps the second from running, and is swallowed. */
    method CleanUp(entry: Entry, collection: string, finalized: Option<File>, ledger: File)
      requires Wired()
      modifies this`files, stores`history, calls
      ensures calls.failedUndo == old(calls.failedUndo) && calls.failed >= old(calls.failed)
      ensures CleanedUp(old(stores.history), stores.history, old(files), files, finalized, entry, collection)
      ensures SameEntry(stores.history, old(stores.history), RowKey(entry.fileHash, collection))
      ensures calls.failed == old(calls.failed) && (finalized.None? || documentPath in old(files)) ==>
                NothingSuperseded(old(stores.history), stores.history, files, entry, collection)
    {
      if finalized.Some? {
        var ok := FinalizeOptionalAssets(finalized.value);
        if !ok {
          return;
        }
      }
      CleanUpSuperseded(entry, collection, ledger);
    }

    /** The run up to the committed index, with its restoration from what was captured when it raises. */
    method Restorable(entry: Entry, collection: string, force: bool, tx: nat, row: Row, now: nat, work: Processing,
                      stored: seq<Chunk>)
      returns (r: Outcome, ghost chunks: seq<Chunk>, ghost processed: bool, ghost after: DenseIndex)
      requires Wired() && Canonical in chroma.disk.collections && chroma.Unused(tx)
      modifies this`files, chroma, stores, calls
      ensures indexing.Accountable(r, old(Ready(work, stored, entry, collection)))
      ensures r == Done ==> stores.history == old(stores.history)[RowKey(entry.fileHash, collection) := row]
      ensures r == Done ==> files == Processed(old(files), work)
      ensures r == Done && calls.failed == old(calls.failed) ==> stores.preparedBackup.None?
      ensures r == Done ==> Ingested(entry, collection, work, stored, chunks)
      ensures r.Raised? ==> LossesHaveFailed(RowKey(entry.fileHash, collection), tx, now, processed)
      ensures r == Raised(true) ==> Abandoned(entry, collection, tx, now, work, processed)
      ensures chroma.SafeThroughout(after)
      ensures IndexingPipeline.NewCorpus(after, old(chroma.disk).collections[Canonical].records, chunks)
      ensures r == Done ==> after == chroma.disk.collections[Canonical].records
    {
      var key := RowKey(entry.fileHash, collection);
      var backups := CaptureArtifacts(files);
      var snapshot := if key in stores.history then Some(stores.history[key]) else None;
      var inventory := ImageInventory(files);
      var completed;
      r, completed, chunks, after := Advance(entry, collection, force, tx, row, work, stored);
      processed := completed;
      if r != Done {
        var ok :=
          Rollback(backups, inventory, snapshot, key, row, now, completed, old(files), old(stores.history));
        assert LossesHaveFailed(key, tx, now, processed);
        r := Raised(r.compensated && ok);
        assert r == Raised(true) ==> Undone(key, now, processed);
      }
    }

    /** Capturing what there is before the run may raise, too. */
    method Guarded(entry: Entry, collection: string, force: bool, tx: nat, row: Row, now: nat, work: Processing,
                   stored: seq<Chunk>)
      returns (r: Outcome, ghost chunks: seq<Chunk>, ghost processed: bool, ghost after: DenseIndex)
      requires Wired() && Canonical in chroma.disk.collections && chroma.Unused(tx)
      modifies this`files, chroma, stores, calls
      ensures indexing.Accountable(r, old(Ready(work, stored, entry, collection)))
      ensures r == Done ==> stores.history == old(stores.history)[RowKey(entry.fileHash, collection) := row]
      ensures r == Done ==> files == Processed(old(files), work)
      ensures r == Done && calls.failed == old(calls.failed) ==> stores.preparedBackup.None?
      ensures r == Done ==> Ingested(entry, collection, work, stored, chunks)
      ensures r.Raised? ==> LossesHaveFailed(RowKey(entry.fileHash, collection), tx, now, processed)
      ensures r == Raised(true) ==> Abandoned(entry, collection, tx, now, work, processed)
      ensures chroma.SafeThroughout(after)
      ensures IndexingPipeline.NewCorpus(after, old(chroma.disk).collections[Canonical].records, chunks)
      ensures r == Done ==> after == chroma.disk.collections[Canonical].records
    {
      after := chroma.disk.collections[Canonical].records;
      var ok := calls.Forward();
      if !ok {
        assert chroma.disk.collections - {Staging(tx), Failed(tx)} == chroma.disk.collections;
        return Raised(true), [], false, after;
      }
      r, chunks, processed, after := Restorable(entry, collection, force, tx, row, now, work, stored);
    }

    /** `_run_locked`: when it returns, every store holds the new corpus; when it raises and could undo itself, every
        store is as before, and so is every file that comes back, and no other; at every moment the vector store is
        refused or opens on the complete old corpus or the complete encoding of the new one. */
    method RunLocked(entry: Entry, collection: string, force: bool, tx: nat, row: Row, now: nat, work: Processing,
                     stored: seq<Chunk>, finalized: Option<File>, ledger: File)
      returns (r: Outcome, ghost chunks: seq<Chunk>, ghost processed: bool, ghost after: DenseIndex)
      requires Wired() && Canonical in chroma.disk.collections && chroma.Unused(tx)
      modifies this`files, chroma, stores, calls
      ensures indexing.Accountable(r, old(Ready(work, stored, entry, collection)))
      ensures r == Done ==>
                CleanedUp(old(stores.history)[RowKey(entry.fileHash, collection) := row], stores.history,
                          Processed(old(files), work), files, finalized, entry, collection)
      ensures r == Done && calls.failed == old(calls.failed) ==> stores.preparedBackup.None?
      ensures r == Done && calls.failed == old(calls.failed) &&
              (finalized.None? || documentPath in Processed(old(files), work)) ==>
                NothingSuperseded(old(stores.history)[RowKey(entry.fileHash, collection) := row], stores.history, files,
                                  entry, collection)
      ensures r == Done ==> Ingested(entry, collection, work, stored, chunks)
      ensures r == Done ==> RowKey(entry.fileHash, collection) in stores.history
      ensures r == Done ==> stores.history[RowKey(entry.fileHash, collection)] == row
      ensures r.Raised? ==> LossesHaveFailed(RowKey(entry.fileHash, collection), tx, now, processed)
      ensures r == Raised(true) ==> Abandoned(entry, collection, tx, now, work, processed)
      ensures chroma.SafeThroughout(after)
      ensures IndexingPipeline.NewCorpus(after, old(chroma.disk).collections[Canonical].records, chunks)
      ensures r == Done ==> after == chroma.disk.collections[Canonical].records
    {
      r, chunks, processed, after := Guarded(entry, collection, force, tx, row, now, work, stored);
      if r.Raised? {
        return;
      }
      CleanUp(entry, collection, finalized, ledger);
    }
  }
}
