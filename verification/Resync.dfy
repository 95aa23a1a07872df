/** Which chunks a full resynchronization may index, and the check that refuses to drop unrelated
    ones (src/ingestion/pipeline.py). */
module Resync {
  import opened Outcomes
  import opened Corpus

  type DenseIndex = map<string, DenseRecord>
  type SparseIndex = map<string, SparseDocument>

  /** Drop chunks of the current source that carry another file hash. */
  function CurrentFiltered(chunks: seq<Chunk>, entry: Entry, collection: string): (kept: seq<Chunk>) {
    if chunks == [] then [] else
    var kept, c := CurrentFiltered(chunks[..|chunks| - 1], entry, collection), chunks[|chunks| - 1];
    if IsCurrentSource(c.metadata, entry, collection) && c.metadata.fileHash != Some(entry.fileHash) then kept
    else kept + [c]
  }

  /** `_select_indexed_or_current_chunks`: keep what is indexed, or current at the current hash. */
  method SelectIndexedOrCurrent(chunks: seq<Chunk>, dense: DenseIndex, sparse: SparseIndex,
                                entry: Entry, collection: string)
    returns (r: Option<seq<Chunk>>)
    requires DistinctIds(chunks)
    ensures r.Some? ==> r.value == Selection(chunks, dense, sparse, entry, collection)
    ensures r.None? ==> Selection(chunks, dense, sparse, entry, collection) == []
  {
    var indexed := dense.Keys + sparse.Keys;
    var current := CurrentFiltered(chunks, entry, collection);
    SelectionOfCurrent(chunks, dense, sparse, entry, collection);
    if indexed == {} {
      return Some(current);
    }
    var selected: seq<Chunk> := [];
    for i := 0 to |current|
      invariant selected == Selection(current[..i], dense, sparse, entry, collection)
    {
      var c := current[i];
      assert current[..i + 1][..i] == current[..i];
      if IsCurrentSource(c.metadata, entry, collection) {
        if c.metadata.fileHash == Some(entry.fileHash) {
          selected := selected + [c];
        }
        continue;
      }
      if c.id in indexed {
        selected := selected + [c];
      }
    }
    assert current[..|current|] == current;
    if selected == [] {
      return None;
    }
    return Some(selected);
  }

  /** The chunks of a list that may be indexed. */
  function Selection(chunks: seq<Chunk>, dense: DenseIndex, sparse: SparseIndex, entry: Entry, collection: string)
    : (kept: seq<Chunk>)
  {
    if chunks == [] then [] else
    var kept, c := Selection(chunks[..|chunks| - 1], dense, sparse, entry, collection), chunks[|chunks| - 1];
    if Selectable(c, dense, sparse, entry, collection) then kept + [c] else kept
  }

  /** Filtering out outdated chunks first changes nothing; with an empty index nothing else is dropped. */
  lemma {:induction false} SelectionOfCurrent(chunks: seq<Chunk>, dense: DenseIndex, sparse: SparseIndex,
                                              entry: Entry, collection: string)
    ensures var current := CurrentFiltered(chunks, entry, collection);
            Selection(current, dense, sparse, entry, collection) == Selection(chunks, dense, sparse, entry, collection)
    ensures dense.Keys + sparse.Keys == {} ==>
              CurrentFiltered(chunks, entry, collection) == Selection(chunks, dense, sparse, entry, collection)
  {
    if chunks != [] {
      var front, c := chunks[..|chunks| - 1], chunks[|chunks| - 1];
      SelectionOfCurrent(front, dense, sparse, entry, collection);
      var kept := CurrentFiltered(front, entry, collection);
      assert (kept + [c])[..|kept|] == kept;
    }
  }

  lemma {:induction false} SelectionMembers(chunks: seq<Chunk>, dense: DenseIndex, sparse: SparseIndex,
                                            entry: Entry, collection: string)
    ensures forall c :: c in Selection(chunks, dense, sparse, entry, collection) <==>
                        c in chunks && Selectable(c, dense, sparse, entry, collection)
    ensures DistinctIds(chunks) ==> DistinctIds(Selection(chunks, dense, sparse, entry, collection))
  {
    if chunks != [] {
      var front, c := chunks[..|chunks| - 1], chunks[|chunks| - 1];
      assert chunks == front + [c];
      SelectionMembers(front, dense, sparse, entry, collection);
      assert DistinctIds(chunks) ==> forall d :: d in front ==> d.id != c.id;
    }
  }

  predicate Selectable(c: Chunk, dense: DenseIndex, sparse: SparseIndex, entry: Entry, collection: string) {
    if IsCurrentSource(c.metadata, entry, collection) then c.metadata.fileHash == Some(entry.fileHash)
    else dense.Keys + sparse.Keys == {} || c.id in dense || c.id in sparse
  }

  /** `_validate_resync_snapshot`: true unless an indexed chunk of another source would be lost. */
  method ValidateSnapshot(chunks: seq<Chunk>, dense: DenseIndex, sparse: SparseIndex, entry: Entry, collection: string)
    returns (ok: bool)
    ensures ok <==> Covers(Ids(chunks), dense, sparse, entry, collection)
  {
    var desired := Ids(chunks);
    var missingDense := dense.Keys - desired;
    if exists id :: id in missingDense && !IsCurrentSource(dense[id].metadata, entry, collection) {
      return false;
    }
    var missingSparse := sparse.Keys - desired;
    if exists id :: id in missingSparse && !IsCurrentSource(sparse[id].metadata, entry, collection) {
      return false;
    }
    return true;
  }

  /** Every indexed id of another source is among the ids to be indexed. */
  predicate Covers(desired: set<string>, dense: DenseIndex, sparse: SparseIndex, entry: Entry, collection: string) {
    && (forall id :: id in dense && id !in desired ==> IsCurrentSource(dense[id].metadata, entry, collection))
    && (forall id :: id in sparse && id !in desired ==> IsCurrentSource(sparse[id].metadata, entry, collection))
  }

  /** Every chunk to be indexed was indexed already, or is current, or there was no index at all. */
  predicate NotResurrected(chunks: seq<Chunk>, dense: DenseIndex, sparse: SparseIndex, entry: Entry,
                           collection: string)
  {
    forall c :: c in chunks ==> WasIndexedOrCurrent(c, dense, sparse, entry, collection)
  }

  predicate WasIndexedOrCurrent(c: Chunk, dense: DenseIndex, sparse: SparseIndex, entry: Entry, collection: string) {
    c.id in dense || c.id in sparse || IsCurrentChunk(c, entry, collection) || dense.Keys + sparse.Keys == {}
  }

  /** No chunk of the current source at an outdated hash is indexed, even when there was no index. */
  predicate NoStaleVersion(chunks: seq<Chunk>, entry: Entry, collection: string) {
    forall c :: c in chunks ==> NotStale(c, entry, collection)
  }

  predicate NotStale(c: Chunk, entry: Entry, collection: string) {
    IsCurrentSource(c.metadata, entry, collection) ==> IsCurrentChunk(c, entry, collection)
  }

  /** Whatever the selection keeps and the snapshot check accepts neither loses nor resurrects. */
  lemma ResyncPreserves(chunks: seq<Chunk>, dense: DenseIndex, sparse: SparseIndex, entry: Entry, collection: string)
    requires Covers(Ids(Selection(chunks, dense, sparse, entry, collection)), dense, sparse, entry, collection)
    ensures var kept := Selection(chunks, dense, sparse, entry, collection);
            && NotResurrected(kept, dense, sparse, entry, collection) && NoStaleVersion(kept, entry, collection)
            && (forall id :: id in dense && !IsCurrentSource(dense[id].metadata, entry, collection) ==> id in Ids(kept))
            && (forall id :: id in sparse && !IsCurrentSource(sparse[id].metadata, entry, collection) ==>
              id in Ids(kept))
            && (forall c :: c in chunks && IsCurrentChunk(c, entry, collection) ==> c in kept)
  {
    SelectionMembers(chunks, dense, sparse, entry, collection);
  }
}
