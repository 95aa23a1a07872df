/** The index object: several instances share one file, which changes only as a whole
    (src/ingestion/storage/bm25_indexer.py). */
module BM25Index {
  import opened Outcomes
  import opened Ordering
  import opened Text
  import opened BM25
  import opened ExternalCalls

  datatype Stored = Stored(parameters: Parameters, documents: Documents)

  /** The index file. Every replacement gives it a signature it never had before. */
  datatype Disk = Disk(stored: Option<Stored>, version: nat) {
    function Documents(): Documents {
      if stored.Some? then stored.value.documents else map[]
    }

    function Signature(): Option<nat> {
      if stored.Some? then Some(version) else None
    }
  }

  class IndexFile {
    var disk: Disk

    constructor ()
      ensures disk == Disk(None, 0)
    {
      disk := Disk(None, 0);
    }
  }

  // ----- what the operations do to the documents -------------------------------------------------------

  function Upserted(docs: Documents, encodings: seq<Encoding>): Documents {
    if encodings == [] then docs else
    var last := encodings[|encodings| - 1];
    Upserted(docs, encodings[..|encodings| - 1])[last.chunkId := last.document]
  }

  predicate MetadataMatches(d: Document, filters: map<string, string>) {
    forall key :: key in filters ==> key in d.metadata && d.metadata[key] == filters[key]
  }

  function Doomed(docs: Documents, ids: set<string>, filters: Option<map<string, string>>): set<string> {
    set id | id in docs && (id in ids || (filters.Some? && MetadataMatches(docs[id], filters.value)))
  }

  /** Whether a removal names anything at all; one that does not removes nothing. */
  predicate Selects(ids: set<string>, filters: Option<map<string, string>>) {
    ids != {} || (filters.Some? && filters.value != map[])
  }

  /** One change of the index. */
  datatype Change =
    | Built(encodings: seq<Encoding>)
    | Upserting(encodings: seq<Encoding>)
    | Removing(ids: set<string>, filters: Option<map<string, string>>)

  function Changed(docs: Documents, c: Change): Documents {
    match c
    case Built(encodings) => Upserted(map[], encodings)
    case Upserting(encodings) => Upserted(docs, encodings)
    case Removing(ids, filters) => if Selects(ids, filters) then docs - Doomed(docs, ids, filters) else docs
  }

  /** A chunk that is upserted is in the index as its last encoding says, whether it was there before or not. */
  lemma {:induction false} UpsertedHolds(docs: Documents, encodings: seq<Encoding>, i: nat)
    requires i < |encodings| && forall j :: i < j < |encodings| ==> encodings[j].chunkId != encodings[i].chunkId
    ensures var after := Changed(docs, Upserting(encodings));
      encodings[i].chunkId in after && after[encodings[i].chunkId] == encodings[i].document
  {
    var front, last := encodings[..|encodings| - 1], encodings[|encodings| - 1];
    if i < |front| {
      assert forall j :: 0 <= j < |front| ==> front[j] == encodings[j];
      UpsertedHolds(docs, front, i);
      assert last.chunkId != encodings[i].chunkId;
    }
  }

  /** A building index holds nothing but what it is built from. */
  lemma {:induction false} BuiltHolds(encodings: seq<Encoding>, id: string) returns (i: nat)
    requires id in Changed(map[], Built(encodings))
    ensures i < |encodings| && encodings[i].chunkId == id
    ensures Changed(map[], Built(encodings))[id] == encodings[i].document
  {
    i := |encodings| - 1;
    if encodings[i].chunkId != id {
      i := BuiltHolds(encodings[..i], id);
    }
  }

  /** A removal keeps exactly the chunks that it does not name and whose metadata differ from its filters somewhere. */
  lemma RemovalKeeps(docs: Documents, ids: set<string>, filters: Option<map<string, string>>, id: string)
    requires id in docs && (ids != {} || (filters.Some? && filters.value != map[]))
    ensures var after := Changed(docs, Removing(ids, filters));
      && (id in after <==> id !in ids && (filters.None? || Differs(docs[id].metadata, filters.value)))
      && (id in after ==> after[id] == docs[id])
  {
    if filters.Some? && !Differs(docs[id].metadata, filters.value) {
      assert MetadataMatches(docs[id], filters.value);
    }
  }

  predicate Differs(metadata: map<string, string>, filters: map<string, string>) {
    exists key :: key in filters && (key !in metadata || metadata[key] != filters[key])
  }

  // ----- rebuilding ------------------------------------------------------------------------------------

  /** Whether the postings are right about one term and one chunk. */
  predicate Right(postings: Postings, docs: Documents, done: set<string>, id: string, terms: set<string>, t: string,
                  d: string)
  {
    && (t in postings && d in postings[t] <==> Has(docs, t, d) && (d in done || (d == id && t in terms)))
    && (t in postings && d in postings[t] && Has(docs, t, d) ==> postings[t][d] == docs[d].frequencies[t])
  }

  /** The postings of some documents, and of some terms of one more. */
  ghost predicate Covered(postings: Postings, docs: Documents, done: set<string>, id: string, terms: set<string>) {
    && (forall t, d :: Right(postings, docs, done, id, terms, t, d))
    && (forall t :: t in postings ==> postings[t] != map[])
  }

  lemma CoveredIsTranspose(postings: Postings, docs: Documents)
    requires Covered(postings, docs, docs.Keys, "", {})
    ensures postings == Transpose(docs)
  {
    var all := Transpose(docs);
    forall t ensures t in postings <==> t in all {
      if t in postings {
        var d :| d in postings[t];
        assert Right(postings, docs, docs.Keys, "", {}, t, d);
      }
      if t in all {
        var d :| d in docs && t in docs[d].frequencies;
        assert Right(postings, docs, docs.Keys, "", {}, t, d);
      }
    }
    forall t | t in postings ensures postings[t] == all[t] {
      forall d ensures d in postings[t] <==> d in all[t]
               ensures d in all[t] ==> postings[t][d] == all[t][d]
      {
        assert Right(postings, docs, docs.Keys, "", {}, t, d);
      }
    }
  }

  lemma CoversTerm(postings: Postings, docs: Documents, done: set<string>, id: string, terms: set<string>, term: string)
    requires Covered(postings, docs, done, id, terms) && Has(docs, term, id) && id !in done
    ensures var row := (if term in postings then postings[term] else map[])[id := docs[id].frequencies[term]];
      Covered(postings[term := row], docs, done, id, terms + {term})
  {
    var row := (if term in postings then postings[term] else map[])[id := docs[id].frequencies[term]];
    var after, more := postings[term := row], terms + {term};
    assert id in row;
    forall t, d ensures Right(after, docs, done, id, more, t, d) {
      assert Right(postings, docs, done, id, terms, t, d);
    }
  }

  /** The postings of one document. */
  method AddDocument(postings: Postings, docs: Documents, ghost done: set<string>, id: string)
    returns (postings': Postings)
    requires id in docs && id !in done && Covered(postings, docs, done, id, {})
    ensures Covered(postings', docs, done, id, docs[id].frequencies.Keys)
  {
    postings' := postings;
    var terms := docs[id].frequencies.Keys;
    assert docs[id].frequencies.Keys - terms == {};
    while terms != {}
      invariant terms <= docs[id].frequencies.Keys
      invariant Covered(postings', docs, done, id, docs[id].frequencies.Keys - terms)
      decreases |terms|
    {
      var term :| term in terms;
      CoversTerm(postings', docs, done, id, docs[id].frequencies.Keys - terms, term);
      var row := if term in postings' then postings'[term] else map[];
      postings' := postings'[term := row[id := docs[id].frequencies[term]]];
      assert docs[id].frequencies.Keys - terms + {term} == docs[id].frequencies.Keys - (terms - {term});
      terms := terms - {term};
    }
    assert docs[id].frequencies.Keys - {} == docs[id].frequencies.Keys;
  }

  /** The loop over the documents. */
  method CollectPostings(docs: Documents) returns (postings: Postings, total: nat)
    ensures Covered(postings, docs, docs.Keys, "", {}) && total == TotalLength(docs)
  {
    postings, total := map[], 0;
    var todo := docs;
    while todo != map[]
      invariant Part(todo, docs)
      invariant Covered(postings, docs, docs.Keys - todo.Keys, "", {})
      invariant total + TotalLength(todo) == TotalLength(docs)
      decreases |todo|
    {
      var id :| id in todo;
      TotalWithout(todo, id);
      total := total + docs[id].length;
      postings := AddNext(postings, docs, todo, id);
      todo := todo - {id};
    }
    assert docs.Keys - todo.Keys == docs.Keys;
  }

  /** `_rebuild_postings`. */
  method RebuildPostings(docs: Documents) returns (postings: Postings, average: real)
    ensures postings == Transpose(docs) && average == AverageLength(docs)
  {
    var total;
    postings, total := CollectPostings(docs);
    CoveredIsTranspose(postings, docs);
    average := total as real / AtLeastOne(|docs|) as real;
  }

  predicate Part(todo: Documents, docs: Documents) {
    todo.Keys <= docs.Keys && forall id :: id in todo ==> todo[id] == docs[id]
  }

  method AddNext(postings: Postings, docs: Documents, ghost todo: Documents, id: string) returns (postings': Postings)
    requires Part(todo, docs) && id in todo && Covered(postings, docs, docs.Keys - todo.Keys, "", {})
    ensures Covered(postings', docs, docs.Keys - (todo - {id}).Keys, "", {})
  {
    ghost var done := docs.Keys - todo.Keys;
    NoTerms(postings, docs, done, id, "");
    postings' := AddDocument(postings, docs, done, id);
    assert done + {id} == docs.Keys - (todo - {id}).Keys;
    CoversDocument(postings', docs, done, id);
  }

  lemma CoversDocument(postings: Postings, docs: Documents, done: set<string>, id: string)
    requires id in docs && Covered(postings, docs, done, id, docs[id].frequencies.Keys)
    ensures Covered(postings, docs, done + {id}, "", {})
  {
    forall t, d ensures Right(postings, docs, done + {id}, "", {}, t, d) {
      assert Right(postings, docs, done, id, docs[id].frequencies.Keys, t, d);
    }
  }

  lemma NoTerms(postings: Postings, docs: Documents, done: set<string>, id: string, other: string)
    requires Covered(postings, docs, done, other, {})
    ensures Covered(postings, docs, done, id, {})
  {
    forall t, d ensures Right(postings, docs, done, id, {}, t, d) {
      assert Right(postings, docs, done, other, {}, t, d);
    }
  }

  // ----- what an instance holds --------------------------------------------------------------------------

  datatype Failure = ReadOnly | Busy | ReadFailed | SaveFailed | InvalidTopK

  /** What an instance holds in memory: parameters and documents, the signature of the file when it last read or wrote
      it, and the change it made to the documents since then without saving it, if there is one. */
  datatype Memory = Memory(parameters: Parameters, documents: Documents, signature: Option<nat>, lost: Option<Change>)

  /** The documents an instance answers from while the file has the signature it read. */
  function Believed(disk: Disk, lost: Option<Change>): Documents {
    if lost.Some? then Changed(disk.Documents(), lost.value) else disk.Documents()
  }

  /** While the file has the signature that was read, the instance holds what is in the file, or what a change that
      could not be saved would have made of it. */
  ghost predicate Coherent(disk: Disk, m: Memory) {
    && (m.signature.Some? ==> m.signature.value <= disk.version)
    && (m.signature == disk.Signature() ==>
         m.documents == Believed(disk, m.lost) && (disk.stored.Some? ==> m.parameters == disk.stored.value.parameters))
  }

  /** `_load_latest_unlocked`. */
  function Reloaded(disk: Disk, m: Memory): Memory {
    if disk.stored.Some? then Memory(disk.stored.value.parameters, disk.stored.value.documents, disk.Signature(), None)
    else Memory(m.parameters, map[], None, None)
  }

  /** `_refresh_if_changed`. */
  function Refreshed(disk: Disk, m: Memory): Memory {
    if disk.Signature() != m.signature then Reloaded(disk, m) else m
  }

  /** Changes that return before they read anything. */
  predicate Idle(c: Change) {
    match c
    case Built(_) => false
    case Upserting(encodings) => encodings == []
    case Removing(ids, filters) => !Selects(ids, filters)
  }

  /** Changes that have nothing to save once the latest file was read. */
  predicate NothingToSave(disk: Disk, c: Change) {
    c.Removing? && Doomed(disk.Documents(), c.ids, c.filters) == {}
  }

  /** Memory with the change made: over the latest file, except that building replaces everything unread. */
  function Made(disk: Disk, m: Memory, c: Change): Memory {
    var base := if c.Built? then m else Reloaded(disk, m);
    base.(documents := Changed(disk.Documents(), c), lost := Some(c))
  }

  /** The file and the memory of the writing instance after a write with this failure, or none. */
  function Written(disk: Disk, m: Memory, c: Change, failure: Option<Failure>): (Disk, Memory) {
    match failure
    case Some(SaveFailed) => (disk, Made(disk, m, c))
    case Some(_) => (disk, m)
    case None =>
      if Idle(c) then (disk, m)
      else if NothingToSave(disk, c) then (disk, Reloaded(disk, m))
      else
        var made := Made(disk, m, c);
        var disk' := Disk(Some(Stored(made.parameters, made.documents)), disk.version + 1);
        (disk', made.(signature := disk'.Signature(), lost := None))
  }

  // ----- the index ---------------------------------------------------------------------------------------

  class BM25Indexer {
    const calls: Calls
    const file: IndexFile
    const readOnly: bool
    const idf: Idf
    var parameters: Parameters
    var documents: Documents
    var postings: Postings
    var averageLength: real
    var signature: Option<nat>
    ghost var lost: Option<Change>

    /** The postings are the transpose of the documents, and the instance is coherent with the file. */
    ghost predicate Valid()
      reads this, file
    {
      && Usual(parameters) && (file.disk.stored.Some? ==> Usual(file.disk.stored.value.parameters))
      && postings == Transpose(documents) && averageLength == AverageLength(documents)
      && Coherent(file.disk, View())
    }

    ghost function View(): Memory
      reads this
    {
      Memory(parameters, documents, signature, lost)
    }

    constructor (calls: Calls, file: IndexFile, parameters: Parameters, idf: Idf, readOnly: bool)
      requires Usual(parameters) && (file.disk.stored.Some? ==> Usual(file.disk.stored.value.parameters))
      ensures this.calls == calls && this.file == file && this.idf == idf && this.readOnly == readOnly
      ensures Valid() && View() == Reloaded(file.disk, Memory(parameters, map[], None, None))
    {
      this.calls, this.file, this.idf, this.readOnly := calls, file, idf, readOnly;
      this.parameters := if file.disk.stored.Some? then file.disk.stored.value.parameters else parameters;
      this.documents := file.disk.Documents();
      var transposed, average := RebuildPostings(file.disk.Documents());
      this.postings, this.averageLength, this.signature := transposed, average, file.disk.Signature();
      this.lost := None;
    }

    /** `_load_latest_unlocked`: reading the file may fail, and then nothing changes. */
    method LoadLatest() returns (ok: bool)
      requires Valid()
      modifies this, calls`failed
      ensures Valid() && View() == if ok then Reloaded(file.disk, old(View())) else old(View())
      ensures calls.failed == old(calls.failed) + if ok then 0 else 1
    {
      ok := true;
      if file.disk.stored.Some? {
        ok := calls.Forward();
      }
      if ok {
        if file.disk.stored.Some? {
          parameters := file.disk.stored.value.parameters;
        }
        documents := file.disk.Documents();
        postings, averageLength := RebuildPostings(documents);
        signature, lost := file.disk.Signature(), None;
      }
    }

    /** `_save_unlocked`: the new file, or the old one when anything fails. */
    method Save() returns (ok: bool)
      requires Usual(parameters) && (file.disk.stored.Some? ==> Usual(file.disk.stored.value.parameters))
      requires postings == Transpose(documents) && averageLength == AverageLength(documents)
      modifies this`signature, this`lost, file, calls`failed
      ensures calls.failed == old(calls.failed) + if ok then 0 else 1
      ensures ok ==> file.disk == Disk(Some(Stored(parameters, documents)), old(file.disk).version + 1)
      ensures ok ==> Valid() && signature == file.disk.Signature() && lost == None
      ensures !ok ==> file.disk == old(file.disk) && signature == old(signature) && lost == old(lost)
    {
      ok := calls.Forward();
      if ok {
        file.disk := Disk(Some(Stored(parameters, documents)), file.disk.version + 1);
        signature, lost := file.disk.Signature(), None;
      }
    }

    /** Replaces everything, whatever is in the file. */
    method Build(encodings: seq<Encoding>) returns (failure: Option<Failure>)
      requires Valid()
      modifies this, file, calls`failed
      ensures Valid() && (readOnly <==> failure == Some(ReadOnly))
      ensures calls.failed ==
        old(calls.failed) + if failure == None || failure == Some(ReadOnly) then 0 else 1
      ensures (file.disk, View()) == Written(old(file.disk), old(View()), Built(encodings), failure)
    {
      if readOnly {
        return Some(ReadOnly);
      }
      var locked := calls.Forward();
      if !locked {
        return Some(Busy);
      }
      documents := map[];
      for i := 0 to |encodings|
        invariant View() == old(View()).(documents := Upserted(map[], encodings[..i]))
        invariant file.disk == old(file.disk) && calls.failed == old(calls.failed)
      {
        documents := documents[encodings[i].chunkId := encodings[i].document];
        assert encodings[..i + 1][..i] == encodings[..i];
      }
      assert encodings[..|encodings|] == encodings;
      failure := RebuildAndSave(documents, Built(encodings));
    }

    /** Adds to, or replaces in, what is in the file now, whatever this instance last saw of it. */
    method Upsert(encodings: seq<Encoding>) returns (failure: Option<Failure>)
      requires Valid()
      modifies this, file, calls`failed
      ensures Valid() && (readOnly <==> failure == Some(ReadOnly))
      ensures calls.failed ==
        old(calls.failed) + if failure == None || failure == Some(ReadOnly) then 0 else 1
      ensures (file.disk, View()) == Written(old(file.disk), old(View()), Upserting(encodings), failure)
    {
      if readOnly {
        return Some(ReadOnly);
      }
      if encodings == [] {
        return None;
      }
      var locked := calls.Forward();
      if !locked {
        return Some(Busy);
      }
      var ok := LoadLatest();
      if !ok {
        return Some(ReadFailed);
      }
      for i := 0 to |encodings|
        invariant View() ==
          Reloaded(old(file.disk), old(View())).(documents := Upserted(old(file.disk).Documents(), encodings[..i]))
        invariant file.disk == old(file.disk) && Usual(parameters) && calls.failed == old(calls.failed)
      {
        documents := documents[encodings[i].chunkId := encodings[i].document];
        assert encodings[..i + 1][..i] == encodings[..i];
      }
      assert encodings[..|encodings|] == encodings;
      failure := RebuildAndSave(documents, Upserting(encodings));
    }

    /** Removes from what is in the file now; counts what it removed. */
    method RemoveDocument(ids: set<string>, filters: Option<map<string, string>>)
      returns (failure: Option<Failure>, count: nat)
      requires Valid()
      modifies this, file, calls`failed
      ensures Valid() && (readOnly <==> failure == Some(ReadOnly))
      ensures calls.failed ==
        old(calls.failed) + if failure == None || failure == Some(ReadOnly) then 0 else 1
      ensures (file.disk, View()) == Written(old(file.disk), old(View()), Removing(ids, filters), failure)
      ensures failure == None && Selects(ids, filters) ==> count == |Doomed(old(file.disk).Documents(), ids, filters)|
      ensures !Selects(ids, filters) ==> count == 0
    {
      count := 0;
      if readOnly {
        return Some(ReadOnly), 0;
      }
      if !Selects(ids, filters) {
        return None, 0;
      }
      var locked := calls.Forward();
      if !locked {
        return Some(Busy), 0;
      }
      var ok := LoadLatest();
      if !ok {
        return Some(ReadFailed), 0;
      }
      failure, count := RemoveSelected(ids, filters);
    }

    /** What happens under the lock, once the latest file was read. */
    method RemoveSelected(ids: set<string>, filters: Option<map<string, string>>)
      returns (failure: Option<Failure>, count: nat)
      requires Valid() && Selects(ids, filters) && documents == file.disk.Documents() &&
        signature == file.disk.Signature()
      modifies this, file, calls`failed
      ensures calls.failed == old(calls.failed) + if failure.None? then 0 else 1
      ensures Valid() && count == |Doomed(old(documents), ids, filters)|
      ensures failure == None || failure == Some(SaveFailed)
      ensures count == 0 ==> failure == None && file.disk == old(file.disk) && View() == old(View())
      ensures count > 0 ==> Kept(old(file.disk), old(View()), Removing(ids, filters), failure == None)
    {
      var removed := Doomed(documents, ids, filters);
      count := |removed|;
      if removed == {} {
        return None, 0;
      }
      failure := RebuildAndSave(documents - removed, Removing(ids, filters));
    }

    /** The file and this instance after a change that was, or was not, saved. */
    ghost predicate Kept(disk: Disk, m: Memory, c: Change, saved: bool)
      reads this, file
    {
      var docs := Changed(disk.Documents(), c);
      if saved then
        && file.disk == Disk(Some(Stored(m.parameters, docs)), disk.version + 1)
        && View() == m.(documents := docs, signature := file.disk.Signature(), lost := None)
      else file.disk == disk && View() == m.(documents := docs, lost := Some(c))
    }

    /** Installs changed documents in this instance, then in the file. */
    method RebuildAndSave(docs: Documents, ghost c: Change) returns (failure: Option<Failure>)
      requires Usual(parameters) && (file.disk.stored.Some? ==> Usual(file.disk.stored.value.parameters))
      requires docs == Changed(file.disk.Documents(), c)
      requires signature.Some? ==> signature.value <= file.disk.version
      requires signature == file.disk.Signature() && file.disk.stored.Some? ==>
        parameters == file.disk.stored.value.parameters
      modifies this, file, calls`failed
      ensures calls.failed == old(calls.failed) + if failure.None? then 0 else 1
      ensures Valid() && (failure == None || failure == Some(SaveFailed))
      ensures Kept(old(file.disk), old(View()), c, failure == None)
    {
      documents, lost := docs, Some(c);
      postings, averageLength := RebuildPostings(documents);
      var ok := Save();
      failure := if ok then None else Some(SaveFailed);
    }

    /** The same as scoring every document that matches. It answers from the latest file, unless the last write of this
        instance failed in saving, the file was not replaced since, and the write would have changed it. */
    method Query(terms: seq<string>, topK: int) returns (r: Result<seq<Scored>, Failure>)
      requires Valid()
      modifies this, calls`failed
      ensures Valid() && (topK <= 0 <==> r == Err(InvalidTopK))
      ensures calls.failed == old(calls.failed) + if r == Err(ReadFailed) then 1 else 0
      ensures r.Err? ==> View() == old(View()) && (r.error == InvalidTopK || r.error == ReadFailed)
      ensures r.Ok? ==> View() == Refreshed(file.disk, old(View()))
      ensures r.Ok? ==> topK > 0 && r.value == Scan(documents, parameters, idf, terms, topK)
      ensures r.Ok? ==> (documents == file.disk.Documents() <==> old(AnswersFromFile(file.disk, View())))
    {
      if topK <= 0 {
        return Err(InvalidTopK);
      }
      var ok := RefreshIfChanged();
      if !ok {
        return Err(ReadFailed);
      }
      if terms == [] || documents == map[] {
        NothingMatches(documents, terms);
        NothingScanned(documents, parameters, idf, terms, topK);
        return Ok([]);
      }
      var scores := ScoreTerms(documents, postings, averageLength, parameters, idf, terms);
      var ranked := RankScores(documents, parameters, idf, terms, scores);
      r := Ok(Cut(ranked, topK));
    }

    method RefreshIfChanged() returns (ok: bool)
      requires Valid()
      modifies this, calls`failed
      ensures calls.failed == old(calls.failed) + if ok then 0 else 1
      ensures Valid() && View() == if ok then Refreshed(file.disk, old(View())) else old(View())
      ensures ok ==> (documents == file.disk.Documents() <==> old(AnswersFromFile(file.disk, View())))
    {
      ok := true;
      if file.disk.Signature() != signature {
        ok := LoadLatest();
      }
    }
  }

  /** No change of the instance was lost, or the file was replaced since, or the change would change nothing. */
  predicate AnswersFromFile(disk: Disk, m: Memory) {
    m.signature != disk.Signature() || m.lost.None? || Changed(disk.Documents(), m.lost.value) == disk.Documents()
  }

  /** The first build of an index fails in saving: the instance then believes its own change, and a refresh does not
      tell it otherwise. */
  lemma FailedBuildIsLost(m: Memory, e: Encoding)
    requires m.signature == None
    ensures var (disk, after) := Written(Disk(None, 0), m, Built([e]), Some(SaveFailed));
      && disk == Disk(None, 0) && Coherent(disk, after) && !AnswersFromFile(disk, after)
      && Refreshed(disk, after).documents == map[e.chunkId := e.document]
  {
    BuiltOne(map[], e);
    assert e.chunkId in map[e.chunkId := e.document];
  }

  /** The first build of an index fails in saving: the same instance goes on answering from what it could not save,
      while nothing is in the file. */
  method FailedBuildIsAnswered(calls: Calls, file: IndexFile, parameters: Parameters, idf: Idf, e: Encoding,
                               terms: seq<string>)
    returns (failure: Option<Failure>, r: Result<seq<Scored>, Failure>)
    requires file.disk == Disk(None, 0) && Usual(parameters)
    modifies file, calls
    ensures failure == Some(SaveFailed) ==> file.disk == Disk(None, 0)
    ensures failure == Some(SaveFailed) && r.Ok? ==>
      r.value == Scan(map[e.chunkId := e.document], parameters, idf, terms, 10)
    ensures failure == Some(SaveFailed) && r.Ok? && e.chunkId in Matching(map[e.chunkId := e.document], terms) ==>
      r.value != []
  {
    MatchIsAnswered(map[e.chunkId := e.document], parameters, idf, terms, 10, e.chunkId);
    var index := new BM25Indexer(calls, file, parameters, idf, false);
    FailedBuildIsLost(index.View(), e);
    failure := index.Build([e]);
    r := index.Query(terms, 10);
  }

  lemma BuiltOne(docs: Documents, e: Encoding)
    ensures Changed(docs, Built([e])) == map[e.chunkId := e.document]
  {
    assert [e][..0] == [] && Upserted(map[], []) == map[];
  }

  // ----- the loops of a query --------------------------------------------------------------------------

  lemma {:induction false} NothingMatches(docs: Documents, terms: seq<string>)
    requires terms == [] || docs == map[]
    ensures Matching(docs, terms) == {}
  {
    if terms != [] {
      NothingMatches(docs, terms[..|terms| - 1]);
    }
  }

  lemma NothingScanned(docs: Documents, p: Parameters, idf: Idf, terms: seq<string>, topK: nat)
    requires Usual(p) && Matching(docs, terms) == {}
    ensures Scan(docs, p, idf, terms, topK) == []
  {
    ByScoreIsOrder();
    var list := Listed(ScoredSet(docs, p, idf, terms, {}));
    assert |multiset(list)| == |list|;
    assert ScoredSet(docs, p, idf, terms, {}) == {};
  }

  /** What the score table holds for one chunk after some terms. */
  ghost predicate ScoreHolds(scores: map<string, real>, docs: Documents, p: Parameters, idf: Idf, terms: seq<string>,
                             id: string)
    requires Usual(p)
  {
    && (id in scores <==> id in Matching(docs, terms))
    && (id in scores ==> id in docs && scores[id] == Score(docs, p, idf, terms, id))
  }

  ghost predicate ScoresHold(scores: map<string, real>, docs: Documents, p: Parameters, idf: Idf, terms: seq<string>)
    requires Usual(p)
  {
    forall id :: ScoreHolds(scores, docs, p, idf, terms, id)
  }

  lemma {:induction false} NoMatchNoScore(docs: Documents, p: Parameters, idf: Idf, terms: seq<string>, id: string)
    requires Usual(p) && id in docs && id !in Matching(docs, terms)
    ensures Score(docs, p, idf, terms, id) == 0.0
  {
    if terms != [] {
      NoMatchNoScore(docs, p, idf, terms[..|terms| - 1], id);
    }
  }

  /** The chunks done so far have been given the score of one more term. */
  ghost predicate TermAdded(scores: map<string, real>, before: map<string, real>, docs: Documents, p: Parameters,
                            idf: Idf, term: string, done: set<string>, id: string)
    requires Usual(p)
  {
    if id in done then
      id in docs && id in scores &&
        scores[id] == (if id in before then before[id] else 0.0) + OneTerm(docs, p, idf, term, id)
    else (id in scores <==> id in before) && (id in scores ==> scores[id] == before[id])
  }

  /** The loop over the postings of a term. */
  method AddTerm(docs: Documents, row: map<string, Count>, average: real, p: Parameters, idf: Idf, term: string,
                 before: map<string, real>)
    returns (scores: map<string, real>)
    requires Usual(p) && average == AverageLength(docs)
    requires row.Keys == Holding(docs, term) && forall id :: id in row ==> row[id] == docs[id].frequencies[term]
    ensures forall id :: TermAdded(scores, before, docs, p, idf, term, Holding(docs, term), id)
  {
    scores := before;
    var weight := idf(|docs|, |row.Keys|);
    var todo := row.Keys;
    while todo != {}
      invariant todo <= row.Keys
      invariant forall id :: TermAdded(scores, before, docs, p, idf, term, row.Keys - todo, id)
      decreases |todo|
    {
      var id :| id in todo;
      ghost var old_ := scores;
      assert TermAdded(old_, before, docs, p, idf, term, row.Keys - todo, id);
      var score := TermScore(p, weight, row[id], docs[id].length, average);
      scores := scores[id := (if id in scores then scores[id] else 0.0) + score];
      forall i ensures TermAdded(scores, before, docs, p, idf, term, row.Keys - (todo - {id}), i) {
        assert TermAdded(old_, before, docs, p, idf, term, row.Keys - todo, i);
      }
      todo := todo - {id};
    }
    assert row.Keys - todo == Holding(docs, term);
  }

  lemma OneMoreTerm(docs: Documents, p: Parameters, idf: Idf, terms: seq<string>, term: string,
                    before: map<string, real>, scores: map<string, real>, id: string)
    requires Usual(p) && ScoreHolds(before, docs, p, idf, terms, id)
    requires TermAdded(scores, before, docs, p, idf, Fold(term), Holding(docs, Fold(term)), id)
    ensures ScoreHolds(scores, docs, p, idf, terms + [term], id)
  {
    assert (terms + [term])[..|terms|] == terms;
    if id in docs && id !in Matching(docs, terms) {
      NoMatchNoScore(docs, p, idf, terms, id);
    }
  }

  /** The loop over the terms of the query. */
  method ScoreTerms(docs: Documents, postings: Postings, average: real, p: Parameters, idf: Idf, terms: seq<string>)
    returns (scores: map<string, real>)
    requires Usual(p) && postings == Transpose(docs) && average == AverageLength(docs)
    ensures ScoresHold(scores, docs, p, idf, terms)
  {
    scores := map[];
    for i := 0 to |terms|
      invariant ScoresHold(scores, docs, p, idf, terms[..i])
    {
      var term := Fold(terms[i]);
      ghost var before := scores;
      PostingsOf(docs, term);
      if term in postings {
        scores := AddTerm(docs, postings[term], average, p, idf, term, scores);
      }
      forall id ensures ScoreHolds(scores, docs, p, idf, terms[..i] + [terms[i]], id) {
        assert ScoreHolds(before, docs, p, idf, terms[..i], id);
        OneMoreTerm(docs, p, idf, terms[..i], terms[i], before, scores, id);
      }
      assert terms[..i + 1] == terms[..i] + [terms[i]];
    }
    assert terms[..|terms|] == terms;
  }

  lemma PostingsOf(docs: Documents, term: string)
    ensures term in Transpose(docs) <==> Holding(docs, term) != {}
    ensures term in Transpose(docs) ==> Transpose(docs)[term].Keys == Holding(docs, term)
    ensures term in Transpose(docs) ==>
      forall id :: id in Transpose(docs)[term] ==> Transpose(docs)[term][id] == docs[id].frequencies[term]
  {
    if Holding(docs, term) != {} {
      var id :| id in Holding(docs, term);
      assert term in TermsOf(docs);
    }
    if term in TermsOf(docs) {
      var id :| id in docs && term in docs[id].frequencies;
      assert id in Holding(docs, term);
    }
  }

  /** The list of scores, in whatever order the table holds them, and its ranking. */
  method RankScores(docs: Documents, p: Parameters, idf: Idf, terms: seq<string>, scores: map<string, real>)
    returns (ranked: seq<Scored>)
    requires Usual(p) && ScoresHold(scores, docs, p, idf, terms)
    ensures Matching(docs, terms) <= docs.Keys && Order(ByScore)
    ensures ranked == Sort(ByScore, Listed(ScoredSet(docs, p, idf, terms, Matching(docs, terms))))
  {
    MatchingKnown(docs, terms);
    ByScoreIsOrder();
    assert forall id :: ScoreHolds(scores, docs, p, idf, terms, id) ==> (id in scores <==> id in Matching(docs, terms));
    var todo := scores.Keys;
    var list: seq<Scored> := [];
    while todo != {}
      invariant todo <= scores.Keys == Matching(docs, terms)
      invariant multiset(list) == multiset(ScoredSet(docs, p, idf, terms, scores.Keys - todo))
      decreases |todo|
    {
      var id :| id in todo;
      assert ScoreHolds(scores, docs, p, idf, terms, id);
      ScoredOneMore(docs, p, idf, terms, scores.Keys - todo, id);
      assert scores.Keys - todo + {id} == scores.Keys - (todo - {id});
      list := list + [Scored(id, scores[id])];
      todo := todo - {id};
    }
    assert scores.Keys - todo == Matching(docs, terms);
    var listed := Listed(ScoredSet(docs, p, idf, terms, Matching(docs, terms)));
    ranked := Sort(ByScore, list);
    SortedUnique(ByScore, ranked, Sort(ByScore, listed));
  }

  lemma ScoredOneMore(docs: Documents, p: Parameters, idf: Idf, terms: seq<string>, ids: set<string>, id: string)
    requires Usual(p) && ids <= docs.Keys && id in docs && id !in ids
    ensures multiset(ScoredSet(docs, p, idf, terms, ids + {id})) ==
      multiset(ScoredSet(docs, p, idf, terms, ids)) + multiset{Scored(id, Score(docs, p, idf, terms, id))}
  {
    var one := Scored(id, Score(docs, p, idf, terms, id));
    assert ScoredSet(docs, p, idf, terms, ids + {id}) == ScoredSet(docs, p, idf, terms, ids) + {one};
    assert one !in ScoredSet(docs, p, idf, terms, ids);
  }

  lemma MatchIsAnswered(docs: Documents, p: Parameters, idf: Idf, terms: seq<string>, topK: nat, id: string)
    requires Usual(p) && topK > 0
    ensures id in Matching(docs, terms) ==> Scan(docs, p, idf, terms, topK) != []
  {
    if id in Matching(docs, terms) {
      SomeScored(docs, p, idf, terms, topK, id);
    }
  }

  lemma SomeScored(docs: Documents, p: Parameters, idf: Idf, terms: seq<string>, topK: nat, id: string)
    requires Usual(p) && topK > 0 && id in Matching(docs, terms)
    ensures Scan(docs, p, idf, terms, topK) != []
  {
    MatchingKnown(docs, terms);
    ByScoreIsOrder();
    var scored := ScoredSet(docs, p, idf, terms, Matching(docs, terms));
    var listed := Listed(scored);
    assert Scored(id, Score(docs, p, idf, terms, id)) in scored;
    assert |multiset(listed)| == |listed|;
    assert |multiset(Sort(ByScore, listed))| == |Sort(ByScore, listed)|;
  }

  // ----- several instances -----------------------------------------------------------------------------

  /** Instances on one file, and what they do: a write with its outcome, or a refresh before reading. */
  datatype Shared = Shared(disk: Disk, memories: seq<Memory>)
  datatype Event = Write(who: nat, change: Change, failure: Option<Failure>) | Refresh(who: nat)

  function Step(s: Shared, e: Event): (s': Shared)
    requires e.who < |s.memories|
    ensures |s'.memories| == |s.memories|
  {
    match e
    case Write(who, change, failure) =>
      var (disk, memory) := Written(s.disk, s.memories[who], change, failure);
      Shared(disk, s.memories[who := memory])
    case Refresh(who) => s.(memories := s.memories[who := Refreshed(s.disk, s.memories[who])])
  }

  predicate Known(s: Shared, events: seq<Event>) {
    forall i :: 0 <= i < |events| ==> events[i].who < |s.memories|
  }

  function After(s: Shared, events: seq<Event>): (s': Shared)
    requires Known(s, events)
    ensures |s'.memories| == |s.memories|
  {
    if events == [] then s else Step(After(s, events[..|events| - 1]), events[|events| - 1])
  }

  ghost predicate AllCoherent(s: Shared) {
    forall i :: 0 <= i < |s.memories| ==> Coherent(s.disk, s.memories[i])
  }

  /** A write keeps the writing instance coherent, however it ends. */
  lemma WriterStaysCoherent(disk: Disk, m: Memory, c: Change, failure: Option<Failure>)
    requires Coherent(disk, m)
    ensures var (disk', m') := Written(disk, m, c, failure); Coherent(disk', m')
  {
  }

  /** A write by one instance keeps another one coherent: either the file is as it was, or it has a new signature. */
  lemma ReaderStaysCoherent(disk: Disk, m: Memory, other: Memory, c: Change, failure: Option<Failure>)
    requires Coherent(disk, other)
    ensures var (disk', _) := Written(disk, m, c, failure); Coherent(disk', other)
  {
  }

  /** Whatever the instances do, in whatever order and with whatever failures, all of them stay coherent. */
  lemma {:induction false} InstancesStayCoherent(s: Shared, events: seq<Event>)
    requires Known(s, events) && AllCoherent(s)
    ensures AllCoherent(After(s, events))
  {
    if events != [] {
      var front, e := events[..|events| - 1], events[|events| - 1];
      InstancesStayCoherent(s, front);
      var before := After(s, front);
      forall i | 0 <= i < |before.memories| ensures Coherent(Step(before, e).disk, Step(before, e).memories[i]) {
        if e.Write? {
          WriterStaysCoherent(before.disk, before.memories[e.who], e.change, e.failure);
          ReaderStaysCoherent(before.disk, before.memories[e.who], before.memories[i], e.change, e.failure);
        }
      }
    }
  }

  /** At any point of any run, an instance that is asked answers from the file exactly when its last change was saved,
      or the file was replaced since, or the change would change nothing. */
  lemma AnswersFromFileIff(s: Shared, events: seq<Event>, who: nat)
    requires Known(s, events) && AllCoherent(s) && who < |s.memories|
    ensures var t := After(s, events);
      Step(t, Refresh(who)).memories[who].documents == t.disk.Documents() <==> AnswersFromFile(t.disk, t.memories[who])
  {
    InstancesStayCoherent(s, events);
  }

  /** The changes that were made, in the order in which they were. */
  function Succeeded(events: seq<Event>): seq<Change> {
    if events == [] then [] else
    var front, e := Succeeded(events[..|events| - 1]), events[|events| - 1];
    if e.Write? && e.failure == None then front + [e.change] else front
  }

  /** The documents after changes, one after another. */
  function AfterAll(docs: Documents, changes: seq<Change>): Documents {
    if changes == [] then docs else Changed(AfterAll(docs, changes[..|changes| - 1]), changes[|changes| - 1])
  }

  lemma WrittenChanges(disk: Disk, m: Memory, c: Change)
    ensures Written(disk, m, c, None).0.Documents() == Changed(disk.Documents(), c)
  {
    if c.Removing? && NothingToSave(disk, c) {
      assert disk.Documents() - {} == disk.Documents();
    }
  }

  /** The file holds what the successful changes make of it, whatever the instances that made them had in memory. */
  lemma {:induction false} FileIsAfterAll(s: Shared, events: seq<Event>)
    requires Known(s, events)
    ensures After(s, events).disk.Documents() == AfterAll(s.disk.Documents(), Succeeded(events))
  {
    if events != [] {
      var front, e := events[..|events| - 1], events[|events| - 1];
      FileIsAfterAll(s, front);
      if e.Write? && e.failure == None {
        WrittenChanges(After(s, front).disk, After(s, front).memories[e.who], e.change);
        assert Succeeded(events)[..|Succeeded(events)| - 1] == Succeeded(front);
      }
    }
  }

  predicate Sets(c: Change, id: string) {
    !c.Removing? && exists i :: 0 <= i < |c.encodings| && c.encodings[i].chunkId == id
  }

  /** The change leaves the chunk alone. */
  predicate Spares(docs: Documents, c: Change, id: string) {
    match c
    case Built(_) => false
    case Upserting(_) => !Sets(c, id)
    case Removing(ids, filters) => Selects(ids, filters) ==> id !in Doomed(docs, ids, filters)
  }

  lemma {:induction false} UpsertSpares(docs: Documents, encodings: seq<Encoding>, id: string)
    requires forall i :: 0 <= i < |encodings| ==> encodings[i].chunkId != id
    ensures id in Upserted(docs, encodings) <==> id in docs
    ensures id in docs ==> Upserted(docs, encodings)[id] == docs[id]
  {
    if encodings != [] {
      var front, last := encodings[..|encodings| - 1], encodings[|encodings| - 1];
      assert forall i :: 0 <= i < |front| ==> front[i] == encodings[i];
      UpsertSpares(docs, front, id);
      assert last.chunkId != id;
    }
  }

  predicate LeavesAlone(s: Shared, e: Event, id: string) {
    e.Write? && e.failure == None ==> Spares(s.disk.Documents(), e.change, id)
  }

  /** What any instance put into the index stays as it is until a successful change names it, whichever instances
      write in between, whatever they had read before, and whatever they fail to save. */
  lemma {:induction false} NoUpdateIsLost(s: Shared, events: seq<Event>, id: string)
    requires Known(s, events)
    requires forall k :: 0 <= k < |events| ==> LeavesAlone(After(s, events[..k]), events[k], id)
    ensures var docs := After(s, events).disk.Documents();
      (id in docs <==> id in s.disk.Documents()) && (id in docs ==> docs[id] == s.disk.Documents()[id])
  {
    if events != [] {
      var front, e := events[..|events| - 1], events[|events| - 1];
      assert forall k :: 0 <= k < |front| ==> front[..k] == events[..k];
      NoUpdateIsLost(s, front, id);
      assert LeavesAlone(After(s, front), e, id);
      if e.Write? && e.failure == None {
        WrittenChanges(After(s, front).disk, After(s, front).memories[e.who], e.change);
        if e.change.Upserting? {
          UpsertSpares(After(s, front).disk.Documents(), e.change.encodings, id);
        }
      }
    }
  }
}
