/** The values one ingestion run moves between the stores. */
module Corpus {
  import opened Outcomes
  import opened Text

  /** The metadata keys that decide which source a chunk belongs to. */
  datatype Metadata = Metadata(
    collection: Option<string>,
    sourceRelativePath: Option<string>,
    sourcePath: Option<string>,
    fileHash: Option<string>)

  /** `context` is the searchable title, summary and tags that the metadata adds. */
  datatype Chunk = Chunk(id: string, text: string, context: string, metadata: Metadata)

  /** A content hash; distinct texts have distinct hashes. */
  datatype Digest = Sha256(text: string)

  /** A fitted embedding model: its signature is this value, its hash covers the training texts. */
  datatype Model = Model(dimensions: nat, corpusHash: seq<string>)

  datatype DenseRecord = DenseRecord(text: string, metadata: Metadata, signature: Model, contentHash: Digest)

  datatype SparseDocument = SparseDocument(terms: map<string, nat>, length: nat, metadata: Metadata)

  /** The document being ingested, as the manifest describes it. */
  datatype Entry = Entry(sourcePath: string, fileHash: string)

  function EmbeddingText(c: Chunk): string {
    if c.context != "" then c.context + "\n\n" + c.text else c.text
  }

  function EmbeddingTexts(chunks: seq<Chunk>): seq<string> {
    seq(|chunks|, i requires 0 <= i < |chunks| => EmbeddingText(chunks[i]))
  }

  /** What is embedded begins with the context and ends with the text; so what a model is fitted to tells the texts of
      chunks whose contexts are equal apart. */
  lemma EmbeddedText(a: seq<Chunk>, b: seq<Chunk>, i: nat)
    requires EmbeddingTexts(a) == EmbeddingTexts(b) && i < |a| && a[i].context == b[i].context
    ensures a[i].context <= EmbeddingTexts(a)[i] && a[i].text == b[i].text
  {
    var t := EmbeddingTexts(a)[i];
    assert t == EmbeddingText(a[i]) == EmbeddingTexts(b)[i] == EmbeddingText(b[i]);
    var n := if a[i].context == "" then 0 else |a[i].context| + 2;
    assert t[n..] == a[i].text && t[n..] == b[i].text;
  }

  function Ids(chunks: seq<Chunk>): set<string> {
    set c | c in chunks :: c.id
  }

  predicate DistinctIds(chunks: seq<Chunk>) {
    forall i, j :: 0 <= i < j < |chunks| ==> chunks[i].id != chunks[j].id
  }

  // ----- _is_current_source ----------------------------------------------------------------------

  function ForwardSlashes(s: string): string {
    seq(|s|, i requires 0 <= i < |s| => if s[i] == '\\' then '/' else s[i])
  }

  function PathKey(path: string): string {
    var p := ForwardSlashes(path);
    Fold(if "./" <= p then p[2..] else p)
  }

  /** The same character of a path, whichever the slash and the case. */
  predicate SamePathChar(a: char, b: char) {
    var x, y := if a == '\\' then '/' else a, if b == '\\' then '/' else b;
    SameLetter(x, y)
  }

  /** Paths without a leading "./" are the same source exactly when they differ in slashes and case at most. */
  lemma PathKeyIff(p: string, q: string)
    requires !("./" <= ForwardSlashes(p)) && !("./" <= ForwardSlashes(q))
    ensures PathKey(p) == PathKey(q) <==> |p| == |q| && forall i :: 0 <= i < |p| ==> SamePathChar(p[i], q[i])
  {
    var x, y := ForwardSlashes(p), ForwardSlashes(q);
    FoldIff(x, y);
    assert |x| == |y| ==> forall i :: 0 <= i < |p| ==> SamePathChar(p[i], q[i]) == SameLetter(x[i], y[i]);
  }

  /** A leading "./" does not matter. */
  lemma PathKeyOfDot(p: string)
    requires !("./" <= ForwardSlashes(p))
    ensures PathKey("./" + p) == PathKey(p)
  {
    var q := ForwardSlashes("./" + p);
    assert q[0] == '.' && q[1] == '/' && q[2..] == ForwardSlashes(p);
    assert "./" == q[..2];
  }

  /** `metadata.get("source_relative_path") or metadata.get("source_path")`. */
  function SourceOf(m: Metadata): Option<string> {
    if m.sourceRelativePath.Some? && m.sourceRelativePath.value != "" then m.sourceRelativePath else m.sourcePath
  }

  predicate IsCurrentSource(m: Metadata, entry: Entry, collection: string) {
    && m.collection == Some(collection)
    && SourceOf(m).Some?
    && PathKey(SourceOf(m).value) == PathKey(entry.sourcePath)
  }

  /** A chunk is of the current source only in its collection, and under the relative path when it has one. */
  lemma CurrentSourceIff(m: Metadata, entry: Entry, collection: string)
    ensures IsCurrentSource(m, entry, collection) <==>
      && m.collection == Some(collection)
      && match (m.sourceRelativePath, m.sourcePath)
         case (Some(relative), other) =>
           if relative != "" then PathKey(relative) == PathKey(entry.sourcePath)
           else other.Some? && PathKey(other.value) == PathKey(entry.sourcePath)
         case (None, other) => other.Some? && PathKey(other.value) == PathKey(entry.sourcePath)
  {
  }

  predicate IsCurrentChunk(c: Chunk, entry: Entry, collection: string) {
    IsCurrentSource(c.metadata, entry, collection) && c.metadata.fileHash == Some(entry.fileHash)
  }
}
