/** The inverted index, and the scan it stands for (src/ingestion/storage/bm25_indexer.py). */
module BM25 {
  import opened Outcomes
  import opened Ordering
  import opened Text

  type Count = n: nat | n > 0 witness 1

  datatype Document = Document(length: nat, frequencies: map<string, Count>, metadata: map<string, string>)
  datatype Encoding = Encoding(chunkId: string, document: Document)
  datatype Parameters = Parameters(k1: real, b: real)
  datatype Scored = Scored(id: string, score: real)

  type Documents = map<string, Document>
  type Postings = map<string, map<string, Count>>

  /** Saturation and length normalisation are within their usual ranges. */
  predicate Usual(p: Parameters) {
    p.k1 >= 0.0 && 0.0 <= p.b <= 1.0
  }

  // ----- the corpus ----------------------------------------------------------------------------------

  predicate Has(docs: Documents, term: string, id: string) {
    id in docs && term in docs[id].frequencies
  }

  function TermsOf(docs: Documents): set<string> {
    set id, t | id in docs && t in docs[id].frequencies :: t
  }

  /** The chunks a term occurs in. */
  function Holding(docs: Documents, term: string): set<string> {
    set id | id in docs && term in docs[id].frequencies
  }

  /** Postings are the transpose of the documents. */
  function Transpose(docs: Documents): Postings {
    map t | t in TermsOf(docs) :: map id | id in docs && t in docs[id].frequencies :: docs[id].frequencies[t]
  }

  ghost function TotalLength(docs: Documents): nat
    decreases |docs|
  {
    if docs == map[] then 0 else
    var id :| id in docs;
    docs[id].length + TotalLength(docs - {id})
  }

  /** The total does not depend on the order in which documents are added up. */
  lemma {:induction false} TotalWithout(docs: Documents, id: string)
    requires id in docs
    ensures TotalLength(docs) == docs[id].length + TotalLength(docs - {id})
    decreases |docs|
  {
    var first :| first in docs && TotalLength(docs) == docs[first].length + TotalLength(docs - {first});
    if first != id {
      TotalWithout(docs - {first}, id);
      TotalWithout(docs - {id}, first);
      assert docs - {first} - {id} == docs - {id} - {first};
    }
  }

  function AtLeastOne(n: nat): nat {
    if n > 1 then n else 1
  }

  ghost function AverageLength(docs: Documents): real {
    TotalLength(docs) as real / AtLeastOne(|docs|) as real
  }

  // ----- scores --------------------------------------------------------------------------------------

  function NormalizedLength(p: Parameters, length: nat, average: real): (n: real)
    requires Usual(p)
    ensures n >= 0.0
  {
    var floor := if average > 1.0 then average else 1.0;
    NonNegative(length as real, floor);
    Product(p.b, length as real / floor);
    p.b * (length as real / floor) + (1.0 - p.b)
  }

  lemma NonNegative(a: real, b: real)
    requires a >= 0.0 && b > 0.0
    ensures a / b >= 0.0
  {
  }

  lemma Product(a: real, b: real)
    requires a >= 0.0 && b >= 0.0
    ensures a * b >= 0.0
  {
  }

  /** What one occurrence of a term in the query adds to the score of a chunk. */
  function TermScore(p: Parameters, idf: real, frequency: Count, length: nat, average: real): real
    requires Usual(p)
  {
    var n := NormalizedLength(p, length, average);
    Product(p.k1, n);
    idf * (frequency as real * (p.k1 + 1.0)) / (frequency as real + p.k1 * n)
  }

  lemma TermScorePositive(p: Parameters, idf: real, frequency: Count, length: nat, average: real)
    requires Usual(p) && idf > 0.0
    ensures TermScore(p, idf, frequency, length, average) > 0.0
  {
    var n := NormalizedLength(p, length, average);
    Product(p.k1, n);
    Positive(frequency as real, p.k1 + 1.0);
    Positive(idf, frequency as real * (p.k1 + 1.0));
    Quotient(idf * (frequency as real * (p.k1 + 1.0)), frequency as real + p.k1 * n);
  }

  lemma Positive(a: real, b: real)
    requires a > 0.0 && b > 0.0
    ensures a * b > 0.0
  {
  }

  lemma Quotient(a: real, b: real)
    requires a > 0.0 && b > 0.0
    ensures a / b > 0.0
  {
  }

  /** The inverse document frequency, for a number of documents and of documents with the term. */
  type Idf = (nat, nat) -> real

  ghost predicate PositiveIdf(idf: Idf) {
    forall n, df :: 0 < df <= n ==> idf(n, df) > 0.0
  }

  /** The score of a chunk for a query, read off the documents term by term. */
  ghost function Score(docs: Documents, p: Parameters, idf: Idf, terms: seq<string>, id: string): real
    requires Usual(p) && id in docs
  {
    if terms == [] then 0.0 else
    var term := Fold(terms[|terms| - 1]);
    Score(docs, p, idf, terms[..|terms| - 1], id) + OneTerm(docs, p, idf, term, id)
  }

  ghost function OneTerm(docs: Documents, p: Parameters, idf: Idf, term: string, id: string): real
    requires Usual(p) && id in docs
  {
    if term !in docs[id].frequencies then 0.0
    else TermScore(p, idf(|docs|, |Holding(docs, term)|), docs[id].frequencies[term], docs[id].length,
                   AverageLength(docs))
  }

  /** The chunks that hold any term of the query. */
  function Matching(docs: Documents, terms: seq<string>): set<string> {
    if terms == [] then {} else
    Matching(docs, terms[..|terms| - 1]) + Holding(docs, Fold(terms[|terms| - 1]))
  }

  lemma {:induction false} MatchingKnown(docs: Documents, terms: seq<string>)
    ensures Matching(docs, terms) <= docs.Keys
  {
    if terms != [] {
      MatchingKnown(docs, terms[..|terms| - 1]);
    }
  }

  // ----- the result ----------------------------------------------------------------------------------

  /** The sort key `(-score, chunk_id)`. */
  predicate ByScore(a: Scored, b: Scored) {
    a.score > b.score || (a.score == b.score && StrLeq(a.id, b.id))
  }

  lemma ByScoreIsOrder()
    ensures Order(ByScore)
  {
    StrLeqIsOrder();
  }

  ghost function ScoredSet(docs: Documents, p: Parameters, idf: Idf, terms: seq<string>, ids: set<string>): set<Scored>
    requires Usual(p) && ids <= docs.Keys
  {
    set id | id in ids :: Scored(id, Score(docs, p, idf, terms, id))
  }

  /** The brute-force answer: score every chunk that matches, best first, and cut. */
  ghost function Scan(docs: Documents, p: Parameters, idf: Idf, terms: seq<string>, topK: nat): seq<Scored>
    requires Usual(p)
  {
    MatchingKnown(docs, terms);
    ByScoreIsOrder();
    Cut(Sort(ByScore, Listed(ScoredSet(docs, p, idf, terms, Matching(docs, terms)))), topK)
  }

  lemma {:induction false} ScorePositive(docs: Documents, p: Parameters, idf: Idf, terms: seq<string>, id: string)
    requires Usual(p) && PositiveIdf(idf) && id in docs
    ensures Score(docs, p, idf, terms, id) >= 0.0
    ensures id in Matching(docs, terms) ==> Score(docs, p, idf, terms, id) > 0.0
  {
    if terms != [] {
      ScorePositive(docs, p, idf, terms[..|terms| - 1], id);
      var term := Fold(terms[|terms| - 1]);
      if term in docs[id].frequencies {
        HoldingSize(docs, term, id);
        TermScorePositive(p, idf(|docs|, |Holding(docs, term)|), docs[id].frequencies[term], docs[id].length,
                          AverageLength(docs));
      }
    }
  }

  lemma HoldingSize(docs: Documents, term: string, id: string)
    requires Has(docs, term, id)
    ensures 0 < |Holding(docs, term)| <= |docs|
  {
    var holding := Holding(docs, term);
    assert id in holding && holding <= docs.Keys;
    assert docs.Keys == holding + (docs.Keys - holding);
  }

  /** What an answer may be. */
  ghost predicate IsAnswer(docs: Documents, p: Parameters, idf: Idf, terms: seq<string>, a: Scored)
    requires Usual(p)
  {
    a.id in Matching(docs, terms) && a.id in docs && a.score == Score(docs, p, idf, terms, a.id) && a.score > 0.0
  }

  lemma AnswersOf(docs: Documents, p: Parameters, idf: Idf, terms: seq<string>, all: seq<Scored>, a: Scored)
    requires Usual(p) && PositiveIdf(idf) && Matching(docs, terms) <= docs.Keys
    requires multiset(all) == multiset(ScoredSet(docs, p, idf, terms, Matching(docs, terms))) && a in all
    ensures IsAnswer(docs, p, idf, terms, a)
  {
    assert a in multiset(all);
    ScorePositive(docs, p, idf, terms, a.id);
  }

  /** Every answer holds a term of the query and has a positive score; better answers come first. */
  lemma ScanIsRanked(docs: Documents, p: Parameters, idf: Idf, terms: seq<string>, topK: nat)
    requires Usual(p) && PositiveIdf(idf)
    ensures var answers := Scan(docs, p, idf, terms, topK);
      && |answers| <= topK && SortedBy(ByScore, answers)
      && forall a :: a in answers ==> IsAnswer(docs, p, idf, terms, a)
  {
    MatchingKnown(docs, terms);
    ByScoreIsOrder();
    var all := Sort(ByScore, Listed(ScoredSet(docs, p, idf, terms, Matching(docs, terms))));
    forall a | a in Cut(all, topK) ensures IsAnswer(docs, p, idf, terms, a) {
      AnswersOf(docs, p, idf, terms, all, a);
    }
  }

  // ----- what a score means ------------------------------------------------------------------------------

  /** The measure: one occurrence in a chunk of average length counts as much as the term is rare. */
  lemma OneOccurrenceInAverageChunk(p: Parameters, idf: real, length: nat)
    requires Usual(p) && length > 0
    ensures TermScore(p, idf, 1, length, length as real) == idf
  {
    var floor := if length as real > 1.0 then length as real else 1.0;
    assert floor == length as real && length as real / floor == 1.0;
    assert NormalizedLength(p, length, length as real) == 1.0;
    Cancel(idf, p.k1 + 1.0);
  }

  lemma Cancel(a: real, b: real)
    requires b > 0.0
    ensures a * (1.0 * b) / b == a
  {
  }

  lemma Ordered(a: real, b: real, c: real)
    requires a <= b && c >= 0.0
    ensures a * c <= b * c && c * a <= c * b
  {
  }

  lemma Fractions(a: real, b: real, c: real, d: real)
    requires b > 0.0 && d > 0.0 && a * d <= c * b
    ensures a / b <= c / d
  {
    assert a / b == (a * d) / (b * d);
    assert c / d == (c * b) / (b * d);
    Ordered(a * d, c * b, 1.0 / (b * d));
    Divided(a * d, b * d);
    Divided(c * b, b * d);
  }

  lemma Divided(a: real, b: real)
    requires b > 0.0
    ensures a / b == a * (1.0 / b)
  {
  }

  lemma LongerIsNormalizedHigher(p: Parameters, shorter: nat, longer: nat, average: real)
    requires Usual(p) && shorter <= longer
    ensures NormalizedLength(p, shorter, average) <= NormalizedLength(p, longer, average)
  {
    var floor := if average > 1.0 then average else 1.0;
    Quotients(shorter as real, longer as real, floor);
    Mixed(p.b, shorter as real / floor, longer as real / floor, NormalizedLength(p, shorter, average),
          NormalizedLength(p, longer, average));
  }

  lemma Quotients(a: real, b: real, c: real)
    requires a <= b && c > 0.0
    ensures a / c <= b / c
  {
    Ordered(a, b, 1.0 / c);
    Divided(a, c);
    Divided(b, c);
  }

  lemma Mixed(b: real, x: real, y: real, m: real, n: real)
    requires x <= y && b >= 0.0 && m == b * x + (1.0 - b) && n == b * y + (1.0 - b)
    ensures m <= n
  {
    Ordered(x, y, b);
  }

  /** More occurrences in a chunk that is not longer never count less. */
  lemma TermScoreGrows(p: Parameters, idf: real, few: Count, many: Count, longer: nat, shorter: nat, average: real)
    requires Usual(p) && idf > 0.0 && few <= many && shorter <= longer
    ensures TermScore(p, idf, few, longer, average) <= TermScore(p, idf, many, shorter, average)
  {
    var n, m := NormalizedLength(p, longer, average), NormalizedLength(p, shorter, average);
    var f, g := few as real, many as real;
    LongerIsNormalizedHigher(p, shorter, longer, average);
    Product(p.k1, n);
    Product(p.k1, m);
    Ordered(m, n, p.k1);
    Saturates(idf, p.k1 + 1.0, f, g, p.k1 * n, p.k1 * m);
  }

  lemma Saturates(idf: real, k: real, f: real, g: real, n: real, m: real)
    requires idf > 0.0 && k > 0.0 && 0.0 < f <= g && 0.0 <= m <= n
    ensures idf * (f * k) / (f + n) <= idf * (g * k) / (g + m)
  {
    CrossProducts(f, g, n, m);
    Positive(idf, k);
    Ordered(f * (g + m), g * (f + n), idf * k);
    Regroup(idf, k, f, g + m);
    Regroup(idf, k, g, f + n);
    Fractions(idf * (f * k), f + n, idf * (g * k), g + m);
  }

  lemma Regroup(idf: real, k: real, f: real, x: real)
    ensures idf * (f * k) * x == idf * k * (f * x)
  {
  }

  lemma CrossProducts(f: real, g: real, n: real, m: real)
    requires 0.0 <= f <= g && 0.0 <= m <= n
    ensures f * (g + m) <= g * (f + n)
  {
    Ordered(f, g, m);
    Ordered(m, n, g);
    assert f * (g + m) == f * g + f * m && g * (f + n) == f * g + g * n;
  }

  /** A chunk that is not longer, and holds every term of the query at least as often, scores at least as much. */
  lemma {:induction false} ScoreKeepsDominance(docs: Documents, p: Parameters, idf: Idf, terms: seq<string>, a: string,
                                               b: string)
    requires Usual(p) && PositiveIdf(idf) && a in docs && b in docs && docs[b].length <= docs[a].length
    requires forall i :: 0 <= i < |terms| ==> HoldsNoLess(docs, Fold(terms[i]), a, b)
    ensures Score(docs, p, idf, terms, a) <= Score(docs, p, idf, terms, b)
  {
    if terms != [] {
      var front, term := terms[..|terms| - 1], Fold(terms[|terms| - 1]);
      assert forall i :: 0 <= i < |front| ==> front[i] == terms[i];
      ScoreKeepsDominance(docs, p, idf, front, a, b);
      assert HoldsNoLess(docs, term, a, b);
      if term in docs[b].frequencies {
        HoldingSize(docs, term, b);
        var rarity := idf(|docs|, |Holding(docs, term)|);
        if term in docs[a].frequencies {
          TermScoreGrows(p, rarity, docs[a].frequencies[term], docs[b].frequencies[term], docs[a].length,
                         docs[b].length, AverageLength(docs));
        } else {
          TermScorePositive(p, rarity, docs[b].frequencies[term], docs[b].length, AverageLength(docs));
        }
      }
    }
  }

  predicate HoldsNoLess(docs: Documents, term: string, a: string, b: string)
    requires a in docs && b in docs
  {
    term in docs[a].frequencies ==>
      term in docs[b].frequencies && docs[a].frequencies[term] <= docs[b].frequencies[term]
  }
}
