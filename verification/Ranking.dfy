/** Ranked retrieval results, and reciprocal-rank fusion of several rankings into one
    (src/core/query_engine/fusion.py). */
module Ranking {
  import opened Ordering

  datatype Hit = Hit(
    id: string, score: real, text: string, metadata: map<string, string>,
    sources: seq<string>, sourceScores: map<string, real>, sourceRanks: map<string, nat>)

  /** The sort key `(-score, chunk_id)`. */
  predicate Before(a: Hit, b: Hit) {
    a.score > b.score || (a.score == b.score && StrLeq(a.id, b.id))
  }

  predicate Ranked(s: seq<Hit>) {
    SortedBy(Before, s)
  }

  predicate DistinctIds(s: seq<Hit>) {
    forall i, j :: 0 <= i < j < |s| ==> s[i].id != s[j].id
  }

  lemma BeforeIsPreorder()
    ensures Preorder(Before)
  {
    StrLeqIsOrder();
  }

  /** `sorted(s, key=...)`. */
  function Rank(s: seq<Hit>): (t: seq<Hit>)
    ensures multiset(t) == multiset(s) && Ranked(t)
    ensures |t| == |s|
  {
    BeforeIsPreorder();
    Sort(Before, s)
  }

  /** With distinct identifiers, the ranking of a set of results does not depend on where they came from. */
  lemma RankedUnique(s: seq<Hit>, t: seq<Hit>)
    requires Ranked(s) && Ranked(t) && multiset(s) == multiset(t)
    requires forall x, y :: x in s && y in s && x.id == y.id ==> x == y
    ensures s == t
  {
    StrLeqIsOrder();
    BeforeIsPreorder();
    SortedUnique(Before, s, t);
  }
}
