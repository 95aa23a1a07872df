/** What the fusion of the dense and the sparse ranking holds, read off the two rankings
    (src/core/query_engine/fusion.py, src/core/query_engine/hybrid_search.py). */
module FusedResults {
  import opened Ordering
  import opened Ranking
  import opened Fusion

  function HitIds(hits: seq<Hit>): set<string> {
    set h | h in hits :: h.id
  }

  /** The first hit with an identifier. */
  function FirstHit(hits: seq<Hit>, id: string): (h: Hit)
    requires id in HitIds(hits)
    ensures h in hits && h.id == id
  {
    if hits[0].id == id then hits[0] else FirstHit(hits[1..], id)
  }

  function PlaceOf(hits: seq<Hit>, id: string): (i: nat)
    requires id in HitIds(hits)
    ensures i < |hits| && hits[i].id == id && forall j :: 0 <= j < i ==> hits[j].id != id
  {
    if hits[0].id == id then 0 else 1 + PlaceOf(hits[1..], id)
  }

  function HitsOf(es: seq<Entry>): (hits: seq<Hit>)
    ensures |hits| == |es| && forall i :: 0 <= i < |es| ==> hits[i] == es[i].hit
  {
    seq(|es|, i requires 0 <= i < |es| => es[i].hit)
  }

  lemma IdsOfHits(es: seq<Entry>)
    ensures HitIds(HitsOf(es)) == Ids(es)
  {
    var hits := HitsOf(es);
    forall id ensures id in HitIds(hits) <==> id in Ids(es) {
      if id in HitIds(hits) {
        var i :| 0 <= i < |hits| && hits[i].id == id;
        assert es[i] in es;
      }
      if id in Ids(es) {
        var i :| 0 <= i < |es| && es[i].hit.id == id;
        assert hits[i] in hits;
      }
    }
  }

  lemma {:induction false} FirstHitOneMore(hits: seq<Hit>, last: Hit, id: string)
    requires id in HitIds(hits) || last.id == id
    ensures id in HitIds(hits + [last])
    ensures FirstHit(hits + [last], id) == if id in HitIds(hits) then FirstHit(hits, id) else last
  {
    var all := hits + [last];
    assert last in all && forall h :: h in hits ==> h in all;
    if hits != [] && hits[0].id != id {
      assert all[1..] == hits[1..] + [last];
      assert id in HitIds(hits) <==> id in HitIds(hits[1..]) by {
        assert forall h :: h in hits <==> h == hits[0] || h in hits[1..];
      }
      FirstHitOneMore(hits[1..], last, id);
    }
  }

  /** The exemplar of an identifier is the first hit that carries it. */
  lemma {:induction false} FirstIsFirstHit(es: seq<Entry>, id: string)
    requires id in Ids(es)
    ensures id in HitIds(HitsOf(es)) && First(es, id) == FirstHit(HitsOf(es), id)
  {
    var front, last := es[..|es| - 1], es[|es| - 1];
    IdsOfHits(es);
    IdsOfHits(front);
    assert HitsOf(es) == HitsOf(front) + [last.hit];
    assert forall e :: e in es <==> e in front || e == last;
    if id in Ids(front) {
      FirstIsFirstHit(front, id);
    }
    FirstHitOneMore(HitsOf(front), last.hit, id);
  }

  lemma {:induction false} EntriesHits(source: string, results: seq<Hit>, n: nat)
    requires n <= |results|
    ensures HitsOf(Entries(source, results, n)) == results[..n]
  {
    if n > 0 {
      EntriesHits(source, results, n - 1);
      assert HitsOf(Entries(source, results, n)) == HitsOf(Entries(source, results, n - 1)) + [results[n - 1]];
    }
  }

  function Both(dense: seq<Hit>, sparse: seq<Hit>): map<string, seq<Hit>> {
    map["dense" := dense, "sparse" := sparse]
  }

  lemma SourcesInOrder(keys: set<string>)
    requires keys == {"dense", "sparse"}
    ensures SortedKeys(keys) == ["dense", "sparse"]
  {
    var s := SortedKeys(keys);
    assert s[0] in s && s[1] in s && StrLess(s[0], s[1]);
    StrTotal("dense", "sparse");
    assert StrLess("dense", "sparse");
    StrTotal(s[0], s[0]);
  }

  lemma FlatOfTwo(rankings: map<string, seq<Hit>>, a: string, b: string)
    requires a in rankings && b in rankings
    ensures Flat(rankings, [a, b]) == Entries(a, rankings[a], |rankings[a]|) + Entries(b, rankings[b], |rankings[b]|)
  {
    assert [a, b][..1] == [a] && [a][..0] == [];
    assert Flat(rankings, [a]) == Entries(a, rankings[a], |rankings[a]|);
  }

  lemma HitsOfBoth(es: seq<Entry>, fs: seq<Entry>)
    ensures HitsOf(es + fs) == HitsOf(es) + HitsOf(fs)
  {
  }

  /** The dense entries come first. */
  lemma TwoSources(dense: seq<Hit>, sparse: seq<Hit>)
    ensures AllEntries(Both(dense, sparse)) == Entries("dense", dense, |dense|) + Entries("sparse", sparse, |sparse|)
    ensures HitsOf(AllEntries(Both(dense, sparse))) == dense + sparse
  {
    var rankings := Both(dense, sparse);
    SourcesInOrder(rankings.Keys);
    FlatOfTwo(rankings, "dense", "sparse");
    HitsOfBoth(Entries("dense", dense, |dense|), Entries("sparse", sparse, |sparse|));
    EntriesHits("dense", dense, |dense|);
    EntriesHits("sparse", sparse, |sparse|);
    assert dense[..|dense|] == dense && sparse[..|sparse|] == sparse;
  }

  /** A fused result carries the text and the metadata of the first hit with its identifier, dense before sparse. */
  lemma FusedCarries(dense: seq<Hit>, sparse: seq<Hit>, k: nat, h: Hit)
    requires k > 0 && h in Fused(Both(dense, sparse), k)
    ensures h.id in HitIds(dense + sparse)
    ensures h.text == FirstHit(dense + sparse, h.id).text && h.metadata == FirstHit(dense + sparse, h.id).metadata
  {
    var es := AllEntries(Both(dense, sparse));
    FusedMembers(es, k, Fused(Both(dense, sparse), k));
    TwoSources(dense, sparse);
    FirstIsFirstHit(es, h.id);
  }

  /** No identifier of either ranking is missing. */
  lemma FusedHolds(dense: seq<Hit>, sparse: seq<Hit>, k: nat, id: string) returns (h: Hit)
    requires k > 0 && id in HitIds(dense + sparse)
    ensures h in Fused(Both(dense, sparse), k) && h.id == id
  {
    var es := AllEntries(Both(dense, sparse));
    FusedMembers(es, k, Fused(Both(dense, sparse), k));
    TwoSources(dense, sparse);
    IdsOfHits(es);
    h := FusedHit(es, id, k);
  }

  /** What a ranking adds to the score of an identifier: the reciprocal of its place. */
  function Contribution(hits: seq<Hit>, id: string, k: nat): real
    requires k > 0
  {
    if id in HitIds(hits) then 1.0 / (k + PlaceOf(hits, id) + 1) as real else 0.0
  }

  lemma ContributionIs(source: string, hits: seq<Hit>, id: string, k: nat)
    requires k > 0 && Ranking.DistinctIds(hits)
    ensures Score(Entries(source, hits, |hits|), id, k) == Contribution(hits, id, k)
  {
    if id in HitIds(hits) {
      OneScore(source, hits, |hits|, PlaceOf(hits, id), k);
    } else {
      assert forall i :: 0 <= i < |hits| ==> hits[i] in hits && hits[i].id != id;
      NoScore(source, hits, |hits|, id, k);
    }
  }

  /** A fused score is the sum of what the two rankings add. */
  lemma FusedScoreIs(dense: seq<Hit>, sparse: seq<Hit>, k: nat, h: Hit)
    requires k > 0 && h in Fused(Both(dense, sparse), k) && DistinctIds(dense) && DistinctIds(sparse)
    ensures h.score == Contribution(dense, h.id, k) + Contribution(sparse, h.id, k)
  {
    var es := AllEntries(Both(dense, sparse));
    FusedMembers(es, k, Fused(Both(dense, sparse), k));
    TwoSources(dense, sparse);
    ScoreOfBoth(Entries("dense", dense, |dense|), Entries("sparse", sparse, |sparse|), h.id, k);
    ContributionIs("dense", dense, h.id, k);
    ContributionIs("sparse", sparse, h.id, k);
  }
}
