/** Reciprocal-rank fusion of several rankings into one (src/core/query_engine/fusion.py). */
module Fusion {
  import opened Outcomes
  import opened Ordering
  import opened Ranking

  /** One result in one ranking; ranks count from 1. */
  datatype Entry = Entry(source: string, rank: nat, hit: Hit)

  function Entries(source: string, results: seq<Hit>, n: nat): (es: seq<Entry>)
    requires n <= |results|
    ensures |es| == n
  {
    if n == 0 then [] else Entries(source, results, n - 1) + [Entry(source, n, results[n - 1])]
  }

  /** All entries, source by source. */
  function Flat(rankings: map<string, seq<Hit>>, sources: seq<string>): seq<Entry>
    requires forall s :: s in sources ==> s in rankings
  {
    if sources == [] then [] else
    var last := sources[|sources| - 1];
    Flat(rankings, sources[..|sources| - 1]) + Entries(last, rankings[last], |rankings[last]|)
  }

  function AllEntries(rankings: map<string, seq<Hit>>): seq<Entry> {
    Flat(rankings, SortedKeys(rankings.Keys))
  }

  // ----- what the dictionaries hold ------------------------------------------------------------------

  function Ids(es: seq<Entry>): set<string> {
    set e | e in es :: e.hit.id
  }

  /** The sum of the reciprocal ranks of an identifier. */
  function Score(es: seq<Entry>, id: string, k: nat): real
    requires k > 0
  {
    if es == [] then 0.0 else
    var last := es[|es| - 1];
    Score(es[..|es| - 1], id, k) + if last.hit.id == id then 1.0 / (k + last.rank) as real else 0.0
  }

  function First(es: seq<Entry>, id: string): Hit
    requires id in Ids(es)
  {
    var front, last := es[..|es| - 1], es[|es| - 1];
    if id in Ids(front) then First(front, id) else last.hit
  }

  function SourceScores(es: seq<Entry>, id: string): map<string, real> {
    if es == [] then map[] else
    var before, last := SourceScores(es[..|es| - 1], id), es[|es| - 1];
    if last.hit.id == id then before[last.source := last.hit.score] else before
  }

  function SourceRanks(es: seq<Entry>, id: string): map<string, nat> {
    if es == [] then map[] else
    var before, last := SourceRanks(es[..|es| - 1], id), es[|es| - 1];
    if last.hit.id == id then before[last.source := last.rank] else before
  }

  function FusedHit(es: seq<Entry>, id: string, k: nat): Hit
    requires k > 0 && id in Ids(es)
  {
    Hit(id, Score(es, id, k), First(es, id).text, First(es, id).metadata,
        SortedKeys(SourceScores(es, id).Keys), SourceScores(es, id), SourceRanks(es, id))
  }

  /** One fused result for every identifier. */
  function FusedHits(es: seq<Entry>, ids: set<string>, k: nat): set<Hit>
    requires k > 0 && ids <= Ids(es)
  {
    set id | id in ids :: FusedHit(es, id, k)
  }

  /** The fused ranking. */
  ghost function Fused(rankings: map<string, seq<Hit>>, k: nat): seq<Hit>
    requires k > 0
  {
    var es := AllEntries(rankings);
    Rank(Listed(FusedHits(es, Ids(es), k)))
  }

  /** No other sequence is ranked and holds the same results. */
  lemma FusedUnique(es: seq<Entry>, k: nat, fused: seq<Hit>)
    requires k > 0 && Ranked(fused) && multiset(fused) == multiset(FusedHits(es, Ids(es), k))
    ensures fused == Rank(Listed(FusedHits(es, Ids(es), k)))
  {
    forall x, y | x in fused && y in fused && x.id == y.id ensures x == y {
      assert x in multiset(fused) && y in multiset(fused);
      assert x in FusedHits(es, Ids(es), k) && y in FusedHits(es, Ids(es), k);
    }
    RankedUnique(fused, Rank(Listed(FusedHits(es, Ids(es), k))));
  }

  // ----- fuse ------------------------------------------------------------------------------------------

  /** The four dictionaries of the loop. */
  datatype Tables = Tables(
    scores: map<string, real>, exemplars: map<string, Hit>,
    sourceScores: map<string, map<string, real>>, sourceRanks: map<string, map<string, nat>>)

  /** What the dictionaries hold for one identifier after some entries. */
  predicate Holds(es: seq<Entry>, k: nat, t: Tables, id: string)
    requires k > 0
  {
    && (id in t.scores <==> id in Ids(es)) && (id in t.exemplars <==> id in Ids(es))
    && (id in t.sourceScores <==> id in Ids(es)) && (id in t.sourceRanks <==> id in Ids(es))
    && (id in Ids(es) ==>
          t.scores[id] == Score(es, id, k) && t.exemplars[id] == First(es, id) &&
          t.sourceScores[id] == SourceScores(es, id) && t.sourceRanks[id] == SourceRanks(es, id))
  }

  ghost predicate Accumulated(es: seq<Entry>, k: nat, t: Tables)
    requires k > 0
  {
    forall id :: Holds(es, k, t, id)
  }

  lemma Absent(es: seq<Entry>, id: string, k: nat)
    requires k > 0 && id !in Ids(es)
    ensures Score(es, id, k) == 0.0 && SourceScores(es, id) == map[] && SourceRanks(es, id) == map[]
  {
    if es != [] {
      var front, last := es[..|es| - 1], es[|es| - 1];
      assert last in es && forall e :: e in front ==> e in es;
      Absent(front, id, k);
    }
  }

  lemma IdsOneMore(es: seq<Entry>, e: Entry)
    ensures Ids(es + [e]) == Ids(es) + {e.hit.id}
  {
    assert (es + [e])[|es|] == e;
    assert forall x :: x in es + [e] <==> x in es || x == e;
  }

  lemma OneMore(es: seq<Entry>, e: Entry, id: string, k: nat)
    requires k > 0
    ensures Score(es + [e], id, k) == Score(es, id, k) + if e.hit.id == id then 1.0 / (k + e.rank) as real else 0.0
    ensures SourceScores(es + [e], id) ==
      if e.hit.id == id then SourceScores(es, id)[e.source := e.hit.score] else SourceScores(es, id)
    ensures SourceRanks(es + [e], id) ==
      if e.hit.id == id then SourceRanks(es, id)[e.source := e.rank] else SourceRanks(es, id)
    ensures Ids(es + [e]) == Ids(es) + {e.hit.id}
    ensures id in Ids(es) ==> First(es + [e], id) == First(es, id)
    ensures id == e.hit.id && id !in Ids(es) ==> First(es + [e], id) == e.hit
  {
    assert (es + [e])[..|es|] == es;
    IdsOneMore(es, e);
  }

  /** The body of the inner loop. */
  method Accumulate(k: nat, ghost es: seq<Entry>, e: Entry, t: Tables) returns (t': Tables)
    requires k > 0 && Accumulated(es, k, t)
    ensures Accumulated(es + [e], k, t')
  {
    var id := e.hit.id;
    assert Holds(es, k, t, id);
    t' := Tables(
      t.scores[id := (if id in t.scores then t.scores[id] else 0.0) + 1.0 / (k + e.rank) as real],
      if id in t.exemplars then t.exemplars else t.exemplars[id := e.hit],
      t.sourceScores[id := (if id in t.sourceScores then t.sourceScores[id] else map[])[e.source := e.hit.score]],
      t.sourceRanks[id := (if id in t.sourceRanks then t.sourceRanks[id] else map[])[e.source := e.rank]]);
    forall i ensures Holds(es + [e], k, t', i) {
      assert Holds(es, k, t, i);
      OneMore(es, e, i, k);
      if i !in Ids(es) {
        Absent(es, i, k);
      }
    }
  }

  datatype FusionError = InvalidTopK

  lemma FlatOneMore(rankings: map<string, seq<Hit>>, sources: seq<string>, i: nat)
    requires i < |sources| && forall s :: s in sources ==> s in rankings
    ensures Flat(rankings, sources[..i + 1]) ==
            Flat(rankings, sources[..i]) +
            Entries(sources[i], rankings[sources[i]], |rankings[sources[i]]|)
  {
    assert sources[..i + 1][..i] == sources[..i];
  }

  /** `ReciprocalRankFusion.fuse`. */
  method Fuse(rankings: map<string, seq<Hit>>, k: nat, topK: Option<int>) returns (r: Result<seq<Hit>, FusionError>)
    requires k > 0
    ensures r.Err? <==> topK.Some? && topK.value <= 0
    ensures r.Ok? ==> r.value == Limited(Fused(rankings, k), topK)
  {
    if topK.Some? && topK.value <= 0 {
      return Err(InvalidTopK);
    }
    var t := Tables(map[], map[], map[], map[]);
    var sources := SortedKeys(rankings.Keys);
    ghost var es: seq<Entry> := [];
    for i := 0 to |sources|
      invariant es == Flat(rankings, sources[..i])
      invariant Accumulated(es, k, t)
    {
      t := FuseSource(k, es, sources[i], rankings[sources[i]], t);
      es := es + Entries(sources[i], rankings[sources[i]], |rankings[sources[i]]|);
      FlatOneMore(rankings, sources, i);
    }
    assert sources[..|sources|] == sources;
    var fused := Collect(es, k, t);
    r := Ok(Limited(fused, topK));
  }

  /** The inner loop: one ranking. */
  method FuseSource(k: nat, ghost es: seq<Entry>, source: string, results: seq<Hit>, t: Tables) returns (t': Tables)
    requires k > 0 && Accumulated(es, k, t)
    ensures Accumulated(es + Entries(source, results, |results|), k, t')
  {
    t' := t;
    assert es + [] == es;
    for j := 0 to |results|
      invariant Accumulated(es + Entries(source, results, j), k, t')
    {
      var e := Entry(source, j + 1, results[j]);
      t' := Accumulate(k, es + Entries(source, results, j), e, t');
      assert es + Entries(source, results, j + 1) == es + Entries(source, results, j) + [e];
    }
  }

  function Limited(s: seq<Hit>, topK: Option<int>): seq<Hit>
    requires topK.Some? ==> topK.value > 0
  {
    if topK.None? then s else Cut(s, topK.value)
  }

  lemma HitsOneMore(es: seq<Entry>, ids: set<string>, id: string, k: nat)
    requires k > 0 && ids <= Ids(es) && id in Ids(es) && id !in ids
    ensures multiset(FusedHits(es, ids + {id}, k)) == multiset(FusedHits(es, ids, k)) + multiset{FusedHit(es, id, k)}
  {
    var hit := FusedHit(es, id, k);
    assert FusedHits(es, ids + {id}, k) == FusedHits(es, ids, k) + {hit};
    assert hit !in FusedHits(es, ids, k);
  }

  lemma ListedOneMore(es: seq<Entry>, listed: seq<Hit>, todo: set<string>, id: string, k: nat)
    requires k > 0 && id in todo && todo <= Ids(es)
    requires multiset(listed) == multiset(FusedHits(es, Ids(es) - todo, k))
    ensures multiset(listed + [FusedHit(es, id, k)]) == multiset(FusedHits(es, Ids(es) - (todo - {id}), k))
  {
    HitsOneMore(es, Ids(es) - todo, id, k);
    assert Ids(es) - todo + {id} == Ids(es) - (todo - {id});
  }

  /** The list of fused results, in whatever order the dictionary holds them, and its ranking. */
  method Collect(ghost es: seq<Entry>, k: nat, t: Tables) returns (fused: seq<Hit>)
    requires k > 0 && Accumulated(es, k, t)
    ensures fused == Rank(Listed(FusedHits(es, Ids(es), k)))
  {
    var todo := t.scores.Keys;
    var listed: seq<Hit> := [];
    assert forall id :: Holds(es, k, t, id) ==> (id in t.scores <==> id in Ids(es));
    while todo != {}
      invariant todo <= Ids(es)
      invariant multiset(listed) == multiset(FusedHits(es, Ids(es) - todo, k))
      decreases |todo|
    {
      var id :| id in todo;
      assert Holds(es, k, t, id);
      var hit := Hit(id, t.scores[id], t.exemplars[id].text, t.exemplars[id].metadata,
                     SortedKeys(t.sourceScores[id].Keys), t.sourceScores[id], t.sourceRanks[id]);
      assert hit == FusedHit(es, id, k);
      ListedOneMore(es, listed, todo, id, k);
      listed := listed + [hit];
      todo := todo - {id};
    }
    assert Ids(es) - todo == Ids(es);
    fused := Rank(listed);
    FusedUnique(es, k, fused);
  }

  // ----- what fusion promises --------------------------------------------------------------------------

  lemma {:induction false} ScoreIsPositive(es: seq<Entry>, id: string, k: nat)
    requires k > 0
    ensures Score(es, id, k) >= 0.0 && (id in Ids(es) ==> Score(es, id, k) > 0.0)
  {
    if es != [] {
      var front, last := es[..|es| - 1], es[|es| - 1];
      ScoreIsPositive(front, id, k);
      if id in Ids(es) && last.hit.id != id {
        assert id in Ids(front);
      }
    }
  }

  lemma FusedMembers(es: seq<Entry>, k: nat, fused: seq<Hit>)
    requires k > 0 && multiset(fused) == multiset(FusedHits(es, Ids(es), k))
    ensures forall h :: h in fused ==> h.score > 0.0 && h.id in Ids(es) && h == FusedHit(es, h.id, k)
    ensures forall id :: id in Ids(es) ==> FusedHit(es, id, k) in fused
  {
    forall h | h in fused ensures h.score > 0.0 && h.id in Ids(es) && h == FusedHit(es, h.id, k) {
      assert h in multiset(fused);
      ScoreIsPositive(es, h.id, k);
    }
    forall id | id in Ids(es) ensures FusedHit(es, id, k) in fused {
      assert FusedHit(es, id, k) in multiset(fused);
    }
  }

  /** The fused ranking names every identifier of the rankings once, with a positive score, best first. */
  lemma FusedRanksEveryIdOnce(rankings: map<string, seq<Hit>>, k: nat)
    requires k > 0
    ensures var fused := Fused(rankings, k);
      && Ranked(fused) && DistinctIds(fused)
      && (forall h :: h in fused ==> h.score > 0.0 && h.id in Ids(AllEntries(rankings)))
      && (forall id :: id in Ids(AllEntries(rankings)) ==> FusedHit(AllEntries(rankings), id, k) in fused)
  {
    var es, fused := AllEntries(rankings), Fused(rankings, k);
    FusedMembers(es, k, fused);
    forall i, j | 0 <= i < j < |fused| ensures fused[i].id != fused[j].id {
      NotTwice(fused, FusedHits(es, Ids(es), k), i, j);
      assert fused[i] in fused && fused[j] in fused;
    }
  }

  lemma NotTwice(s: seq<Hit>, hits: set<Hit>, i: nat, j: nat)
    requires multiset(s) == multiset(hits) && i < j < |s|
    ensures s[i] != s[j]
  {
    assert s == s[..j] + [s[j]] + s[j + 1..];
    assert s[i] in s[..j];
    assert multiset(s)[s[j]] == multiset(s[..j])[s[j]] + 1 + multiset(s[j + 1..])[s[j]];
  }

  /** `a` is ranked, and not below `b`, wherever `b` is ranked. */
  predicate Beats(results: seq<Hit>, a: string, b: string) {
    forall j :: 0 <= j < |results| && results[j].id == b ==> exists i :: 0 <= i <= j && results[i].id == a
  }

  lemma {:induction false} ScoreOfBoth(es: seq<Entry>, fs: seq<Entry>, id: string, k: nat)
    requires k > 0
    ensures Score(es + fs, id, k) == Score(es, id, k) + Score(fs, id, k)
  {
    if fs == [] {
      assert es + fs == es;
    } else {
      var front := fs[..|fs| - 1];
      ScoreOfBoth(es, front, id, k);
      assert (es + fs)[..|es + fs| - 1] == es + front;
    }
  }

  lemma {:induction false} NoScore(source: string, results: seq<Hit>, n: nat, id: string, k: nat)
    requires k > 0 && n <= |results| && forall i :: 0 <= i < n ==> results[i].id != id
    ensures Score(Entries(source, results, n), id, k) == 0.0
  {
    if n > 0 {
      NoScore(source, results, n - 1, id, k);
      assert Entries(source, results, n)[..n - 1] == Entries(source, results, n - 1);
    }
  }

  /** A ranking contributes the reciprocal rank of the one place where it has the identifier. */
  lemma {:induction false} OneScore(source: string, results: seq<Hit>, n: nat, i: nat, k: nat)
    requires k > 0 && i < n <= |results| && DistinctIds(results)
    ensures Score(Entries(source, results, n), results[i].id, k) == 1.0 / (k + i + 1) as real
  {
    assert Entries(source, results, n)[..n - 1] == Entries(source, results, n - 1);
    if i < n - 1 {
      OneScore(source, results, n - 1, i, k);
    } else {
      NoScore(source, results, n - 1, results[i].id, k);
    }
  }

  lemma SourceFavours(source: string, results: seq<Hit>, a: string, b: string, k: nat)
    requires k > 0 && DistinctIds(results) && Beats(results, a, b)
    ensures Score(Entries(source, results, |results|), a, k) >= Score(Entries(source, results, |results|), b, k)
  {
    ScoreIsPositive(Entries(source, results, |results|), a, k);
    if j :| 0 <= j < |results| && results[j].id == b {
      var i :| 0 <= i <= j && results[i].id == a;
      OneScore(source, results, |results|, i, k);
      OneScore(source, results, |results|, j, k);
      Reciprocal(k + i + 1, k + j + 1);
    } else {
      NoScore(source, results, |results|, b, k);
    }
  }

  lemma Reciprocal(a: nat, b: nat)
    requires 0 < a <= b
    ensures 1.0 / a as real >= 1.0 / b as real
  {
  }

  lemma {:induction false} FlatFavours(rankings: map<string, seq<Hit>>, sources: seq<string>, a: string, b: string,
                                       k: nat)
    requires k > 0 && forall s :: s in sources ==> s in rankings && DistinctIds(rankings[s]) && Beats(rankings[s], a, b)
    ensures Score(Flat(rankings, sources), a, k) >= Score(Flat(rankings, sources), b, k)
  {
    if sources != [] {
      var front, last := sources[..|sources| - 1], sources[|sources| - 1];
      FlatFavours(rankings, front, a, b, k);
      var es, fs := Flat(rankings, front), Entries(last, rankings[last], |rankings[last]|);
      ScoreOfBoth(es, fs, a, k);
      ScoreOfBoth(es, fs, b, k);
      SourceFavours(last, rankings[last], a, b, k);
    }
  }

  /** A result that no ranking places below another one is not fused to a lower score. */
  lemma FusionKeepsDominance(rankings: map<string, seq<Hit>>, a: string, b: string, k: nat)
    requires k > 0 && forall s :: s in rankings ==> DistinctIds(rankings[s]) && Beats(rankings[s], a, b)
    ensures Score(AllEntries(rankings), a, k) >= Score(AllEntries(rankings), b, k)
  {
    FlatFavours(rankings, SortedKeys(rankings.Keys), a, b, k);
  }
}
