/** From two rankings to the final results (src/core/query_engine/hybrid_search.py). */
module HybridSearch {
  import opened Outcomes
  import opened Ordering
  import opened Text
  import opened Ranking
  import opened Fusion
  import opened FusedResults
  import opened Diversity

  // ----- boosting titles -------------------------------------------------------------------------------

  /** `_normalize_metadata_term`. */
  function NormalizeTerm(term: string): string {
    var folded := Fold(term);
    if |folded| > 4 && folded[|folded| - 1] == 's' then folded[..|folded| - 1] else folded
  }

  predicate IsAscii(s: string) {
    forall i :: 0 <= i < |s| ==> s[i] < '\U{80}'
  }

  function Terms(words: set<string>): set<string> {
    set w | w in words && |w| >= 2 && IsAscii(w) :: NormalizeTerm(w)
  }

  /** The bonus of a title: a little for every shared term, and more when the query names all its terms. */
  function Bonus(queryTerms: set<string>, titleTerms: set<string>): (bonus: real)
    ensures bonus >= 0.0
  {
    var perTerm := |queryTerms * titleTerms| as real * 0.006;
    (if perTerm < 0.024 then perTerm else 0.024) + if titleTerms != {} && titleTerms <= queryTerms then 0.008 else 0.0
  }

  /** A long word counts like its plural, in any case; a short word is left as it is. */
  lemma PluralIsTheSame(word: string)
    ensures |word| >= 4 ==> NormalizeTerm(word + "s") == Fold(word)
    ensures |word| <= 4 ==> NormalizeTerm(word) == Fold(word)
  {
    var folded := Fold(word + "s");
    assert folded[..|word|] == Fold(word);
  }

  /** A title that shares no term with the query earns nothing, more shared terms never earn less, and no title earns
      more than 0.032. */
  lemma BonusGrows(few: set<string>, many: set<string>, titleTerms: set<string>)
    requires few <= many
    ensures Bonus(few, titleTerms) <= Bonus(many, titleTerms) <= 0.032
    ensures Bonus(few, titleTerms) == 0.0 <==> few * titleTerms == {}
    ensures titleTerms != {} && titleTerms <= few ==> Bonus(few, titleTerms) > 0.008
  {
    var a, b := few * titleTerms, many * titleTerms;
    assert a <= b;
    SubsetSize(a, b);
    if titleTerms != {} && titleTerms <= few {
      assert a == titleTerms;
    }
    if a != {} {
      assert |a| >= 1;
    }
  }

  lemma SubsetSize(a: set<string>, b: set<string>)
    requires a <= b
    ensures |a| <= |b|
  {
    assert b == a + (b - a);
  }

  /** A bonus changes the score by itself, and is recorded; the result stays what it is otherwise. */
  lemma BoostedKeepsRest(h: Hit, queryTerms: set<string>, tokens: string -> set<string>)
    ensures var b, bonus := Boosted(h, queryTerms, tokens), Bonus(queryTerms, Terms(tokens(Title(h))));
      && b.id == h.id && b.text == h.text && b.metadata == h.metadata && b.sources == h.sources
      && b.sourceRanks == h.sourceRanks && b.score == h.score + bonus
      && b.sourceScores == if bonus == 0.0 then h.sourceScores else h.sourceScores["metadata_boost" := bonus]
  {
  }

  function Title(h: Hit): string {
    if "title" in h.metadata then h.metadata["title"] else ""
  }

  function Boosted(h: Hit, queryTerms: set<string>, tokens: string -> set<string>): Hit {
    var bonus := Bonus(queryTerms, Terms(tokens(Title(h))));
    if bonus == 0.0 then h
    else h.(score := h.score + bonus, sourceScores := h.sourceScores["metadata_boost" := bonus])
  }

  function AllBoosted(cs: seq<Hit>, n: nat, queryTerms: set<string>, tokens: string -> set<string>): (bs: seq<Hit>)
    requires n <= |cs|
    ensures |bs| == n
  {
    if n == 0 then [] else AllBoosted(cs, n - 1, queryTerms, tokens) + [Boosted(cs[n - 1], queryTerms, tokens)]
  }

  /** `_boost_metadata_matches`. */
  method BoostMetadataMatches(cs: seq<Hit>, specificTerms: set<string>, tokens: string -> set<string>)
    returns (boosted: seq<Hit>)
    ensures boosted == if Terms(specificTerms) - {""} == {} then cs
                       else Rank(AllBoosted(cs, |cs|, Terms(specificTerms) - {""}, tokens))
  {
    var queryTerms := Terms(specificTerms) - {""};
    if queryTerms == {} {
      return cs;
    }
    boosted := [];
    for i := 0 to |cs|
      invariant boosted == AllBoosted(cs, i, queryTerms, tokens)
    {
      boosted := boosted + [Boosted(cs[i], queryTerms, tokens)];
    }
    boosted := Rank(boosted);
  }

  // ----- filters ---------------------------------------------------------------------------------------

  predicate Matches(h: Hit, filters: map<string, string>) {
    forall key :: key in filters ==> key in h.metadata && h.metadata[key] == filters[key]
  }

  /** `_apply_metadata_filters`. */
  function ApplyMetadataFilters(cs: seq<Hit>, filters: map<string, string>): (kept: seq<Hit>)
    ensures |kept| <= |cs|
  {
    if cs == [] then [] else
    var rest := ApplyMetadataFilters(cs[1..], filters);
    if Matches(cs[0], filters) then [cs[0]] + rest else rest
  }

  lemma {:induction false} FilteredMembers(cs: seq<Hit>, filters: map<string, string>)
    ensures forall h :: h in ApplyMetadataFilters(cs, filters) <==> h in cs && Matches(h, filters)
  {
    if cs != [] {
      FilteredMembers(cs[1..], filters);
      assert forall h :: h in cs <==> h == cs[0] || h in cs[1..];
    }
  }

  /** Which candidates match. */
  function AllMatching(cs: seq<Hit>, filters: map<string, string>): (choice: Choice)
    ensures |choice| == |cs| && forall i :: 0 <= i < |cs| ==> (choice[i] <==> Matches(cs[i], filters))
  {
    seq(|cs|, i requires 0 <= i < |cs| => Matches(cs[i], filters))
  }

  lemma {:induction false} FilterOneMore(cs: seq<Hit>, h: Hit, filters: map<string, string>)
    ensures ApplyMetadataFilters(cs + [h], filters) ==
      ApplyMetadataFilters(cs, filters) + if Matches(h, filters) then [h] else []
  {
    if cs == [] {
      assert [h][1..] == [];
    } else {
      FilterOneMore(cs[1..], h, filters);
      assert (cs + [h])[1..] == cs[1..] + [h];
    }
  }

  lemma {:induction false} FilteredPrefix(cs: seq<Hit>, choice: Choice, filters: map<string, string>, n: nat)
    requires n <= |cs| && n <= |choice| && forall i :: 0 <= i < n ==> (choice[i] <==> Matches(cs[i], filters))
    ensures ApplyMetadataFilters(cs[..n], filters) == Chosen(cs, choice, n)
  {
    if n > 0 {
      FilteredPrefix(cs, choice, filters, n - 1);
      var front, h := cs[..n - 1], cs[n - 1];
      FilterOneMore(front, h, filters);
      assert cs[..n] == front + [h];
    }
  }

  /** Filtering keeps exactly the positions that match, in their order and each of them once. */
  lemma FilterIsChoice(cs: seq<Hit>, filters: map<string, string>)
    ensures ApplyMetadataFilters(cs, filters) == Chosen(cs, AllMatching(cs, filters), |cs|)
  {
    FilteredPrefix(cs, AllMatching(cs, filters), filters, |cs|);
    assert cs[..|cs|] == cs;
  }

  lemma {:induction false} FilterKeepsRanking(cs: seq<Hit>, filters: map<string, string>)
    requires Ranked(cs)
    ensures Ranked(ApplyMetadataFilters(cs, filters))
  {
    if cs != [] {
      FilterKeepsRanking(cs[1..], filters);
      FilteredMembers(cs[1..], filters);
      assert forall h :: h in cs[1..] ==> Before(cs[0], h);
    }
  }

  // ----- diversity -------------------------------------------------------------------------------------

  /** The greedy selection from the first `n` candidates. */
  function Selected(cs: seq<Hit>, n: nat, cap: nat, topK: nat): seq<Hit>
    requires n <= |cs|
  {
    Chosen(cs, Greedy(cs, n, cap, topK), n)
  }

  lemma SelectedOneMore(cs: seq<Hit>, n: nat, cap: nat, topK: nat)
    requires 0 < n <= |cs|
    ensures Selected(cs, n, cap, topK) == Selected(cs, n - 1, cap, topK) +
      if Takes(GreedyTaken(cs, n - 1, cap, topK), DocumentKey(cs[n - 1]), cap, topK) then [cs[n - 1]] else []
  {
    GreedyExtends(cs, n, cap, topK);
    TakenPrefix(cs, Greedy(cs, n, cap, topK), Greedy(cs, n - 1, cap, topK), n - 1);
  }

  lemma {:induction false} FullStaysFull(cs: seq<Hit>, n: nat, m: nat, cap: nat, topK: nat)
    requires n <= m <= |cs| && |GreedyTaken(cs, n, cap, topK)| == topK
    ensures GreedyTaken(cs, m, cap, topK) == GreedyTaken(cs, n, cap, topK)
    ensures Selected(cs, m, cap, topK) == Selected(cs, n, cap, topK)
  {
    if n < m {
      FullStaysFull(cs, n, m - 1, cap, topK);
      SelectedOneMore(cs, m, cap, topK);
    }
  }

  /** The results so far, and the count of every document key among them. */
  ghost predicate Progress(cs: seq<Hit>, n: nat, cap: nat, topK: nat, counts: map<string, nat>, results: seq<Hit>)
    requires n <= |cs|
  {
    var taken := GreedyTaken(cs, n, cap, topK);
    && results == Selected(cs, n, cap, topK) && |results| == |taken|
    && Counted(counts, taken)
  }

  ghost predicate Counted(counts: map<string, nat>, taken: multiset<string>) {
    forall d :: CountOf(counts, d) == taken[d]
  }

  /** `counts.get(key, 0)`. */
  function CountOf(counts: map<string, nat>, key: string): nat {
    if key in counts then counts[key] else 0
  }

  /** The candidate is taken: its document is below the cap, and there is room. */
  lemma TakenStep(cs: seq<Hit>, n: nat, cap: nat, topK: nat, counts: map<string, nat>, results: seq<Hit>, count: nat)
    requires n < |cs| && |results| < topK && Progress(cs, n, cap, topK, counts, results) && count < cap
    requires count == CountOf(counts, DocumentKey(cs[n]))
    ensures Progress(cs, n + 1, cap, topK, counts[DocumentKey(cs[n]) := count + 1], results + [cs[n]])
  {
    SelectedOneMore(cs, n + 1, cap, topK);
    var taken, key := GreedyTaken(cs, n, cap, topK), DocumentKey(cs[n]);
    assert GreedyTaken(cs, n + 1, cap, topK) == taken + multiset{key};
    assert |taken + multiset{key}| == |taken| + 1;
  }

  /** The candidate is left out: its document has reached the cap. */
  lemma SkippedStep(cs: seq<Hit>, n: nat, cap: nat, topK: nat, counts: map<string, nat>, results: seq<Hit>)
    requires n < |cs| && |results| < topK && Progress(cs, n, cap, topK, counts, results)
    requires CountOf(counts, DocumentKey(cs[n])) >= cap
    ensures Progress(cs, n + 1, cap, topK, counts, results)
  {
    SelectedOneMore(cs, n + 1, cap, topK);
  }

  lemma FullIsSelected(cs: seq<Hit>, n: nat, cap: nat, topK: nat, counts: map<string, nat>, results: seq<Hit>)
    requires n <= |cs| && |results| == topK && Progress(cs, n, cap, topK, counts, results)
    ensures results == Selected(cs, |cs|, cap, topK)
  {
    FullStaysFull(cs, n, |cs|, cap, topK);
  }

  /** `_diversify`. */
  method Diversify(cs: seq<Hit>, cap: nat, topK: nat) returns (results: seq<Hit>)
    requires topK > 0
    ensures results == Selected(cs, |cs|, cap, topK)
  {
    var counts: map<string, nat> := map[];
    results := [];
    for i := 0 to |cs|
      invariant |results| < topK && Progress(cs, i, cap, topK, counts, results)
    {
      var key := DocumentKey(cs[i]);
      var count := CountOf(counts, key);
      if count >= cap {
        SkippedStep(cs, i, cap, topK, counts, results);
        continue;
      }
      TakenStep(cs, i, cap, topK, counts, results, count);
      counts := counts[key := count + 1];
      results := results + [cs[i]];
      if |results| == topK {
        FullIsSelected(cs, i + 1, cap, topK, counts, results);
        return;
      }
    }
  }

  lemma {:induction false} ChosenTotals(cs: seq<Hit>, choice: Choice, n: nat)
    requires n <= |cs| && n <= |choice|
    ensures SumOf(Chosen(cs, choice, n)) == Total(cs, choice, n)
  {
    if n > 0 {
      ChosenTotals(cs, choice, n - 1);
      var before := Chosen(cs, choice, n - 1);
      assert (before + [cs[n - 1]])[..|before|] == before;
      assert before + [] == before;
    }
  }

  function SumOf(s: seq<Hit>): real {
    if s == [] then 0.0 else SumOf(s[..|s| - 1]) + s[|s| - 1].score
  }

  /** The results are those of some choice of candidates within the limits, in their order. */
  ghost predicate IsSelection(cs: seq<Hit>, results: seq<Hit>, cap: nat, topK: nat) {
    exists choice :: Feasible(cs, choice, cap, topK) && results == Chosen(cs, choice, |cs|)
  }

  // ----- the whole search --------------------------------------------------------------------------------

  /** What the selection starts from: fused, boosted, ranked again, and filtered. */
  ghost function Candidates(rankings: map<string, seq<Hit>>, k: nat, specificTerms: set<string>,
                            tokens: string -> set<string>, filters: map<string, string>): seq<Hit>
    requires k > 0
  {
    var fused, queryTerms := Fused(rankings, k), Terms(specificTerms) - {""};
    var boosted := if queryTerms == {} then fused else Rank(AllBoosted(fused, |fused|, queryTerms, tokens));
    ApplyMetadataFilters(boosted, filters)
  }

  /** Whatever was retrieved, the candidates are in descending order of scores that are not negative. */
  lemma CandidatesDescend(rankings: map<string, seq<Hit>>, k: nat, specificTerms: set<string>,
                          tokens: string -> set<string>, filters: map<string, string>)
    requires k > 0
    ensures Ranked(Candidates(rankings, k, specificTerms, tokens, filters))
    ensures Descending(Candidates(rankings, k, specificTerms, tokens, filters))
  {
    FusedRanksEveryIdOnce(rankings, k);
    var fused, queryTerms := Fused(rankings, k), Terms(specificTerms) - {""};
    BoostKeepsSign(fused, queryTerms, tokens);
    var boosted := if queryTerms == {} then fused else Rank(AllBoosted(fused, |fused|, queryTerms, tokens));
    FilterKeepsRanking(boosted, filters);
    FilterKeepsSign(boosted, filters);
    RankedDescends(ApplyMetadataFilters(boosted, filters));
  }

  // ----- what the candidates are ---------------------------------------------------------------------------

  /** The metadata say what the filters ask for. */
  predicate Agrees(metadata: map<string, string>, filters: map<string, string>) {
    filters.Keys <= metadata.Keys && forall key :: key in filters ==> metadata[key] == filters[key]
  }

  /** A hit of the rankings, but for its scores. */
  ghost predicate Genuine(h: Hit, hits: seq<Hit>) {
    && h.id in HitIds(hits)
    && h.text == FirstHit(hits, h.id).text && h.metadata == FirstHit(hits, h.id).metadata
  }

  ghost function BoostedHits(dense: seq<Hit>, sparse: seq<Hit>, k: nat, specificTerms: set<string>,
                             tokens: string -> set<string>): seq<Hit>
    requires k > 0
  {
    var fused, queryTerms := Fused(Both(dense, sparse), k), Terms(specificTerms) - {""};
    if queryTerms == {} then fused else Rank(AllBoosted(fused, |fused|, queryTerms, tokens))
  }

  lemma BoostedHitIs(dense: seq<Hit>, sparse: seq<Hit>, k: nat, specificTerms: set<string>,
                     tokens: string -> set<string>, h: Hit)
    requires k > 0 && h in BoostedHits(dense, sparse, k, specificTerms, tokens)
    ensures Genuine(h, dense + sparse)
  {
    var fused, queryTerms := Fused(Both(dense, sparse), k), Terms(specificTerms) - {""};
    if queryTerms == {} {
      FusedCarries(dense, sparse, k, h);
    } else {
      var all := AllBoosted(fused, |fused|, queryTerms, tokens);
      assert h in multiset(Rank(all));
      var i := BoostedFrom(fused, queryTerms, tokens, h);
      BoostedKeepsRest(fused[i], queryTerms, tokens);
      FusedCarries(dense, sparse, k, fused[i]);
    }
  }

  lemma BoostedHolds(dense: seq<Hit>, sparse: seq<Hit>, k: nat, specificTerms: set<string>,
                     tokens: string -> set<string>, id: string)
    returns (h: Hit)
    requires k > 0 && id in HitIds(dense + sparse)
    ensures h in BoostedHits(dense, sparse, k, specificTerms, tokens) && h.id == id
  {
    var fused, queryTerms := Fused(Both(dense, sparse), k), Terms(specificTerms) - {""};
    h := FusedHolds(dense, sparse, k, id);
    if queryTerms != {} {
      var all := AllBoosted(fused, |fused|, queryTerms, tokens);
      var i :| 0 <= i < |fused| && fused[i] == h;
      BoostedAt(fused, |fused|, queryTerms, tokens, i);
      BoostedKeepsRest(h, queryTerms, tokens);
      h := all[i];
      assert h in multiset(all);
      assert h in multiset(Rank(all));
    }
  }

  lemma AgreesIsMatching(h: Hit, filters: map<string, string>)
    ensures Matches(h, filters) <==> Agrees(h.metadata, filters)
  {
  }

  /** The candidates are the hits of the two rankings whose metadata say what the filters ask for, all of them, each
      with the text and metadata of its first hit. */
  lemma CandidatesAre(dense: seq<Hit>, sparse: seq<Hit>, k: nat, specificTerms: set<string>,
                      tokens: string -> set<string>, filters: map<string, string>)
    requires k > 0
    ensures var cs := Candidates(Both(dense, sparse), k, specificTerms, tokens, filters);
      && (forall h :: h in cs ==> Genuine(h, dense + sparse) && Agrees(h.metadata, filters))
      && (forall id :: id in HitIds(dense + sparse) && Agrees(FirstHit(dense + sparse, id).metadata, filters) ==>
            id in HitIds(cs))
  {
    var boosted := BoostedHits(dense, sparse, k, specificTerms, tokens);
    var cs := Candidates(Both(dense, sparse), k, specificTerms, tokens, filters);
    assert cs == ApplyMetadataFilters(boosted, filters);
    FilteredMembers(boosted, filters);
    forall h | h in cs ensures Genuine(h, dense + sparse) && Agrees(h.metadata, filters) {
      BoostedHitIs(dense, sparse, k, specificTerms, tokens, h);
      AgreesIsMatching(h, filters);
    }
    forall id | id in HitIds(dense + sparse) && Agrees(FirstHit(dense + sparse, id).metadata, filters)
      ensures id in HitIds(cs)
    {
      var h := BoostedHolds(dense, sparse, k, specificTerms, tokens, id);
      BoostedHitIs(dense, sparse, k, specificTerms, tokens, h);
      AgreesIsMatching(h, filters);
      assert h in cs;
    }
  }

  lemma BoostedApart(cs: seq<Hit>, queryTerms: set<string>, tokens: string -> set<string>)
    requires Ranking.DistinctIds(cs)
    ensures Ranking.DistinctIds(AllBoosted(cs, |cs|, queryTerms, tokens))
  {
    var all := AllBoosted(cs, |cs|, queryTerms, tokens);
    forall i, j | 0 <= i < j < |all| ensures all[i].id != all[j].id {
      BoostedAt(cs, |cs|, queryTerms, tokens, i);
      BoostedAt(cs, |cs|, queryTerms, tokens, j);
      BoostedKeepsRest(cs[i], queryTerms, tokens);
      BoostedKeepsRest(cs[j], queryTerms, tokens);
    }
  }

  lemma {:induction false} FilterKeepsApart(cs: seq<Hit>, filters: map<string, string>)
    requires Ranking.DistinctIds(cs)
    ensures Ranking.DistinctIds(ApplyMetadataFilters(cs, filters))
  {
    if cs != [] {
      FilterKeepsApart(cs[1..], filters);
      FilteredMembers(cs[1..], filters);
      forall h | h in cs[1..] ensures h.id != cs[0].id {
        var i :| 0 <= i < |cs[1..]| && cs[1..][i] == h;
      }
    }
  }

  /** No identifier is a candidate twice. */
  lemma CandidatesApart(dense: seq<Hit>, sparse: seq<Hit>, k: nat, specificTerms: set<string>,
                        tokens: string -> set<string>, filters: map<string, string>)
    requires k > 0
    ensures Ranking.DistinctIds(Candidates(Both(dense, sparse), k, specificTerms, tokens, filters))
  {
    var fused, queryTerms := Fused(Both(dense, sparse), k), Terms(specificTerms) - {""};
    FusedRanksEveryIdOnce(Both(dense, sparse), k);
    if queryTerms != {} {
      var all := AllBoosted(fused, |fused|, queryTerms, tokens);
      BoostedApart(fused, queryTerms, tokens);
      PermutedApart(all, Rank(all));
    }
    FilterKeepsApart(BoostedHits(dense, sparse, k, specificTerms, tokens), filters);
  }

  lemma PermutedApart(a: seq<Hit>, b: seq<Hit>)
    requires multiset(a) == multiset(b) && Ranking.DistinctIds(a)
    ensures Ranking.DistinctIds(b)
  {
    forall i, j | 0 <= i < j < |b| ensures b[i].id != b[j].id {
      assert b[i] in multiset(a) && b[j] in multiset(a);
      var x :| 0 <= x < |a| && a[x] == b[i];
      var y :| 0 <= y < |a| && a[y] == b[j];
      if x == y {
        TwiceIn(b, i, j);
        OnceIn(a, x);
      }
    }
  }

  lemma TwiceIn(b: seq<Hit>, i: nat, j: nat)
    requires i < j < |b| && b[i] == b[j]
    ensures multiset(b)[b[j]] >= 2
  {
    assert b == b[..j] + [b[j]] + b[j + 1..];
    assert b[i] in b[..j];
  }

  lemma OnceIn(a: seq<Hit>, x: nat)
    requires x < |a| && Ranking.DistinctIds(a)
    ensures multiset(a)[a[x]] == 1
  {
    assert a == a[..x] + [a[x]] + a[x + 1..];
    assert a[x] !in a[..x] && a[x] !in a[x + 1..];
  }

  lemma {:induction false} BoostedAt(cs: seq<Hit>, n: nat, queryTerms: set<string>, tokens: string -> set<string>,
                                     i: nat)
    requires i < n <= |cs|
    ensures AllBoosted(cs, n, queryTerms, tokens)[i] == Boosted(cs[i], queryTerms, tokens)
  {
    if i < n - 1 {
      BoostedAt(cs, n - 1, queryTerms, tokens, i);
    }
  }

  lemma BoostedFrom(cs: seq<Hit>, queryTerms: set<string>, tokens: string -> set<string>, h: Hit) returns (i: nat)
    requires h in AllBoosted(cs, |cs|, queryTerms, tokens)
    ensures i < |cs| && h == Boosted(cs[i], queryTerms, tokens)
  {
    var all := AllBoosted(cs, |cs|, queryTerms, tokens);
    i :| 0 <= i < |all| && all[i] == h;
    BoostedAt(cs, |cs|, queryTerms, tokens, i);
  }

  lemma KeepsSign(h: Hit, queryTerms: set<string>, tokens: string -> set<string>)
    requires h.score > 0.0
    ensures Boosted(h, queryTerms, tokens).score > 0.0
  {
  }

  predicate AllPositive(cs: seq<Hit>) {
    forall h :: h in cs ==> h.score > 0.0
  }

  lemma RankedDescends(cs: seq<Hit>)
    requires Ranked(cs) && AllPositive(cs)
    ensures Descending(cs)
  {
    assert forall i :: 0 <= i < |cs| ==> cs[i] in cs;
  }

  lemma FilterKeepsSign(cs: seq<Hit>, filters: map<string, string>)
    requires AllPositive(cs)
    ensures AllPositive(ApplyMetadataFilters(cs, filters))
  {
    FilteredMembers(cs, filters);
  }

  lemma BoostKeepsSign(cs: seq<Hit>, queryTerms: set<string>, tokens: string -> set<string>)
    requires AllPositive(cs)
    ensures AllPositive(Rank(AllBoosted(cs, |cs|, queryTerms, tokens)))
  {
    var all := AllBoosted(cs, |cs|, queryTerms, tokens);
    forall h | h in Rank(all) ensures h.score > 0.0 {
      assert h in multiset(Rank(all));
      var i := BoostedFrom(cs, queryTerms, tokens, h);
      KeepsSign(cs[i], queryTerms, tokens);
    }
  }

  /** `search`, from the two rankings on: the results are within the limits, and no other selection from the
      same candidates within the limits has a greater total score. */
  method Search(dense: seq<Hit>, sparse: seq<Hit>, k: nat, specificTerms: set<string>, tokens: string -> set<string>,
                filters: map<string, string>, cap: nat, topK: int)
    returns (r: Result<seq<Hit>, FusionError>)
    requires k > 0
    ensures r.Err? <==> topK <= 0
    ensures r.Ok? ==>
      var cs := Candidates(Both(dense, sparse), k, specificTerms, tokens, filters);
      && IsSelection(cs, r.value, cap, topK)
      && |r.value| <= topK && Ranking.DistinctIds(r.value)
      && (forall h :: h in r.value ==> Genuine(h, dense + sparse) && Agrees(h.metadata, filters))
      && (forall hash :: hash != "" ==> Having(r.value, "file_hash", hash) <= cap)
      && forall other :: Feasible(cs, other, cap, topK) ==> Total(cs, other, |cs|) <= SumOf(r.value)
  {
    if topK <= 0 {
      return Err(InvalidTopK);
    }
    var rankings := Both(dense, sparse);
    var fused := Fuse(rankings, k, None);
    var boosted := BoostMetadataMatches(fused.value, specificTerms, tokens);
    var filtered := ApplyMetadataFilters(boosted, filters);
    var results := Diversify(filtered, cap, topK);
    r := Ok(results);
    ghost var choice := Greedy(filtered, |filtered|, cap, topK);
    CandidatesDescend(rankings, k, specificTerms, tokens, filters);
    GreedyIsFeasible(filtered, cap, topK);
    ChosenTotals(filtered, choice, |filtered|);
    forall other | Feasible(filtered, other, cap, topK) {
      GreedyIsOptimal(filtered, other, cap, topK);
    }
    CandidatesAre(dense, sparse, k, specificTerms, tokens, filters);
    CandidatesApart(dense, sparse, k, specificTerms, tokens, filters);
    SelectionIsFair(filtered, choice, cap, topK);
  }

  /** What every selection within the limits is. */
  lemma SelectionIsFair(cs: seq<Hit>, choice: Choice, cap: nat, topK: nat)
    requires Feasible(cs, choice, cap, topK) && Ranking.DistinctIds(cs)
    ensures var results := Chosen(cs, choice, |cs|);
      && |results| <= topK && Ranking.DistinctIds(results)
      && (forall h :: h in results ==> h in cs)
      && forall hash :: hash != "" ==> Having(results, "file_hash", hash) <= cap
  {
    ChosenIs(cs, choice, |cs|);
    ChosenDistinct(cs, choice, |cs|);
    assert cs[..|cs|] == cs;
    forall hash | hash != "" ensures Having(Chosen(cs, choice, |cs|), "file_hash", hash) <= cap {
      AtMostCapOfAFile(cs, choice, cap, topK, hash);
    }
  }
}
