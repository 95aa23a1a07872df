/** Selection under a cap per document, and why the greedy choice is the best one
    (src/core/query_engine/hybrid_search.py). */
module Diversity {
  import opened Ordering
  import opened Ranking

  /** The document a result counts against. */
  function DocumentKey(h: Hit): string {
    if "file_hash" in h.metadata && h.metadata["file_hash"] != "" then h.metadata["file_hash"]
    else if "source_path" in h.metadata && h.metadata["source_path"] != "" then h.metadata["source_path"]
    else h.id
  }

  // ----- choices -----------------------------------------------------------------------------------

  /** A choice among candidates: which positions are taken. */
  type Choice = seq<bool>

  /** The documents of the chosen candidates among the first `n`. */
  function Taken(cs: seq<Hit>, choice: Choice, n: nat): (m: multiset<string>)
    requires n <= |cs| && n <= |choice|
  {
    if n == 0 then multiset{} else
    Taken(cs, choice, n - 1) + if choice[n - 1] then multiset{DocumentKey(cs[n - 1])} else multiset{}
  }

  function Total(cs: seq<Hit>, choice: Choice, n: nat): real
    requires n <= |cs| && n <= |choice|
  {
    if n == 0 then 0.0 else Total(cs, choice, n - 1) + if choice[n - 1] then cs[n - 1].score else 0.0
  }

  function Chosen(cs: seq<Hit>, choice: Choice, n: nat): seq<Hit>
    requires n <= |cs| && n <= |choice|
  {
    if n == 0 then [] else Chosen(cs, choice, n - 1) + if choice[n - 1] then [cs[n - 1]] else []
  }

  /** At most `topK` results, and at most `cap` of any document. */
  predicate Feasible(cs: seq<Hit>, choice: Choice, cap: nat, topK: nat) {
    && |choice| == |cs|
    && |Taken(cs, choice, |cs|)| <= topK
    && forall d :: d in Taken(cs, choice, |cs|) ==> Taken(cs, choice, |cs|)[d] <= cap
  }

  predicate Descending(cs: seq<Hit>) {
    && (forall i :: 0 <= i < |cs| ==> cs[i].score >= 0.0)
    && (forall i :: 0 < i < |cs| ==> cs[i - 1].score >= cs[i].score)
  }

  // ----- the greedy choice ---------------------------------------------------------------------------

  /** The documents taken from the first `n` candidates when each is taken in turn, unless its document is
      full or enough were taken. */
  function GreedyTaken(cs: seq<Hit>, n: nat, cap: nat, topK: nat): multiset<string>
    requires n <= |cs|
  {
    if n == 0 then multiset{} else
    var before := GreedyTaken(cs, n - 1, cap, topK);
    if Takes(before, DocumentKey(cs[n - 1]), cap, topK) then before + multiset{DocumentKey(cs[n - 1])} else before
  }

  predicate Takes(before: multiset<string>, key: string, cap: nat, topK: nat) {
    |before| < topK && before[key] < cap
  }

  function Greedy(cs: seq<Hit>, n: nat, cap: nat, topK: nat): (choice: Choice)
    requires n <= |cs|
    ensures |choice| == n
  {
    if n == 0 then [] else
    Greedy(cs, n - 1, cap, topK) + [Takes(GreedyTaken(cs, n - 1, cap, topK), DocumentKey(cs[n - 1]), cap, topK)]
  }

  lemma {:induction false} TakenPrefix(cs: seq<Hit>, a: Choice, b: Choice, n: nat)
    requires n <= |cs| && n <= |a| && n <= |b| && a[..n] == b[..n]
    ensures Taken(cs, a, n) == Taken(cs, b, n) && Total(cs, a, n) == Total(cs, b, n) &&
      Chosen(cs, a, n) == Chosen(cs, b, n)
  {
    if n > 0 {
      assert a[..n - 1] == a[..n][..n - 1] && b[..n - 1] == b[..n][..n - 1];
      assert a[n - 1] == a[..n][n - 1] && b[n - 1] == b[..n][n - 1];
      TakenPrefix(cs, a, b, n - 1);
    }
  }

  /** How many of the first `n` candidates belong to a document. */
  function Available(cs: seq<Hit>, n: nat, d: string): nat
    requires n <= |cs|
  {
    if n == 0 then 0 else Available(cs, n - 1, d) + if DocumentKey(cs[n - 1]) == d then 1 else 0
  }

  function Min(a: nat, b: nat): nat {
    if a < b then a else b
  }

  /** The choice on one more candidate leaves the choices before it. */
  lemma GreedyExtends(cs: seq<Hit>, n: nat, cap: nat, topK: nat)
    requires 0 < n <= |cs|
    ensures Greedy(cs, n, cap, topK)[..n - 1] == Greedy(cs, n - 1, cap, topK)[..n - 1]
    ensures Greedy(cs, n, cap, topK)[n - 1] ==
      Takes(GreedyTaken(cs, n - 1, cap, topK), DocumentKey(cs[n - 1]), cap, topK)
  {
  }

  lemma {:induction false} GreedyTakenIsTaken(cs: seq<Hit>, n: nat, cap: nat, topK: nat)
    requires n <= |cs|
    ensures Taken(cs, Greedy(cs, n, cap, topK), n) == GreedyTaken(cs, n, cap, topK)
  {
    if n > 0 {
      GreedyTakenIsTaken(cs, n - 1, cap, topK);
      GreedyExtends(cs, n, cap, topK);
      TakenPrefix(cs, Greedy(cs, n, cap, topK), Greedy(cs, n - 1, cap, topK), n - 1);
    }
  }

  /** The documents hold all there can be of them, unless the selection is full. */
  predicate TakesAll(cs: seq<Hit>, n: nat, cap: nat, topK: nat, taken: multiset<string>, d: string)
    requires n <= |cs|
  {
    && taken[d] <= Min(cap, Available(cs, n, d))
    && (|taken| < topK ==> taken[d] == Min(cap, Available(cs, n, d)))
  }

  /** As long as the greedy choice is not full, it has from every document as much as there can be. */
  lemma {:induction false} GreedyTakesAll(cs: seq<Hit>, n: nat, cap: nat, topK: nat, d: string)
    requires n <= |cs|
    ensures var taken := GreedyTaken(cs, n, cap, topK); |taken| <= topK && TakesAll(cs, n, cap, topK, taken, d)
  {
    if n > 0 {
      GreedyTakesAll(cs, n - 1, cap, topK, d);
      GreedyTakesAll(cs, n - 1, cap, topK, DocumentKey(cs[n - 1]));
      TakesAllStep(cs, n, cap, topK, GreedyTaken(cs, n - 1, cap, topK), d);
    }
  }

  lemma TakesAllStep(cs: seq<Hit>, n: nat, cap: nat, topK: nat, before: multiset<string>, d: string)
    requires 0 < n <= |cs| && |before| <= topK
    requires TakesAll(cs, n - 1, cap, topK, before, d) && TakesAll(cs, n - 1, cap, topK, before, DocumentKey(cs[n - 1]))
    ensures var key := DocumentKey(cs[n - 1]);
      var after := if Takes(before, key, cap, topK) then before + multiset{key} else before;
      |after| <= topK && TakesAll(cs, n, cap, topK, after, d)
  {
    assert |before + multiset{DocumentKey(cs[n - 1])}| == |before| + 1;
  }

  /** Any feasible choice has from every document at most as much as there can be. */
  lemma {:induction false} ChoiceTakesAtMost(cs: seq<Hit>, choice: Choice, n: nat, d: string)
    requires n <= |cs| && n <= |choice|
    ensures Taken(cs, choice, n)[d] <= Available(cs, n, d)
  {
    if n > 0 {
      ChoiceTakesAtMost(cs, choice, n - 1, d);
    }
  }

  lemma {:induction false} TakenGrows(cs: seq<Hit>, choice: Choice, n: nat, m: nat)
    requires n <= m <= |cs| && m <= |choice|
    ensures Taken(cs, choice, n) <= Taken(cs, choice, m)
  {
    if n < m {
      TakenGrows(cs, choice, n, m - 1);
    }
  }

  lemma SubsetCount(a: multiset<string>, b: multiset<string>)
    requires a <= b
    ensures |a| <= |b|
  {
    assert b == a + (b - a);
  }

  /** In every prefix the greedy choice has taken at least as many as any feasible one. */
  lemma GreedyDominates(cs: seq<Hit>, choice: Choice, n: nat, cap: nat, topK: nat)
    requires Feasible(cs, choice, cap, topK) && n <= |cs|
    ensures |Taken(cs, choice, n)| <= |Taken(cs, Greedy(cs, n, cap, topK), n)|
  {
    GreedyTakenIsTaken(cs, n, cap, topK);
    GreedyTakesAll(cs, n, cap, topK, "");
    TakenGrows(cs, choice, n, |cs|);
    var greedy := GreedyTaken(cs, n, cap, topK);
    var other, all := Taken(cs, choice, n), Taken(cs, choice, |cs|);
    SubsetCount(other, all);
    if |greedy| < topK {
      forall d ensures other[d] <= greedy[d] {
        ChoiceTakesAtMost(cs, choice, n, d);
        GreedyTakesAll(cs, n, cap, topK, d);
        assert other[d] <= all[d] <= cap;
      }
      SubsetCount(other, greedy);
    }
  }

  // ----- summation by parts --------------------------------------------------------------------------

  /** `k` times a score. */
  function Times(score: real, k: nat): real {
    if k == 0 then 0.0 else Times(score, k - 1) + score
  }

  lemma {:induction false} TimesMonotone(high: real, low: real, k: nat)
    requires high >= low >= 0.0
    ensures Times(high, k) >= Times(low, k) >= 0.0
  {
    if k > 0 {
      TimesMonotone(high, low, k - 1);
    }
  }

  /** How many more the greedy choice has taken among the first `n`. */
  function Lead(cs: seq<Hit>, choice: Choice, n: nat, cap: nat, topK: nat): int
    requires n <= |cs| && n <= |choice|
  {
    |Taken(cs, Greedy(cs, n, cap, topK), n)| - |Taken(cs, choice, n)|
  }

  function Gain(cs: seq<Hit>, choice: Choice, n: nat, cap: nat, topK: nat): real
    requires n <= |cs| && n <= |choice|
  {
    Total(cs, Greedy(cs, n, cap, topK), n) - Total(cs, choice, n)
  }

  predicate ChangesBy(score: real, lead: int, gain: real) {
    (lead == 0 && gain == 0.0) || (lead == 1 && gain == score) || (lead == -1 && gain == -score)
  }

  lemma GreedyTotals(cs: seq<Hit>, n: nat, cap: nat, topK: nat)
    requires 0 < n <= |cs|
    ensures var before, now := Greedy(cs, n - 1, cap, topK), Greedy(cs, n, cap, topK);
      && Total(cs, now, n) == Total(cs, before, n - 1) + (if now[n - 1] then cs[n - 1].score else 0.0)
      && |Taken(cs, now, n)| == |Taken(cs, before, n - 1)| + if now[n - 1] then 1 else 0
  {
    GreedyExtends(cs, n, cap, topK);
    TakenPrefix(cs, Greedy(cs, n, cap, topK), Greedy(cs, n - 1, cap, topK), n - 1);
    TakenOneMore(cs, Greedy(cs, n, cap, topK), n);
  }

  /** One more candidate changes the gain by its score, up or down, as it changes the lead. */
  lemma GainStep(cs: seq<Hit>, choice: Choice, n: nat, cap: nat, topK: nat)
    requires 0 < n <= |cs| && n <= |choice|
    ensures ChangesBy(cs[n - 1].score, Lead(cs, choice, n, cap, topK) - Lead(cs, choice, n - 1, cap, topK),
                      Gain(cs, choice, n, cap, topK) - Gain(cs, choice, n - 1, cap, topK))
  {
    GreedyTotals(cs, n, cap, topK);
    TakenOneMore(cs, choice, n);
  }

  lemma TakenOneMore(cs: seq<Hit>, choice: Choice, n: nat)
    requires 0 < n <= |cs| && n <= |choice|
    ensures |Taken(cs, choice, n)| == |Taken(cs, choice, n - 1)| + if choice[n - 1] then 1 else 0
  {
    assert |Taken(cs, choice, n - 1) + multiset{DocumentKey(cs[n - 1])}| == |Taken(cs, choice, n - 1)| + 1;
  }

  lemma LeadStep(high: real, low: real, lead: nat, lead': nat, gain: real, gain': real)
    requires high >= low >= 0.0 && gain >= Times(high, lead)
    requires ChangesBy(low, lead' - lead, gain' - gain)
    ensures gain' >= Times(low, lead')
  {
    TimesMonotone(high, low, lead);
  }

  /** Having taken more, and as early, is worth more. */
  lemma {:induction false} LeadIsWorthMore(cs: seq<Hit>, choice: Choice, n: nat, cap: nat, topK: nat)
    requires Descending(cs) && Feasible(cs, choice, cap, topK) && 0 < n <= |cs|
    ensures Lead(cs, choice, n, cap, topK) >= 0
    ensures Gain(cs, choice, n, cap, topK) >= Times(cs[n - 1].score, Lead(cs, choice, n, cap, topK))
  {
    GreedyDominates(cs, choice, n, cap, topK);
    GreedyDominates(cs, choice, n - 1, cap, topK);
    GainStep(cs, choice, n, cap, topK);
    var high := if n > 1 then cs[n - 2].score else cs[n - 1].score;
    if n > 1 {
      LeadIsWorthMore(cs, choice, n - 1, cap, topK);
    }
    LeadStep(high, cs[n - 1].score, Lead(cs, choice, n - 1, cap, topK), Lead(cs, choice, n, cap, topK),
             Gain(cs, choice, n - 1, cap, topK), Gain(cs, choice, n, cap, topK));
  }

  /** Among all feasible choices, the greedy one has the greatest total score. */
  lemma GreedyIsOptimal(cs: seq<Hit>, choice: Choice, cap: nat, topK: nat)
    requires Descending(cs) && Feasible(cs, choice, cap, topK)
    ensures Total(cs, choice, |cs|) <= Total(cs, Greedy(cs, |cs|, cap, topK), |cs|)
  {
    if cs != [] {
      LeadIsWorthMore(cs, choice, |cs|, cap, topK);
      TimesMonotone(cs[|cs| - 1].score, cs[|cs| - 1].score, Lead(cs, choice, |cs|, cap, topK));
    }
  }

  lemma GreedyIsFeasible(cs: seq<Hit>, cap: nat, topK: nat)
    ensures Feasible(cs, Greedy(cs, |cs|, cap, topK), cap, topK)
  {
    GreedyTakenIsTaken(cs, |cs|, cap, topK);
    GreedyTakesAll(cs, |cs|, cap, topK, "");
    forall d ensures Taken(cs, Greedy(cs, |cs|, cap, topK), |cs|)[d] <= cap {
      GreedyTakesAll(cs, |cs|, cap, topK, d);
    }
  }

  // ----- what the cap means for the results ------------------------------------------------------------

  predicate Hashed(h: Hit) {
    "file_hash" in h.metadata && h.metadata["file_hash"] != ""
  }

  predicate Located(h: Hit) {
    !Hashed(h) && "source_path" in h.metadata && h.metadata["source_path"] != ""
  }

  /** Results with file hashes count against one cap exactly when the hashes are the same, results without one exactly
      when they come from the same path, and results with neither never do. */
  lemma SameDocumentIff(a: Hit, b: Hit)
    ensures Hashed(a) && Hashed(b) ==>
      (DocumentKey(a) == DocumentKey(b) <==> a.metadata["file_hash"] == b.metadata["file_hash"])
    ensures Located(a) && Located(b) ==>
      (DocumentKey(a) == DocumentKey(b) <==> a.metadata["source_path"] == b.metadata["source_path"])
    ensures !Hashed(a) && !Located(a) && !Hashed(b) && !Located(b) ==>
      (DocumentKey(a) == DocumentKey(b) <==> a.id == b.id)
  {
  }

  /** How many results have this value for a key of their metadata. */
  function Having(results: seq<Hit>, key: string, value: string): nat {
    if results == [] then 0 else
    var last := results[|results| - 1];
    Having(results[..|results| - 1], key, value) +
      if key in last.metadata && last.metadata[key] == value then 1 else 0
  }

  lemma {:induction false} HavingAtMostTaken(cs: seq<Hit>, choice: Choice, n: nat, hash: string)
    requires n <= |cs| && n <= |choice| && hash != ""
    ensures Having(Chosen(cs, choice, n), "file_hash", hash) <= Taken(cs, choice, n)[hash]
  {
    if n > 0 {
      HavingAtMostTaken(cs, choice, n - 1, hash);
      var before := Chosen(cs, choice, n - 1);
      assert (before + [cs[n - 1]])[..|before|] == before && before + [] == before;
    }
  }

  /** No more than the cap of any file. */
  lemma AtMostCapOfAFile(cs: seq<Hit>, choice: Choice, cap: nat, topK: nat, hash: string)
    requires Feasible(cs, choice, cap, topK) && hash != ""
    ensures Having(Chosen(cs, choice, |cs|), "file_hash", hash) <= cap
  {
    HavingAtMostTaken(cs, choice, |cs|, hash);
    var taken := Taken(cs, choice, |cs|);
    if hash in taken {
      assert taken[hash] <= cap;
    }
  }

  lemma {:induction false} ChosenIs(cs: seq<Hit>, choice: Choice, n: nat)
    requires n <= |cs| && n <= |choice|
    ensures |Chosen(cs, choice, n)| == |Taken(cs, choice, n)|
    ensures forall h :: h in Chosen(cs, choice, n) ==> h in cs[..n]
  {
    if n > 0 {
      ChosenIs(cs, choice, n - 1);
      assert cs[..n] == cs[..n - 1] + [cs[n - 1]];
    }
  }

  lemma {:induction false} ChosenDistinct(cs: seq<Hit>, choice: Choice, n: nat)
    requires n <= |cs| && n <= |choice| && DistinctIds(cs)
    ensures DistinctIds(Chosen(cs, choice, n))
  {
    if n > 0 {
      ChosenDistinct(cs, choice, n - 1);
      ChosenIs(cs, choice, n - 1);
      forall h | h in cs[..n - 1] ensures h.id != cs[n - 1].id {
        var i :| 0 <= i < n - 1 && cs[i] == h;
      }
    }
  }
}
