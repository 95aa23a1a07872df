/** Merging refreshed evidence into what is already bound, and what a merged binding says about what is still lacking
    (src/agents/nodes/knowledge.py). */
module EvidenceMerging {
  import opened Outcomes
  import opened Ordering
  import opened Text
  import opened TaskPlanning
  import opened Validation
  import opened PlanOrder
  import opened EvidenceRegistry
  import opened Knowledge

  // ----- merging -------------------------------------------------------------------------------------------

  function Requirements(queries: seq<Query>): set<string> {
    set q | q in queries :: q.requirement
  }

  /** Queries by requirement; a later one replaces an earlier one. */
  function ByRequirement(m: map<string, Query>, queries: seq<Query>): map<string, Query> {
    if queries == [] then m else
    var last := queries[|queries| - 1];
    ByRequirement(m, queries[..|queries| - 1])[last.requirement := last]
  }

  function InOrder(m: map<string, Query>): (qs: seq<Query>)
    ensures |qs| == |m|
  {
    var keys := SortedKeys(m.Keys);
    seq(|keys|, i requires 0 <= i < |keys| => m[keys[i]])
  }

  /** A gap is dropped when any refreshed requirement occurs anywhere in its text. */
  predicate Dropped(gap: string, refreshed: set<string>) {
    exists r :: r in refreshed && Contains(gap, r)
  }

  function KeptGaps(gaps: seq<string>, refreshed: set<string>): (kept: seq<string>)
    ensures forall g :: g in kept <==> g in gaps && !Dropped(g, refreshed)
  {
    if gaps == [] then [] else
    var rest := KeptGaps(gaps[1..], refreshed);
    if Dropped(gaps[0], refreshed) then rest else [gaps[0]] + rest
  }

  /** What `_merge_bindings` makes of an old and a refreshed binding of one task. */
  function Merged(old_: Binding, new_: Binding): Binding {
    var gaps := FirstOnly(KeptGaps(old_.gaps, Requirements(new_.queries)) + new_.gaps);
    var ids := Elements(old_.evidenceIds) + Elements(new_.evidenceIds);
    Binding(new_.taskId, InOrder(ByRequirement(ByRequirement(map[], old_.queries), new_.queries)), SortedKeys(ids),
            if ids != {} && gaps != [] then Partial else if ids != {} then Supported else Unsupported, gaps)
  }

  function MergedInto(m: map<string, Binding>, b: Binding): map<string, Binding> {
    m[b.taskId := if b.taskId in m then Merged(m[b.taskId], b) else b]
  }

  function MergedMap(m: map<string, Binding>, refreshed: seq<Binding>): map<string, Binding> {
    if refreshed == [] then m else
    MergedInto(MergedMap(m, refreshed[..|refreshed| - 1]), refreshed[|refreshed| - 1])
  }

  function BindingListing(m: map<string, Binding>): (bs: seq<Binding>)
    ensures forall b :: b in bs ==> exists t :: t in m && m[t] == b
  {
    var keys := SortedKeys(m.Keys);
    var bs := seq(|keys|, i requires 0 <= i < |keys| => m[keys[i]]);
    assert forall i :: 0 <= i < |bs| ==> keys[i] in m && m[keys[i]] == bs[i];
    bs
  }

  lemma {:induction false} KeyedByTask(bindings: seq<Binding>)
    ensures forall id :: id in BindingsByTask(bindings) ==>
      BindingsByTask(bindings)[id].taskId == id && BindingsByTask(bindings)[id] in bindings
  {
    if bindings != [] {
      KeyedByTask(bindings[..|bindings| - 1]);
      assert forall b :: b in bindings[..|bindings| - 1] ==> b in bindings;
    }
  }

  /** `_merge_bindings`: raises only for a saved binding that breaks the contract itself. */
  method MergeBindings(existing: seq<Binding>, refreshed: seq<Binding>)
    returns (r: Result<seq<Binding>, CollectionError>)
    requires forall b :: b in refreshed ==> Contract(b)
    ensures r.Ok? <==> forall b :: b in existing ==> Contract(b)
    ensures r.Ok? ==> r.value == BindingListing(MergedMap(BindingsByTask(existing), refreshed))
    ensures r.Ok? ==> forall b :: b in r.value ==> Contract(b)
    ensures AllSaved(existing) && AllFresh(refreshed) && r.Ok? ==> AllSaved(r.value)
  {
    if i :| 0 <= i < |existing| && !Contract(existing[i]) {
      return Err(ContractBroken);
    }
    var merged := BindingsByTask(existing);
    SavedMeetContract(existing);
    KeyedByTask(existing);
    for i := 0 to |refreshed|
      invariant merged == MergedMap(BindingsByTask(existing), refreshed[..i])
      invariant MeetContract(merged)
      invariant AllSaved(existing) && AllFresh(refreshed) ==> SavedByTask(merged)
    {
      ghost var before := merged;
      assert refreshed[..i + 1][..i] == refreshed[..i] && refreshed[..i + 1][i] == refreshed[i];
      var new_ := refreshed[i];
      assert new_ in refreshed;
      StayInContract(merged, new_);
      if new_.taskId in merged {
        merged := merged[new_.taskId := Merged(merged[new_.taskId], new_)];
      } else {
        merged := merged[new_.taskId := new_];
      }
      assert merged == MergedInto(before, new_);
      if AllSaved(existing) && AllFresh(refreshed) {
        StaysSaved(before, new_);
      }
    }
    assert refreshed[..|refreshed|] == refreshed;
    r := Ok(BindingListing(merged));
  }

  // ----- merging keeps the evidence that is named ---------------------------------------------------------

  predicate NamesWithin(m: map<string, Binding>, ids: set<string>) {
    forall t :: t in m ==> Elements(m[t].evidenceIds) <= ids
  }

  /** Every task that was bound still is, to no less evidence. */
  predicate NothingUnbound(before: map<string, Binding>, after: map<string, Binding>) {
    forall t :: t in before ==> t in after && Elements(before[t].evidenceIds) <= Elements(after[t].evidenceIds)
  }

  lemma {:induction false} MergedNames(m: map<string, Binding>, refreshed: seq<Binding>, ids: set<string>)
    ensures NothingUnbound(m, MergedMap(m, refreshed))
    ensures NamesWithin(m, ids) && IdsKnown(refreshed, ids) ==> NamesWithin(MergedMap(m, refreshed), ids)
  {
    if refreshed != [] {
      var front, last := refreshed[..|refreshed| - 1], refreshed[|refreshed| - 1];
      assert forall b :: b in refreshed <==> b in front || b == last;
      MergedNames(m, front, ids);
      OneMergedNames(MergedMap(m, front), last, ids);
    }
  }

  lemma OneMergedNames(m: map<string, Binding>, b: Binding, ids: set<string>)
    ensures NothingUnbound(m, MergedInto(m, b))
    ensures NamesWithin(m, ids) && Elements(b.evidenceIds) <= ids ==> NamesWithin(MergedInto(m, b), ids)
  {
    if b.taskId in m {
      var old_ := m[b.taskId];
      assert Elements(Merged(old_, b).evidenceIds) == Elements(old_.evidenceIds) + Elements(b.evidenceIds);
    }
  }

  /** What merged bindings name is known when what was bound and what was refreshed is, and nothing bound is lost. */
  lemma MergeKeepsNames(existing: seq<Binding>, refreshed: seq<Binding>, known: set<string>)
    requires IdsKnown(existing, known) && IdsKnown(refreshed, known)
    ensures IdsKnown(BindingListing(MergedMap(BindingsByTask(existing), refreshed)), known)
  {
    KeyedByTask(existing);
    MergedNames(BindingsByTask(existing), refreshed, known);
  }

  predicate MeetContract(m: map<string, Binding>) {
    forall t :: t in m ==> Contract(m[t])
  }

  lemma StayInContract(m: map<string, Binding>, new_: Binding)
    requires MeetContract(m) && Contract(new_)
    ensures MeetContract(MergedInto(m, new_))
  {
    if new_.taskId in m {
      MergeMeetsContract(m[new_.taskId], new_);
    }
    var after := MergedInto(m, new_);
    assert forall t :: t in after && t != new_.taskId ==> after[t] == m[t];
  }

  lemma {:induction false} SavedMeetContract(existing: seq<Binding>)
    requires forall b :: b in existing ==> Contract(b)
    ensures MeetContract(BindingsByTask(existing))
  {
    if existing != [] {
      SavedMeetContract(existing[..|existing| - 1]);
      assert existing[|existing| - 1] in existing;
    }
  }

  lemma {:induction false} ByRequirementGrows(m: map<string, Query>, queries: seq<Query>)
    ensures m.Keys <= ByRequirement(m, queries).Keys
    ensures queries != [] ==> ByRequirement(m, queries) != map[]
  {
    if queries != [] {
      ByRequirementGrows(m, queries[..|queries| - 1]);
      assert queries[|queries| - 1].requirement in ByRequirement(m, queries);
    }
  }

  /** Merging two bindings that meet the contract gives one that does. */
  lemma MergeMeetsContract(old_: Binding, new_: Binding)
    requires Contract(old_) && Contract(new_)
    ensures Contract(Merged(old_, new_))
  {
    var queries := ByRequirement(ByRequirement(map[], old_.queries), new_.queries);
    ByRequirementGrows(ByRequirement(map[], old_.queries), new_.queries);
    assert |queries| > 0;
    var ids := Elements(old_.evidenceIds) + Elements(new_.evidenceIds);
    assert |SortedKeys(ids)| == |ids|;
    var gaps := KeptGaps(old_.gaps, Requirements(new_.queries)) + new_.gaps;
    forall g | g in FirstOnly(gaps) ensures !Blank(g) {
      assert g in gaps;
    }
    assert forall e :: e in new_.evidenceIds ==> e in ids;
    assert new_.evidenceIds != [] ==> new_.evidenceIds[0] in ids;
  }

  // ----- what is still lacking -------------------------------------------------------------------------------

  /** A requirement whose search gave no sufficient evidence, for whatever reason, and the gap that reports it. */
  datatype Lack = Lack(requirement: string, gap: string)

  function LackingOf(answers: seq<Answer>): set<Lack> {
    set a | a in answers && !Supports(a) :: Lack(a.request.requirement, GapOf(a))
  }

  function Asked(answers: seq<Answer>): set<string> {
    set a | a in answers :: a.request.requirement
  }

  /** What is lacking after another round: what was lacking and was not asked again, and what the round lacks. */
  function StillLacking(lacking: set<Lack>, news: seq<Answer>): set<Lack> {
    (set l | l in lacking && l.requirement !in Asked(news)) + LackingOf(news)
  }

  /** A binding reports everything that is lacking. */
  predicate Tracks(b: Binding, lacking: set<Lack>) {
    forall l :: l in lacking ==> l.gap in b.gaps
  }

  lemma {:induction false} LackingHasGap(answers: seq<Answer>)
    ensures forall a :: a in answers && !Supports(a) ==> GapOf(a) in Gaps(answers)
    ensures Gaps(answers) == [] ==> forall a :: a in answers ==> Supports(a)
  {
    if answers != [] {
      var front, last := answers[..|answers| - 1], answers[|answers| - 1];
      LackingHasGap(front);
      assert forall a :: a in answers <==> a in front || a == last;
    }
  }

  /** What `collect` binds reports everything that it lacks. */
  lemma LackingIsTracked(taskId: string, answers: seq<Answer>)
    ensures Tracks(Bind(taskId, answers), LackingOf(answers))
  {
    LackingHasGap(answers);
  }

  lemma NothingLacking(answers: seq<Answer>)
    ensures LackingOf(answers) == {} <==> Gaps(answers) == []
  {
    LackingHasGap(answers);
    if LackingOf(answers) == {} {
      forall a | a in answers ensures Supports(a) {
        assert Supports(a) || Lack(a.request.requirement, GapOf(a)) in LackingOf(answers);
      }
      AllSupport(answers);
    }
  }

  lemma {:induction false} AllSupport(answers: seq<Answer>)
    requires forall a :: a in answers ==> Supports(a)
    ensures Gaps(answers) == []
  {
    if answers != [] {
      assert answers[|answers| - 1] in answers;
      AllSupport(answers[..|answers| - 1]);
    }
  }

  lemma QueriesAsk(taskId: string, answers: seq<Answer>)
    ensures Requirements(Bind(taskId, answers).queries) == Asked(answers)
  {
    var queries := Queries(answers);
    forall q | q in queries ensures q.requirement in Asked(answers) {
      var i :| 0 <= i < |queries| && queries[i] == q;
      assert answers[i] in answers;
    }
    forall a | a in answers ensures a.request.requirement in Requirements(queries) {
      var i :| 0 <= i < |answers| && answers[i] == a;
      assert queries[i] in queries;
    }
  }

  /** The gaps after a merge: those of the new round, and the old ones that are not dropped. */
  lemma MergedGaps(old_: Binding, news: seq<Answer>)
    ensures forall g :: g in Merged(old_, Bind(old_.taskId, news)).gaps <==>
      g in Gaps(news) || (g in old_.gaps && !Dropped(g, Asked(news)))
  {
    QueriesAsk(old_.taskId, news);
    var new_ := Bind(old_.taskId, news);
    var kept := KeptGaps(old_.gaps, Requirements(new_.queries));
    assert forall g :: g in kept + new_.gaps <==> g in kept || g in new_.gaps;
  }

  /** A round loses no gap of what it did not ask about. */
  predicate Careful(lacking: set<Lack>, news: seq<Answer>) {
    forall l :: l in lacking && l.requirement !in Asked(news) ==> l.gap in Gaps(news) || !Dropped(l.gap, Asked(news))
  }

  /** The merged binding still reports everything that is lacking, exactly when the text of no gap that is to stay
      contains a requirement of the round, except for gaps that the round reports itself. */
  lemma MergeTracksIff(old_: Binding, lacking: set<Lack>, news: seq<Answer>)
    requires Tracks(old_, lacking)
    ensures Tracks(Merged(old_, Bind(old_.taskId, news)), StillLacking(lacking, news)) <==> Careful(lacking, news)
  {
    var merged := Merged(old_, Bind(old_.taskId, news));
    MergedGaps(old_, news);
    LackingHasGap(news);
    assert forall l :: l in LackingOf(news) ==> l.gap in merged.gaps;
    forall l | l in lacking && l.requirement !in Asked(news)
      ensures l in StillLacking(lacking, news)
      ensures l.gap in merged.gaps <==> l.gap in Gaps(news) || !Dropped(l.gap, Asked(news))
    {
    }
  }

  /** A merge says supported exactly when the new round lacks nothing and every old gap is dropped. */
  lemma SupportedIff(old_: Binding, news: seq<Answer>)
    requires news != [] && GapsSpeak(news)
    ensures Merged(old_, Bind(old_.taskId, news)).status == Supported <==>
      Gaps(news) == [] && AllDropped(old_.gaps, Asked(news))
  {
    NoGapsLeftIff(old_, news);
    if Gaps(news) == [] {
      BindMeetsContract(old_.taskId, news);
      SupportAndGaps(news);
      MergedHasEvidence(old_, Bind(old_.taskId, news));
    }
  }

  lemma NoGapsLeftIff(old_: Binding, news: seq<Answer>)
    ensures Merged(old_, Bind(old_.taskId, news)).gaps == [] <==>
      Gaps(news) == [] && AllDropped(old_.gaps, Asked(news))
  {
    var gaps := Merged(old_, Bind(old_.taskId, news)).gaps;
    MergedGaps(old_, news);
    if gaps != [] {
      assert gaps[0] in gaps;
    }
    if Gaps(news) != [] {
      assert Gaps(news)[0] in gaps;
    }
  }

  lemma MergedHasEvidence(old_: Binding, new_: Binding)
    requires new_.evidenceIds != []
    ensures Merged(old_, new_).status == Supported <==> Merged(old_, new_).gaps == []
  {
    assert new_.evidenceIds[0] in Elements(new_.evidenceIds);
  }

  /** The binding reads as supported although something is still lacking. */
  predicate Forgets(old_: Binding, lacking: set<Lack>, news: seq<Answer>) {
    Merged(old_, Bind(old_.taskId, news)).status == Supported && StillLacking(lacking, news) != {}
  }

  /** A merge forgets exactly when its round lacks nothing itself, leaves something lacking unasked, and asks for
      requirements that occur in the text of every old gap. */
  lemma ForgetsIff(old_: Binding, lacking: set<Lack>, news: seq<Answer>)
    requires news != [] && GapsSpeak(news)
    ensures Forgets(old_, lacking, news) <==>
      Gaps(news) == [] && SomeUnasked(lacking, Asked(news)) && AllDropped(old_.gaps, Asked(news))
  {
    SupportedIff(old_, news);
    NothingLacking(news);
    if SomeUnasked(lacking, Asked(news)) {
      var l :| l in lacking && l.requirement !in Asked(news);
      assert l in StillLacking(lacking, news);
    }
  }

  predicate SomeUnasked(lacking: set<Lack>, asked: set<string>) {
    exists l :: l in lacking && l.requirement !in asked
  }

  predicate AllDropped(gaps: seq<string>, asked: set<string>) {
    forall g :: g in gaps ==> Dropped(g, asked)
  }

  /** The binding does not read as supported although nothing is lacking any more. */
  predicate StaysOpen(old_: Binding, lacking: set<Lack>, news: seq<Answer>) {
    Merged(old_, Bind(old_.taskId, news)).status != Supported && StillLacking(lacking, news) == {}
  }

  /** A merge stays open exactly when its round answers everything, and some old gap contains none of what it asked. */
  lemma StaysOpenIff(old_: Binding, lacking: set<Lack>, news: seq<Answer>)
    requires news != [] && GapsSpeak(news)
    ensures StaysOpen(old_, lacking, news) <==>
      && Gaps(news) == []
      && (forall l :: l in lacking ==> l.requirement in Asked(news))
      && exists g :: g in old_.gaps && !Dropped(g, Asked(news))
  {
    SupportedIff(old_, news);
    NothingLacking(news);
    if l :| l in lacking && l.requirement !in Asked(news) {
      assert l in StillLacking(lacking, news);
    }
  }

  // ----- whole runs of collecting ------------------------------------------------------------------------------

  /** The binding of a task after rounds of collecting, and what is lacking then. */
  function BindingAfter(taskId: string, rounds: seq<seq<Answer>>): (b: Binding)
    requires rounds != []
    ensures b.taskId == taskId
  {
    var last := Bind(taskId, rounds[|rounds| - 1]);
    if |rounds| == 1 then last else Merged(BindingAfter(taskId, rounds[..|rounds| - 1]), last)
  }

  function LackingAfter(rounds: seq<seq<Answer>>): set<Lack> {
    if rounds == [] then {} else StillLacking(LackingAfter(rounds[..|rounds| - 1]), rounds[|rounds| - 1])
  }

  predicate CarefulRounds(rounds: seq<seq<Answer>>) {
    forall i :: 1 <= i < |rounds| ==> Careful(LackingAfter(rounds[..i]), rounds[i])
  }

  predicate RoundsSpeak(rounds: seq<seq<Answer>>) {
    forall i :: 0 <= i < |rounds| ==> rounds[i] != [] && GapsSpeak(rounds[i])
  }

  lemma {:induction false} RoundsTrack(taskId: string, rounds: seq<seq<Answer>>)
    requires rounds != [] && CarefulRounds(rounds) && RoundsSpeak(rounds)
    ensures Tracks(BindingAfter(taskId, rounds), LackingAfter(rounds)) && Contract(BindingAfter(taskId, rounds))
  {
    var front, last := rounds[..|rounds| - 1], rounds[|rounds| - 1];
    assert last == rounds[|rounds| - 1] && last != [] && GapsSpeak(last);
    BindMeetsContract(taskId, last);
    if |rounds| == 1 {
      LackingIsTracked(taskId, last);
      assert LackingAfter(front) == {};
    } else {
      assert forall i :: 1 <= i < |front| ==> front[..i] == rounds[..i];
      RoundsTrack(taskId, front);
      MergeTracksIff(BindingAfter(taskId, front), LackingAfter(front), last);
      MergeMeetsContract(BindingAfter(taskId, front), Bind(taskId, last));
    }
  }

  /** After any number of careful rounds, a task that reads as supported lacks nothing. */
  lemma SupportedMeansNothingLacking(taskId: string, rounds: seq<seq<Answer>>)
    requires rounds != [] && CarefulRounds(rounds) && RoundsSpeak(rounds)
    requires BindingAfter(taskId, rounds).status == Supported
    ensures LackingAfter(rounds) == {}
  {
    RoundsTrack(taskId, rounds);
    assert forall l :: l in LackingAfter(rounds) ==> l.gap in BindingAfter(taskId, rounds).gaps;
  }

  // ----- the history of a binding --------------------------------------------------------------------------------

  ghost predicate ProperRounds(rounds: seq<seq<Answer>>) {
    rounds != [] && forall i :: 0 <= i < |rounds| ==> ProperRound(rounds[i])
  }

  /** The binding came about by rounds of collecting. */
  ghost predicate HasHistory(b: Binding) {
    exists rounds :: ProperRounds(rounds) && b == BindingAfter(b.taskId, rounds)
  }

  lemma OneRoundIsHistory(b: Binding)
    requires OneRound(b)
    ensures HasHistory(b)
  {
    var news :| ProperRound(news) && b == Bind(b.taskId, news);
    FirstRound(b.taskId, news);
    IsHistory(b, [news]);
  }

  lemma FirstRound(taskId: string, news: seq<Answer>)
    requires ProperRound(news)
    ensures ProperRounds([news]) && BindingAfter(taskId, [news]) == Bind(taskId, news)
  {
  }

  lemma HistoryGrows(rounds: seq<seq<Answer>>, news: seq<Answer>, taskId: string)
    requires ProperRounds(rounds) && ProperRound(news)
    ensures ProperRounds(rounds + [news])
    ensures BindingAfter(taskId, rounds + [news]) == Merged(BindingAfter(taskId, rounds), Bind(taskId, news))
    ensures LackingAfter(rounds + [news]) == StillLacking(LackingAfter(rounds), news)
  {
    ProperGrows(rounds, news);
    AfterOneMore(rounds, news, taskId);
  }

  lemma AfterOneMore(rounds: seq<seq<Answer>>, news: seq<Answer>, taskId: string)
    requires rounds != []
    ensures BindingAfter(taskId, rounds + [news]) == Merged(BindingAfter(taskId, rounds), Bind(taskId, news))
    ensures LackingAfter(rounds + [news]) == StillLacking(LackingAfter(rounds), news)
  {
    var longer := rounds + [news];
    assert longer[..|longer| - 1] == rounds && longer[|longer| - 1] == news;
  }

  lemma ProperGrows(rounds: seq<seq<Answer>>, news: seq<Answer>)
    requires ProperRounds(rounds) && ProperRound(news)
    ensures ProperRounds(rounds + [news])
  {
    forall i | 0 <= i < |rounds + [news]| ensures ProperRound((rounds + [news])[i]) {
      if i < |rounds| {
        assert ProperRound(rounds[i]);
      }
    }
  }

  lemma IsHistory(b: Binding, rounds: seq<seq<Answer>>)
    requires ProperRounds(rounds) && b == BindingAfter(b.taskId, rounds)
    ensures HasHistory(b)
  {
  }

  /** Merging a round into a binding with a history gives one with a longer history. */
  lemma MergeExtendsHistory(old_: Binding, new_: Binding)
    requires HasHistory(old_) && OneRound(new_) && old_.taskId == new_.taskId
    ensures HasHistory(Merged(old_, new_))
  {
    var rounds :| ProperRounds(rounds) && old_ == BindingAfter(old_.taskId, rounds);
    var news :| ProperRound(news) && new_ == Bind(new_.taskId, news);
    HistoryGrows(rounds, news, old_.taskId);
    IsHistory(Merged(old_, new_), rounds + [news]);
  }

  /** A binding that rounds of collecting led to. */
  ghost predicate Saved(b: Binding) {
    HasHistory(b) && Strip(b.taskId) == b.taskId
  }

  ghost predicate AllFresh(bindings: seq<Binding>) {
    forall b :: b in bindings ==> Fresh(b)
  }

  ghost predicate AllSaved(bindings: seq<Binding>) {
    forall b :: b in bindings ==> Saved(b)
  }

  ghost predicate SavedByTask(m: map<string, Binding>) {
    forall t :: t in m ==> SavedAs(m[t], t)
  }

  ghost predicate SavedAs(b: Binding, taskId: string) {
    Saved(b) && b.taskId == taskId
  }

  lemma StaysSaved(m: map<string, Binding>, new_: Binding)
    requires SavedByTask(m) && Fresh(new_)
    ensures SavedByTask(MergedInto(m, new_))
  {
    if new_.taskId in m {
      MergedIsSaved(m[new_.taskId], new_);
      UpdateStaysSaved(m, Merged(m[new_.taskId], new_), new_.taskId);
    } else {
      OneRoundIsHistory(new_);
      UpdateStaysSaved(m, new_, new_.taskId);
    }
  }

  lemma MergedIsSaved(old_: Binding, new_: Binding)
    requires SavedAs(old_, new_.taskId) && Fresh(new_)
    ensures SavedAs(Merged(old_, new_), new_.taskId)
  {
    MergeExtendsHistory(old_, new_);
  }

  lemma UpdateStaysSaved(m: map<string, Binding>, b: Binding, taskId: string)
    requires SavedByTask(m) && SavedAs(b, taskId)
    ensures SavedByTask(m[taskId := b])
  {
    var after := m[taskId := b];
    forall t | t in after ensures SavedAs(after[t], t) {
      if t != taskId {
        assert SavedAs(m[t], t);
      }
    }
  }

  lemma {:induction false} RoundsMeetContract(taskId: string, rounds: seq<seq<Answer>>)
    requires ProperRounds(rounds)
    ensures Contract(BindingAfter(taskId, rounds))
  {
    var front, last := rounds[..|rounds| - 1], rounds[|rounds| - 1];
    assert ProperRound(last);
    BindMeetsContract(taskId, last);
    if |rounds| > 1 {
      assert forall i :: 0 <= i < |front| ==> front[i] == rounds[i];
      RoundsMeetContract(taskId, front);
      MergeMeetsContract(BindingAfter(taskId, front), Bind(taskId, last));
    }
  }

  // ----- rounds that ask what validation targets ---------------------------------------------------------------

  predicate Mentioned(gaps: seq<string>, requirement: string) {
    exists g :: g in gaps && Contains(g, requirement)
  }

  /** What is lacking was asked for once, without surrounding blanks. */
  predicate LacksWereAsked(old_: Binding, lacking: set<Lack>) {
    forall l :: l in lacking ==> l.requirement in Available(old_)
  }

  lemma {:induction false} ByRequirementKeys(m: map<string, Query>, queries: seq<Query>)
    requires forall k :: k in m ==> m[k].requirement == k
    ensures ByRequirement(m, queries).Keys == m.Keys + Requirements(queries)
    ensures forall k :: k in ByRequirement(m, queries) ==> ByRequirement(m, queries)[k].requirement == k
  {
    if queries != [] {
      var front, last := queries[..|queries| - 1], queries[|queries| - 1];
      ByRequirementKeys(m, front);
      assert forall q :: q in queries <==> q in front || q == last;
      assert Requirements(queries) == Requirements(front) + {last.requirement};
    }
  }

  lemma MergedRequirements(old_: Binding, new_: Binding)
    ensures Requirements(Merged(old_, new_).queries) == Requirements(old_.queries) + Requirements(new_.queries)
  {
    var olds := ByRequirement(map[], old_.queries);
    ByRequirementKeys(map[], old_.queries);
    ByRequirementKeys(olds, new_.queries);
    InOrderRequirements(ByRequirement(olds, new_.queries));
  }

  lemma InOrderRequirements(m: map<string, Query>)
    requires forall k :: k in m ==> m[k].requirement == k
    ensures Requirements(InOrder(m)) == m.Keys
  {
    var keys := SortedKeys(m.Keys);
    var qs := InOrder(m);
    assert forall i :: 0 <= i < |qs| ==> keys[i] in keys && qs[i].requirement == keys[i];
    forall k | k in m.Keys ensures k in Requirements(qs) {
      assert k in keys;
      var i :| 0 <= i < |keys| && keys[i] == k;
      assert qs[i] in qs;
    }
  }

  lemma {:induction false} RoundsWereAsked(taskId: string, rounds: seq<seq<Answer>>)
    requires rounds != [] && forall i :: 0 <= i < |rounds| ==> CleanRequirements(rounds[i])
    ensures forall l :: l in LackingAfter(rounds) ==>
      l.requirement in Requirements(BindingAfter(taskId, rounds).queries)
  {
    var front, last := rounds[..|rounds| - 1], rounds[|rounds| - 1];
    QueriesAsk(taskId, last);
    assert forall l :: l in LackingOf(last) ==> l.requirement in Asked(last);
    if |rounds| == 1 {
      assert LackingAfter(front) == {};
    } else {
      RoundsWereAsked(taskId, front);
      MergedRequirements(BindingAfter(taskId, front), Bind(taskId, last));
    }
  }

  lemma {:induction false} LacksAreClean(rounds: seq<seq<Answer>>)
    requires forall i :: 0 <= i < |rounds| ==> CleanRequirements(rounds[i])
    ensures forall l :: l in LackingAfter(rounds) ==> !Blank(l.requirement) && Strip(l.requirement) == l.requirement
  {
    if rounds != [] {
      LacksAreClean(rounds[..|rounds| - 1]);
      assert CleanRequirements(rounds[|rounds| - 1]);
    }
  }

  /** Over any rounds, what is lacking is something the binding was asked for. */
  lemma LacksOfRounds(taskId: string, rounds: seq<seq<Answer>>)
    requires rounds != [] && forall i :: 0 <= i < |rounds| ==> CleanRequirements(rounds[i])
    ensures LacksWereAsked(BindingAfter(taskId, rounds), LackingAfter(rounds))
  {
    RoundsWereAsked(taskId, rounds);
    LacksAreClean(rounds);
    var b := BindingAfter(taskId, rounds);
    forall l | l in LackingAfter(rounds) ensures l.requirement in Available(b) {
      var q :| q in b.queries && q.requirement == l.requirement;
      assert Strip(q.requirement) in Available(b);
    }
  }

  /** Targeting reaches everything that is lacking, exactly when every lacking requirement is mentioned by some gap,
      or no requirement is. */
  lemma TargetsCoverIff(old_: Binding, lacking: set<Lack>)
    requires LacksWereAsked(old_, lacking)
    ensures (forall l :: l in lacking ==> l.requirement in TargetOf(old_)) <==>
      || (forall l :: l in lacking ==> Mentioned(old_.gaps, l.requirement))
      || (forall r :: r in Available(old_) ==> !Mentioned(old_.gaps, r))
  {
    TargetsAre(old_);
    if r :| r in Available(old_) && Mentioned(old_.gaps, r) {
      assert forall l :: l in lacking ==> (l.requirement in TargetOf(old_) <==> Mentioned(old_.gaps, l.requirement));
    }
  }

  /** The mentioned requirements, or all of them when none is mentioned. */
  lemma TargetsAre(b: Binding)
    ensures forall r :: r in TargetOf(b) <==>
      r in Available(b) && (Mentioned(b.gaps, r) || forall q :: q in Available(b) ==> !Mentioned(b.gaps, q))
  {
    var selected := set r | r in Available(b) && Mentioned(b.gaps, r);
    assert selected == set r | r in Available(b) && exists g :: g in b.gaps && Contains(g, r);
    assert forall r :: r in Available(b) && Mentioned(b.gaps, r) ==> r in selected;
    if selected != {} {
      var r :| r in selected;
    }
  }

  /** Something lacking is named by no gap, while every gap names something. */
  predicate Forgettable(b: Binding, lacking: set<Lack>) {
    SomeUnnamed(b, lacking) && AllName(b)
  }

  predicate SomeUnnamed(b: Binding, lacking: set<Lack>) {
    exists l :: l in lacking && !Mentioned(b.gaps, l.requirement)
  }

  predicate AllName(b: Binding) {
    forall g :: g in b.gaps ==> Names(b, g)
  }

  /** A round for the targets of validation forgets exactly when it lacks nothing itself, some lacking requirement is
      mentioned by no gap, and every gap mentions some requirement. */
  lemma TargetedForgetsIff(old_: Binding, lacking: set<Lack>, news: seq<Answer>)
    requires news != [] && GapsSpeak(news) && Asked(news) == Elements(TargetOf(old_))
    requires old_.gaps != [] && LacksWereAsked(old_, lacking)
    ensures Forgets(old_, lacking, news) <==> Gaps(news) == [] && Forgettable(old_, lacking)
  {
    ForgetsIff(old_, lacking, news);
    TargetsDropAllIff(old_, Asked(news));
    if AllName(old_) {
      UnaskedIff(old_, lacking, Asked(news));
    }
  }

  lemma TargetsDropAllIff(b: Binding, asked: set<string>)
    requires asked == Elements(TargetOf(b))
    ensures AllDropped(b.gaps, asked) <==> AllName(b)
  {
    forall g | g in b.gaps ensures Dropped(g, asked) <==> Names(b, g) {
      TargetsDropIff(b, g, asked);
    }
  }

  lemma UnaskedIff(b: Binding, lacking: set<Lack>, asked: set<string>)
    requires b.gaps != [] && AllName(b) && LacksWereAsked(b, lacking) && asked == Elements(TargetOf(b))
    ensures SomeUnasked(lacking, asked) <==> SomeUnnamed(b, lacking)
  {
    assert b.gaps[0] in b.gaps;
    TargetsAreMentioned(b);
  }

  /** The gap contains a requirement the binding was queried for. */
  predicate Names(b: Binding, gap: string) {
    exists r :: r in Available(b) && Contains(gap, r)
  }

  lemma TargetsDropIff(b: Binding, gap: string, asked: set<string>)
    requires gap in b.gaps && asked == Elements(TargetOf(b))
    ensures Dropped(gap, asked) <==> Names(b, gap)
  {
    TargetsAre(b);
    if Names(b, gap) {
      var r :| r in Available(b) && Contains(gap, r);
      assert Mentioned(b.gaps, r);
      assert r in TargetOf(b);
    }
  }

  lemma TargetsAreMentioned(b: Binding)
    requires b.gaps != [] && Names(b, b.gaps[0])
    ensures forall r :: r in Available(b) ==> (r in TargetOf(b) <==> Mentioned(b.gaps, r))
  {
    TargetsAre(b);
    var r :| r in Available(b) && Contains(b.gaps[0], r);
    assert Mentioned(b.gaps, r);
  }

  /** Only a search that raised can lack something without naming it. */
  lemma OnlyRaisedIsUnnamed(rs: seq<Request>, limit: nat, search: Request -> Search, a: Answer)
    requires a in AnswersWithin(rs, limit, search) && !Supports(a)
    ensures Contains(GapOf(a), a.request.requirement) || search(a.request).Failed?
  {
    var all := AnswersWithin(rs, limit, search);
    var i :| 0 <= i < |all| && all[i] == a;
    var requirement := a.request.requirement;
    if i < |Allowed(rs, limit)| {
      assert a == Answered(Allowed(rs, limit)[i], search(Allowed(rs, limit)[i]));
      assert search(a.request).Found? ==> OccursAt(GapOf(a), requirement, |"insufficient_evidence:"|);
    } else {
      assert OccursAt(GapOf(a), requirement, |"retrieval_budget_exceeded:"|);
    }
  }

  // ----- inputs on which a round forgets -----------------------------------------------------------------------

  const PROOF := Evidence("e", map[])

  function Unanswered(requirement: string): Answer {
    Answered(Request("t", requirement, "q"), Found(false, []))
  }

  function Raised(requirement: string, kind: string): Answer {
    Answered(Request("t", requirement, "q"), Failed(kind))
  }

  function Proved(requirement: string): Answer {
    Answered(Request("t", requirement, "q"), Found(true, [PROOF]))
  }

  lemma OneProved(requirement: string)
    requires requirement != []
    ensures Gaps([Proved(requirement)]) == [] && GapsSpeak([Proved(requirement)])
    ensures Asked([Proved(requirement)]) == {requirement}
  {
    AllSupport([Proved(requirement)]);
    assert !IsSpace(GapOf(Proved(requirement))[0]);
    assert [Proved(requirement)][0] in [Proved(requirement)];
  }

  lemma TwoGaps(a: Answer, b: Answer)
    requires !Supports(a) && !Supports(b)
    ensures forall g :: g in Bind("t", [a, b]).gaps <==> g == GapOf(a) || g == GapOf(b)
    ensures LackingOf([a, b]) == {Lack(a.request.requirement, GapOf(a)), Lack(b.request.requirement, GapOf(b))}
  {
    assert [a, b][..1] == [a] && [a][..0] == [];
    assert Gaps([a]) == [GapOf(a)];
    assert Gaps([a, b]) == [GapOf(a), GapOf(b)];
    assert forall x :: x in [a, b] <==> x == a || x == b;
  }

  /** Asking for "a" again makes a task look supported while "abc" has no evidence: the gap of "abc" contains "a". */
  lemma RefreshMayForget()
    ensures var olds := [Unanswered("a"), Unanswered("abc")];
      Forgets(Bind("t", olds), LackingOf(olds), [Proved("a")])
  {
    assert Insufficient("a")[22..] == "a" && OccursAt(Insufficient("a"), "a", 22);
    assert Insufficient("abc")[22..] == "abc" && OccursAt(Insufficient("abc"), "a", 22);
    TwoForgotten(Unanswered("a"), Unanswered("abc"), "a");
  }

  /** Asking again for the first of two lacking requirements, when it occurs in both gaps. */
  lemma TwoForgotten(a: Answer, b: Answer, requirement: string)
    requires !Supports(a) && !Supports(b) && requirement != [] && b.request.requirement != requirement
    requires Contains(GapOf(a), requirement) && Contains(GapOf(b), requirement)
    ensures Forgets(Bind("t", [a, b]), LackingOf([a, b]), [Proved(requirement)])
  {
    OneProved(requirement);
    TwoGaps(a, b);
    assert Lack(b.request.requirement, GapOf(b)) in LackingOf([a, b]);
    forall g | g in Bind("t", [a, b]).gaps ensures Dropped(g, {requirement}) {
      assert requirement in {requirement} && Contains(g, requirement);
    }
    ForgetsIff(Bind("t", [a, b]), LackingOf([a, b]), [Proved(requirement)]);
  }

  /** Asking for what validation targets forgets "alpha", whose search raised: its gap names the exception only, and
      the requirement "Timeout" is part of that name. */
  lemma TargetedRefreshMayForget()
    ensures var olds := [Unanswered("Timeout"), Raised("alpha", "TimeoutError")];
      && TargetOf(Bind("t", olds)) == ["Timeout"]
      && Forgets(Bind("t", olds), LackingOf(olds), [Proved("Timeout")])
  {
    TimeoutInBoth();
    assert "alpha"[0] != "Timeout"[0];
    TwoForgotten(Unanswered("Timeout"), Raised("alpha", "TimeoutError"), "Timeout");
    OnlyTimeoutIsTargeted();
  }

  /** A search that raised and is repeated with success leaves its gap behind: the gap names only the exception. */
  lemma RaisedStaysOpen()
    ensures var olds := [Raised("alpha", "TimeoutError")];
      StaysOpen(Bind("t", olds), LackingOf(olds), [Proved("alpha")])
  {
    var a := Raised("alpha", "TimeoutError");
    var b := Bind("t", [a]);
    OneProved("alpha");
    GapsWithoutP();
    assert Gaps([a]) == [GapOf(a)];
    assert b.gaps == [GapOf(a)];
    AlphaUnmentioned(b.gaps);
    assert !Dropped(b.gaps[0], {"alpha"});
    assert forall x :: x in [a] ==> x == a;
    StaysOpenIff(b, LackingOf([a]), [Proved("alpha")]);
  }

  lemma TimeoutInBoth()
    ensures Contains(GapOf(Unanswered("Timeout")), "Timeout")
    ensures Contains(GapOf(Raised("alpha", "TimeoutError")), "Timeout")
  {
    assert Insufficient("Timeout")[22..] == "Timeout" && OccursAt(Insufficient("Timeout"), "Timeout", 22);
    var gap := GapOf(Raised("alpha", "TimeoutError"));
    assert gap[16..] == "TimeoutError" && OccursAt(gap, "Timeout", 16);
  }

  lemma OnlyTimeoutIsTargeted()
    ensures TargetOf(Bind("t", [Unanswered("Timeout"), Raised("alpha", "TimeoutError")])) == ["Timeout"]
  {
    var b := Bind("t", [Unanswered("Timeout"), Raised("alpha", "TimeoutError")]);
    TwoGaps(Unanswered("Timeout"), Raised("alpha", "TimeoutError"));
    GapsWithoutP();
    TimeoutTargeted(b);
  }

  lemma TimeoutTargeted(b: Binding)
    requires b.queries == [Query("Timeout", "q"), Query("alpha", "q")]
    requires Insufficient("Timeout") in b.gaps && forall g :: g in b.gaps ==> 'p' !in g
    ensures TargetOf(b) == ["Timeout"]
  {
    AlphaUnmentioned(b.gaps);
    TimeoutMentioned(b);
    TwoAvailable(b);
    OnlyMentioned(b, "Timeout");
  }

  lemma OnlyMentioned(b: Binding, requirement: string)
    requires requirement in Available(b) && Mentioned(b.gaps, requirement)
    requires forall r :: r in Available(b) && r != requirement ==> !Mentioned(b.gaps, r)
    ensures TargetOf(b) == [requirement]
  {
    var selected := set r | r in Available(b) && exists g :: g in b.gaps && Contains(g, r);
    assert forall r :: r in selected <==> r in Available(b) && Mentioned(b.gaps, r);
    assert selected == {requirement};
    assert SortedKeys(selected)[0] in SortedKeys(selected);
  }

  lemma GapsWithoutP()
    ensures 'p' !in GapOf(Unanswered("Timeout")) && 'p' !in GapOf(Raised("alpha", "TimeoutError"))
  {
  }

  lemma AlphaUnmentioned(gaps: seq<string>)
    requires forall g :: g in gaps ==> 'p' !in g
    ensures !Mentioned(gaps, "alpha")
  {
    forall g, i | g in gaps && 0 <= i <= |g| ensures !OccursAt(g, "alpha", i) {
      LettersOccur(g, "alpha", i, 2);
    }
  }

  lemma LettersOccur(text: string, part: string, i: nat, k: nat)
    requires i <= |text| && k < |part|
    ensures OccursAt(text, part, i) ==> part[k] in text
  {
    if OccursAt(text, part, i) {
      assert text[i..][k] == part[k];
    }
  }

  lemma TimeoutMentioned(b: Binding)
    requires Insufficient("Timeout") in b.gaps
    ensures Mentioned(b.gaps, "Timeout")
  {
    assert Insufficient("Timeout")[22..] == "Timeout" && OccursAt(Insufficient("Timeout"), "Timeout", 22);
    assert Contains(Insufficient("Timeout"), "Timeout");
  }

  lemma TwoAvailable(b: Binding)
    requires b.queries == [Query("Timeout", "q"), Query("alpha", "q")]
    ensures Available(b) == {"Timeout", "alpha"}
  {
    StripNothing("Timeout");
    StripNothing("alpha");
    assert b.queries[0] in b.queries && b.queries[1] in b.queries;
  }
}
