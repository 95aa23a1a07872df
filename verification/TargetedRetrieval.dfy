/** Rounds of collecting for the requirements that validation targets (src/agents/nodes/knowledge.py,
    src/agents/services/validation_service.py). */
module TargetedRetrieval {
  import opened Outcomes
  import opened Ordering
  import opened Text
  import opened TaskPlanning
  import opened Validation
  import opened PlanOrder
  import opened EvidenceRegistry
  import opened Knowledge
  import opened EvidenceMerging

  // ----- targeted collection ---------------------------------------------------------------------------------

  /** The tasks with targeted requirements, asking for those only. */
  function TargetedTasks(tasks: seq<Task>, requirements: map<string, seq<string>>): seq<Task> {
    if tasks == [] then [] else
    var t := tasks[0];
    (if IsTargeted(t, requirements) then [WithRequirements(t, requirements[t.taskId])] else [])
    + TargetedTasks(tasks[1..], requirements)
  }

  // ----- what a round asks -----------------------------------------------------------------------------------

  lemma {:induction false} RequirementIsAsked(scopes: seq<Scope>, queryOf: (Scope, string) -> string, s: Scope,
                                              q: string)
    returns (r: Request)
    requires s in scopes && q in s.requirements
    ensures r in Requests(scopes, queryOf) && r.taskId == s.taskId && r.requirement == q
  {
    var front, last := scopes[..|scopes| - 1], scopes[|scopes| - 1];
    if s == last {
      var i :| 0 <= i < |last.requirements| && last.requirements[i] == q;
      r := RequestsOf(last, last.requirements, queryOf)[i];
    } else {
      r := RequirementIsAsked(front, queryOf, s, q);
    }
  }

  lemma SameScope(scopes: seq<Scope>, a: Scope, b: Scope)
    requires Distinct(TaskIds(scopes)) && a in scopes && b in scopes && a.taskId == b.taskId
    ensures a == b
  {
    var i :| 0 <= i < |scopes| && scopes[i] == a;
    var j :| 0 <= j < |scopes| && scopes[j] == b;
    assert TaskIds(scopes)[i] == TaskIds(scopes)[j];
  }

  /** Whatever the order of the answers: those of a task are exactly about the requirements of its scope. */
  lemma ScopeIsAsked(scopes: seq<Scope>, rs: seq<Request>, limit: nat, queryOf: (Scope, string) -> string,
                     search: Request -> Search, answers: seq<Answer>, s: Scope)
    requires rs == Requests(scopes, queryOf) && s in scopes && Distinct(TaskIds(scopes))
    requires multiset(answers) == multiset(AnswersWithin(rs, limit, search))
    ensures Asked(OfTask(answers, s.taskId)) == Elements(s.requirements)
  {
    var expected := AnswersWithin(rs, limit, search);
    SameElements(answers, expected);
    AnswersAddressed(rs, limit, search);
    OfTaskIs(answers, s.taskId);
    forall a | a in OfTask(answers, s.taskId) ensures a.request.requirement in s.requirements {
      var i :| 0 <= i < |expected| && expected[i] == a;
      assert rs[i] in rs;
      var from := RequestComesFrom(scopes, queryOf, rs[i]);
      SameScope(scopes, from, s);
    }
    forall q | q in s.requirements ensures q in Asked(OfTask(answers, s.taskId)) {
      var r := RequirementIsAsked(scopes, queryOf, s, q);
      var i :| 0 <= i < |rs| && rs[i] == r;
      assert expected[i] in answers;
      assert expected[i] in OfTask(answers, s.taskId);
    }
  }

  // ----- the answers of one task in a collection ---------------------------------------------------------------

  /** The answers that `collect` binds to a task. */
  function RoundOf(tasks: seq<Task>, limit: nat, queryOf: (Scope, string) -> string, search: Request -> Search,
                   taskId: string): seq<Answer>
    requires Scopes(tasks).Ok?
  {
    var requests := Requests(SortedScopes(Scopes(tasks).value), queryOf);
    OfTask(SortedAnswers(AnswersWithin(requests, limit, search)), taskId)
  }

  /** What `collect` binds to a task is made of answers to exactly the requirements of the task. */
  lemma RoundAsks(tasks: seq<Task>, limit: nat, queryOf: (Scope, string) -> string, search: Request -> Search, i: nat)
    requires Scopes(tasks).Ok? && DistinctTasks(tasks) && i < |tasks|
    ensures var news := RoundOf(tasks, limit, queryOf, search, Strip(tasks[i].taskId));
      ProperRound(news) && Asked(news) == Elements(Unique(tasks[i].details.evidenceRequirements))
  {
    var scopes := SortedScopes(Scopes(tasks).value);
    var rs := Requests(scopes, queryOf);
    OrderedScopes(tasks, scopes);
    AnswersOfTask(tasks, scopes, rs, limit, queryOf, search,
                  SortedAnswers(AnswersWithin(rs, limit, search)), i);
  }

  lemma AnswersOfTask(tasks: seq<Task>, scopes: seq<Scope>, rs: seq<Request>, limit: nat,
                      queryOf: (Scope, string) -> string, search: Request -> Search, answers: seq<Answer>, i: nat)
    requires Scopes(tasks).Ok? && multiset(scopes) == multiset(Scopes(tasks).value) && i < |tasks|
    requires Distinct(TaskIds(scopes)) && rs == Requests(scopes, queryOf)
    requires forall s :: s in scopes ==> CleanScope(s)
    requires multiset(answers) == multiset(AnswersWithin(rs, limit, search))
    ensures var news := OfTask(answers, Strip(tasks[i].taskId));
      ProperRound(news) && Asked(news) == Elements(Unique(tasks[i].details.evidenceRequirements))
  {
    var s := ScopeOf(tasks, scopes, i);
    ScopeIsAsked(scopes, rs, limit, queryOf, search, answers, s);
    AnsweredInTask(scopes, rs, limit, queryOf, search, answers, s);
    AnsweredCleanly(scopes, rs, limit, queryOf, search, answers, s);
  }

  lemma ScopeOf(tasks: seq<Task>, scopes: seq<Scope>, i: nat) returns (s: Scope)
    requires Scopes(tasks).Ok? && multiset(scopes) == multiset(Scopes(tasks).value) && i < |tasks|
    ensures TaskScope(tasks[i]).Ok? && s == TaskScope(tasks[i]).value && s in scopes && CleanScope(s) && GoodScope(s)
    ensures s.taskId == Strip(tasks[i].taskId) && s.requirements == Unique(tasks[i].details.evidenceRequirements)
  {
    AllOkAt(TaskScope, tasks);
    assert TaskScope(tasks[i]) == Ok(Scopes(tasks).value[i]);
    ScopeIsGood(tasks[i]);
    s := Scopes(tasks).value[i];
    ScopesAreClean(tasks[i]);
    SameElements(scopes, Scopes(tasks).value);
  }

  /** The bindings of a collection, by task: one for every task, of the answers of its round. */
  predicate BoundByRound(tasks: seq<Task>, limit: nat, queryOf: (Scope, string) -> string, search: Request -> Search,
                         bindings: seq<Binding>)
    requires Scopes(tasks).Ok?
  {
    && (forall j :: 0 <= j < |bindings| ==>
         bindings[j] == Bind(bindings[j].taskId, RoundOf(tasks, limit, queryOf, search, bindings[j].taskId)))
    && (forall i :: 0 <= i < |tasks| ==> BindsTask(bindings, Strip(tasks[i].taskId)))
    && TasksApart(bindings)
  }

  predicate BindsTask(bindings: seq<Binding>, taskId: string) {
    exists j :: 0 <= j < |bindings| && bindings[j].taskId == taskId
  }

  lemma CollectedByRound(tasks: seq<Task>, existing: seq<Evidence>, limit: nat, queryOf: (Scope, string) -> string,
                         search: Request -> Search)
    requires DistinctTasks(tasks) && Collected(tasks, existing, limit, queryOf, search).Ok?
    ensures BoundByRound(tasks, limit, queryOf, search,
                         Collected(tasks, existing, limit, queryOf, search).value.bindings)
  {
    var scopes := SortedScopes(Scopes(tasks).value);
    var answers := SortedAnswers(AnswersWithin(Requests(scopes, queryOf), limit, search));
    OrderedScopes(tasks, scopes);
    forall i | 0 <= i < |tasks| ensures BindsTask(BindAll(scopes, answers), Strip(tasks[i].taskId)) {
      TaskIsBound(tasks, scopes, answers, i);
    }
    BoundApart(scopes, answers);
  }

  lemma TaskIsBound(tasks: seq<Task>, scopes: seq<Scope>, answers: seq<Answer>, i: nat)
    requires Scopes(tasks).Ok? && multiset(scopes) == multiset(Scopes(tasks).value) && i < |tasks|
    ensures BindsTask(BindAll(scopes, answers), Strip(tasks[i].taskId))
  {
    var s := ScopeOf(tasks, scopes, i);
    var j :| 0 <= j < |scopes| && scopes[j] == s;
    assert BindAll(scopes, answers)[j].taskId == s.taskId;
  }

  lemma BoundApart(scopes: seq<Scope>, answers: seq<Answer>)
    requires Distinct(TaskIds(scopes))
    ensures TasksApart(BindAll(scopes, answers))
  {
    var bindings := BindAll(scopes, answers);
    forall j, k | 0 <= j < k < |bindings| ensures bindings[j].taskId != bindings[k].taskId {
      assert TaskIds(scopes)[j] != TaskIds(scopes)[k];
    }
  }

  // ----- merging the bindings of a round ---------------------------------------------------------------------------

  predicate TasksApart(bindings: seq<Binding>) {
    forall j, k :: 0 <= j < k < |bindings| ==> bindings[j].taskId != bindings[k].taskId
  }

  lemma {:induction false} MergedElsewhere(m: map<string, Binding>, refreshed: seq<Binding>, id: string)
    requires forall j :: 0 <= j < |refreshed| ==> refreshed[j].taskId != id
    ensures id in MergedMap(m, refreshed) <==> id in m
    ensures id in m ==> MergedMap(m, refreshed)[id] == m[id]
  {
    if refreshed != [] {
      assert refreshed[|refreshed| - 1].taskId != id;
      MergedElsewhere(m, refreshed[..|refreshed| - 1], id);
    }
  }

  /** With one refreshed binding for a task, its old binding is merged once. */
  lemma {:induction false} MergedOnce(m: map<string, Binding>, refreshed: seq<Binding>, j: nat)
    requires TasksApart(refreshed) && j < |refreshed|
    ensures var b := refreshed[j];
      b.taskId in MergedMap(m, refreshed) &&
      MergedMap(m, refreshed)[b.taskId] == if b.taskId in m then Merged(m[b.taskId], b) else b
  {
    var front, last := refreshed[..|refreshed| - 1], refreshed[|refreshed| - 1];
    if j < |front| {
      assert front[j] == refreshed[j] && last.taskId != front[j].taskId;
      MergedOnce(m, front, j);
    } else {
      forall k | 0 <= k < |front| ensures front[k].taskId != last.taskId {
        assert refreshed[k].taskId != refreshed[j].taskId;
      }
      MergedElsewhere(m, front, last.taskId);
    }
  }

  lemma ListingHas(m: map<string, Binding>, id: string)
    requires id in m
    ensures m[id] in BindingListing(m)
  {
    var keys := SortedKeys(m.Keys);
    var i :| 0 <= i < |keys| && keys[i] == id;
    assert BindingListing(m)[i] == m[id];
  }

  // ----- a round for the targets of validation --------------------------------------------------------------------

  function WithRequirements(t: Task, requirements: seq<string>): Task {
    t.(details := t.details.(evidenceRequirements := requirements))
  }

  predicate IsTargeted(t: Task, requirements: map<string, seq<string>>) {
    t.taskId in requirements && requirements[t.taskId] != []
  }

  lemma {:induction false} TargetedFrom(tasks: seq<Task>, requirements: map<string, seq<string>>, u: Task)
    ensures u in TargetedTasks(tasks, requirements) <==>
      exists t :: t in tasks && IsTargeted(t, requirements) && u == WithRequirements(t, requirements[t.taskId])
  {
    if tasks != [] {
      TargetedFrom(tasks[1..], requirements, u);
      assert forall t :: t in tasks <==> t == tasks[0] || t in tasks[1..];
    }
  }

  /** Exactly the tasks for which something is targeted are searched for again, asking for that and nothing else. */
  lemma TargetedAre(tasks: seq<Task>, requirements: map<string, seq<string>>, u: Task)
    ensures u in TargetedTasks(tasks, requirements) <==>
      exists t :: t in tasks && t.taskId in requirements && |requirements[t.taskId]| > 0 &&
        u == t.(details := t.details.(evidenceRequirements := requirements[t.taskId]))
  {
    TargetedFrom(tasks, requirements, u);
    forall t | t in tasks
      ensures IsTargeted(t, requirements) <==> t.taskId in requirements && |requirements[t.taskId]| > 0
    {
    }
  }

  lemma RestIsApart(tasks: seq<Task>, requirements: map<string, seq<string>>, j: nat)
    requires tasks != [] && DistinctTasks(tasks) && j < |TargetedTasks(tasks[1..], requirements)|
    ensures Strip(TargetedTasks(tasks[1..], requirements)[j].taskId) != Strip(tasks[0].taskId)
  {
    var u := TargetedTasks(tasks[1..], requirements)[j];
    TargetedFrom(tasks[1..], requirements, u);
    var t :| t in tasks[1..] && IsTargeted(t, requirements) && u == WithRequirements(t, requirements[t.taskId]);
    var k :| 0 <= k < |tasks[1..]| && tasks[1..][k] == t;
    assert tasks[k + 1] == t;
  }

  lemma {:induction false} TargetedApart(tasks: seq<Task>, requirements: map<string, seq<string>>)
    requires DistinctTasks(tasks)
    ensures DistinctTasks(TargetedTasks(tasks, requirements))
  {
    if tasks != [] {
      TargetedApart(tasks[1..], requirements);
      var rest := TargetedTasks(tasks[1..], requirements);
      forall j | 0 <= j < |rest| ensures Strip(rest[j].taskId) != Strip(tasks[0].taskId) {
        RestIsApart(tasks, requirements, j);
      }
      if IsTargeted(tasks[0], requirements) {
        FirstIsApart(WithRequirements(tasks[0], requirements[tasks[0].taskId]), rest);
      } else {
        assert TargetedTasks(tasks, requirements) == [] + rest == rest;
      }
    }
  }

  lemma FirstIsApart(first: Task, rest: seq<Task>)
    requires DistinctTasks(rest) && forall j :: 0 <= j < |rest| ==> Strip(rest[j].taskId) != Strip(first.taskId)
    ensures DistinctTasks([first] + rest)
  {
  }

  lemma TargetsGiven(b: Binding)
    requires Available(b) != {}
    ensures TargetOf(b) != [] && Elements(Unique(TargetOf(b))) == Elements(TargetOf(b))
  {
    SomeTarget(b);
    var targets := TargetOf(b);
    forall i | 0 <= i < |targets| ensures Strip(targets[i]) == targets[i] {
      TargetIsAvailable(b, i);
      AvailableIsClean(b, targets[i]);
    }
    CleanListed(targets);
  }

  lemma SomeTarget(b: Binding)
    requires Available(b) != {}
    ensures TargetOf(b) != []
  {
    var r :| r in Available(b);
    TargetsAre(b);
    if q :| q in Available(b) && Mentioned(b.gaps, q) {
      assert q in TargetOf(b);
    } else {
      assert r in TargetOf(b);
    }
  }

  lemma TargetIsAvailable(b: Binding, i: nat)
    requires i < |TargetOf(b)|
    ensures TargetOf(b)[i] in Available(b)
  {
    TargetsAre(b);
    assert TargetOf(b)[i] in TargetOf(b);
  }

  lemma CleanListed(values: seq<string>)
    requires forall i :: 0 <= i < |values| ==> Strip(values[i]) == values[i]
    ensures Elements(Unique(values)) == Elements(values)
  {
    assert Stripped(values) == values;
  }

  lemma AvailableIsClean(b: Binding, r: string)
    requires r in Available(b)
    ensures Strip(r) == r
  {
    var q :| q in b.queries && !Blank(q.requirement) && r == Strip(q.requirement);
    StripNothing(r);
  }

  /** The round of a targeted task asks for exactly its targets. */
  lemma TargetedRound(tasks: seq<Task>, bindings: map<string, Binding>, limit: nat,
                      queryOf: (Scope, string) -> string, search: Request -> Search, t: Task)
    requires var requirements := Targeted(bindings);
      && DistinctTasks(tasks) && t in tasks && t.taskId in requirements
      && Scopes(TargetedTasks(tasks, requirements)).Ok?
    ensures var targeted := TargetedTasks(tasks, Targeted(bindings));
      var news := RoundOf(targeted, limit, queryOf, search, Strip(t.taskId));
      && ProperRound(news) && Asked(news) == Elements(TargetOf(bindings[t.taskId]))
      && exists i :: 0 <= i < |targeted| && targeted[i].taskId == t.taskId
  {
    var requirements := Targeted(bindings);
    var targeted := TargetedTasks(tasks, requirements);
    TargetsGiven(bindings[t.taskId]);
    var u := WithRequirements(t, requirements[t.taskId]);
    TargetedFrom(tasks, requirements, u);
    assert u in targeted;
    var i :| 0 <= i < |targeted| && targeted[i] == u;
    TargetedApart(tasks, requirements);
    RoundAsks(targeted, limit, queryOf, search, i);
  }

  /** The tasks that the targets of validation ask about again. */
  function Retargeted(tasks: seq<Task>, bindings: seq<Binding>): seq<Task> {
    TargetedTasks(tasks, Targeted(BindingsByTask(bindings)))
  }

  /** The task is targeted, and the round for the targets does not raise. */
  ghost predicate Targetable(tasks: seq<Task>, existing: seq<Evidence>, bindings: seq<Binding>, limit: nat,
                             queryOf: (Scope, string) -> string, search: Request -> Search, t: Task)
  {
    && DistinctTasks(tasks) && AllSaved(bindings) && t in tasks && t.taskId in Targeted(BindingsByTask(bindings))
    && Collected(Retargeted(tasks, bindings), existing, limit, queryOf, search).Ok?
  }

  /** The bindings after a round for the targets of validation. */
  function AfterTargeting(tasks: seq<Task>, existing: seq<Evidence>, bindings: seq<Binding>, limit: nat,
                          queryOf: (Scope, string) -> string, search: Request -> Search): map<string, Binding>
    requires Collected(Retargeted(tasks, bindings), existing, limit, queryOf, search).Ok?
  {
    MergedMap(BindingsByTask(bindings),
              Collected(Retargeted(tasks, bindings), existing, limit, queryOf, search).value.bindings)
  }

  /** What a round for the targets of validation binds to a targeted task: its old binding merged with answers to
      exactly its targets. */
  lemma TargetedBinding(tasks: seq<Task>, existing: seq<Evidence>, bindings: seq<Binding>, limit: nat,
                        queryOf: (Scope, string) -> string, search: Request -> Search, t: Task)
    requires Targetable(tasks, existing, bindings, limit, queryOf, search, t)
    ensures var old_ := BindingsByTask(bindings)[t.taskId];
      var news := RoundOf(Retargeted(tasks, bindings), limit, queryOf, search, t.taskId);
      var after := AfterTargeting(tasks, existing, bindings, limit, queryOf, search);
      && ProperRound(news) && Asked(news) == Elements(TargetOf(old_))
      && t.taskId in after && after[t.taskId] == Merged(old_, Bind(t.taskId, news))
  {
    var all := BindingsByTask(bindings);
    var targeted := Retargeted(tasks, bindings);
    KeyedByTask(bindings);
    assert Saved(all[t.taskId]);
    TargetedRound(tasks, all, limit, queryOf, search, t);
    TargetedApart(tasks, Targeted(all));
    CollectedByRound(targeted, existing, limit, queryOf, search);
    var refreshed := Collected(targeted, existing, limit, queryOf, search).value.bindings;
    var i :| 0 <= i < |targeted| && targeted[i].taskId == t.taskId;
    assert BindsTask(refreshed, Strip(targeted[i].taskId));
    RoundMerged(all, targeted, limit, queryOf, search, refreshed, t.taskId);
  }

  lemma RoundMerged(all: map<string, Binding>, targeted: seq<Task>, limit: nat, queryOf: (Scope, string) -> string,
                    search: Request -> Search, refreshed: seq<Binding>, id: string)
    requires Scopes(targeted).Ok? && BoundByRound(targeted, limit, queryOf, search, refreshed)
    requires BindsTask(refreshed, id) && id in all
    ensures var after := MergedMap(all, refreshed);
      id in after && after[id] == Merged(all[id], Bind(id, RoundOf(targeted, limit, queryOf, search, id)))
  {
    var j :| 0 <= j < |refreshed| && refreshed[j].taskId == id;
    MergedOnce(all, refreshed, j);
  }

  /** The binding reads as supported although something is lacking. */
  predicate Forgotten(b: Binding, lacking: set<Lack>) {
    b.status == Supported && lacking != {}
  }

  /** A round of the workflow extends the history of every task it targets, and forgets exactly under the conditions
      of `TargetedForgetsIff`. */
  lemma TargetingForgetsIff(tasks: seq<Task>, existing: seq<Evidence>, bindings: seq<Binding>, limit: nat,
                            queryOf: (Scope, string) -> string, search: Request -> Search, t: Task,
                            rounds: seq<seq<Answer>>)
    requires Targetable(tasks, existing, bindings, limit, queryOf, search, t)
    requires ProperRounds(rounds) && BindingsByTask(bindings)[t.taskId] == BindingAfter(t.taskId, rounds)
    ensures var old_ := BindingsByTask(bindings)[t.taskId];
      var after := AfterTargeting(tasks, existing, bindings, limit, queryOf, search);
      var news := RoundOf(Retargeted(tasks, bindings), limit, queryOf, search, t.taskId);
      && ProperRounds(rounds + [news])
      && t.taskId in after && after[t.taskId] == BindingAfter(t.taskId, rounds + [news])
      && (Forgotten(after[t.taskId], LackingAfter(rounds + [news])) <==>
           Gaps(news) == [] && Forgettable(old_, LackingAfter(rounds)))
  {
    var old_ := BindingsByTask(bindings)[t.taskId];
    var news := RoundOf(Retargeted(tasks, bindings), limit, queryOf, search, t.taskId);
    TargetedBinding(tasks, existing, bindings, limit, queryOf, search, t);
    HistoryGrows(rounds, news, t.taskId);
    LacksOfProperRounds(t.taskId, rounds);
    RoundsMeetContract(t.taskId, rounds);
    TargetedForgetsIff(old_, LackingAfter(rounds), news);
  }

  lemma LacksOfProperRounds(taskId: string, rounds: seq<seq<Answer>>)
    requires ProperRounds(rounds)
    ensures LacksWereAsked(BindingAfter(taskId, rounds), LackingAfter(rounds))
  {
    assert forall i :: 0 <= i < |rounds| ==> ProperRound(rounds[i]);
    LacksOfRounds(taskId, rounds);
  }

  /** The task is bound to its old binding merged with answers to exactly its targets. */
  ghost predicate MergesTargets(tasks: seq<Task>, bindings: seq<Binding>, limit: nat,
                                queryOf: (Scope, string) -> string, search: Request -> Search, t: Task,
                                after: seq<Binding>)
    requires t.taskId in BindingsByTask(bindings)
  {
    var old_ := BindingsByTask(bindings)[t.taskId];
    && Scopes(Retargeted(tasks, bindings)).Ok?
    && var news := RoundOf(Retargeted(tasks, bindings), limit, queryOf, search, t.taskId);
       ProperRound(news) && Asked(news) == Elements(TargetOf(old_)) && Merged(old_, Bind(t.taskId, news)) in after
  }

  /** The binding of the same task, with at least this evidence. */
  predicate Keeps(old_: Binding, b: Binding) {
    b.taskId == old_.taskId && Elements(old_.evidenceIds) <= Elements(b.evidenceIds)
  }

  ghost predicate IsKept(old_: Binding, after: seq<Binding>) {
    exists b :: b in after && Keeps(old_, b)
  }

  /** Every saved binding is there, with at least the evidence it named. */
  ghost predicate NothingForgotten(before: seq<Binding>, after: seq<Binding>) {
    forall t :: t in BindingsByTask(before) ==> IsKept(BindingsByTask(before)[t], after)
  }

  lemma NamesAreKept(bindings: seq<Binding>, refreshed: seq<Binding>, existing: seq<Evidence>, evidence: seq<Evidence>)
    requires IdsKnown(refreshed, EvidenceIds(evidence))
    requires forall e :: e in existing ==> e.id in EvidenceIds(evidence)
    ensures NothingForgotten(bindings, BindingListing(MergedMap(BindingsByTask(bindings), refreshed)))
    ensures IdsKnown(bindings, EvidenceIds(existing)) ==>
      IdsKnown(BindingListing(MergedMap(BindingsByTask(bindings), refreshed)), EvidenceIds(evidence))
  {
    var before := BindingsByTask(bindings);
    var m := MergedMap(before, refreshed);
    MergedNames(before, refreshed, {});
    MergedKeyed(bindings, refreshed);
    KeyedByTask(bindings);
    forall t | t in before ensures IsKept(before[t], BindingListing(m)) {
      ListingHas(m, t);
      assert Keeps(before[t], m[t]);
    }
    if IdsKnown(bindings, EvidenceIds(existing)) {
      assert EvidenceIds(existing) <= EvidenceIds(evidence);
      MergeKeepsNames(bindings, refreshed, EvidenceIds(evidence));
    }
  }

  lemma {:induction false} MergedKeyed(bindings: seq<Binding>, refreshed: seq<Binding>)
    ensures KeyedBindings(MergedMap(BindingsByTask(bindings), refreshed))
  {
    KeyedByTask(bindings);
    if refreshed != [] {
      MergedKeyed(bindings, refreshed[..|refreshed| - 1]);
    }
  }

  predicate KeyedBindings(m: map<string, Binding>) {
    forall t :: t in m ==> m[t].taskId == t
  }

  /** `collect_targeted`. */
  method CollectTargeted(tasks: seq<Task>, existing: seq<Evidence>, bindings: seq<Binding>,
                         requirements: map<string, seq<string>>, limit: nat, queryOf: (Scope, string) -> string,
                         search: Request -> Search)
    returns (r: Result<Collection, CollectionError>)
    ensures r.Ok? ==> forall b :: b in r.value.bindings ==> Contract(b)
    ensures AllSaved(bindings) && r.Ok? ==> AllSaved(r.value.bindings)
    ensures r.Ok? ==> Scopes(TargetedTasks(tasks, requirements)).Ok?
    ensures r.Ok? ==>
      Accounted(r.value.evidence, existing,
                RequestsMade(Scopes(TargetedTasks(tasks, requirements)).value, limit, queryOf), search)
    ensures r.Ok? && IdsKnown(bindings, EvidenceIds(existing)) ==>
      IdsKnown(r.value.bindings, EvidenceIds(r.value.evidence))
    ensures r.Ok? ==> NothingForgotten(bindings, r.value.bindings)
    ensures
      r.Ok? && AllSaved(bindings) && DistinctTasks(tasks) && requirements == Targeted(BindingsByTask(bindings)) ==>
      forall t :: t in tasks && t.taskId in requirements ==>
        MergesTargets(tasks, bindings, limit, queryOf, search, t, r.value.bindings)
    ensures DistinctTasks(TargetedTasks(tasks, requirements)) && r.Ok? ==>
      var refreshed := Collected(TargetedTasks(tasks, requirements), existing, limit, queryOf, search);
      && refreshed.Ok? && r.value.evidence == refreshed.value.evidence && r.value.calls == refreshed.value.calls
      && r.value.bindings == BindingListing(MergedMap(BindingsByTask(bindings), refreshed.value.bindings))
  {
    var refreshed := Collect(TargetedTasks(tasks, requirements), existing, limit, queryOf, search);
    if refreshed.Err? {
      return refreshed;
    }
    var merged := MergeBindings(bindings, refreshed.value.bindings);
    if merged.Err? {
      return Err(merged.error);
    }
    r := Ok(Collection(refreshed.value.evidence, merged.value, refreshed.value.calls));
    NamesAreKept(bindings, refreshed.value.bindings, existing, r.value.evidence);
    if AllSaved(bindings) && DistinctTasks(tasks) && requirements == Targeted(BindingsByTask(bindings)) {
      TargetedApart(tasks, requirements);
      forall t | t in tasks && t.taskId in requirements
        ensures MergesTargets(tasks, bindings, limit, queryOf, search, t, merged.value)
      {
        TargetedBinding(tasks, existing, bindings, limit, queryOf, search, t);
        ListingHas(AfterTargeting(tasks, existing, bindings, limit, queryOf, search), t.taskId);
      }
    }
  }

  // ----- the workflow forgets ---------------------------------------------------------------------------------------

  lemma RoundSupports(rs: seq<Request>, limit: nat, search: Request -> Search, taskId: string)
    requires |rs| <= limit && forall r: Request :: Supports(Answered(r, search(r)))
    ensures Gaps(OfTask(SortedAnswers(AnswersWithin(rs, limit, search)), taskId)) == []
  {
    var expected := AnswersWithin(rs, limit, search);
    var answers := SortedAnswers(expected);
    SameElements(answers, expected);
    OfTaskIs(answers, taskId);
    forall a | a in OfTask(answers, taskId) ensures Supports(a) {
      var i :| 0 <= i < |expected| && expected[i] == a;
      assert a == Answered(rs[i], search(rs[i]));
    }
    AllSupport(OfTask(answers, taskId));
  }

  lemma OneRequest(t: Task, queryOf: (Scope, string) -> string, requirement: string)
    requires TaskScope(t).Ok? && t.details.evidenceRequirements == [requirement]
    ensures |Requests(SortedScopes([TaskScope(t).value]), queryOf)| == 1
  {
    var s := TaskScope(t).value;
    var sorted := SortedScopes([s]);
    assert |multiset(sorted)| == |sorted|;
    assert s in multiset([s]);
    assert s in multiset(sorted);
    assert sorted == [s] && sorted[..0] == [];
    OneUnique(requirement);
    assert Requests(sorted, queryOf) == Requests([], queryOf) + RequestsOf(s, s.requirements, queryOf);
  }

  lemma OneUnique(requirement: string)
    ensures Unique([requirement]) == [Strip(requirement)]
  {
    assert Stripped([requirement]) == [Strip(requirement)];
    assert [Strip(requirement)][..0] == [] && FirstOnly([]) == [];
  }

  lemma OneByTask(b: Binding)
    ensures BindingsByTask([b]) == map[b.taskId := b]
  {
    assert [b][..0] == [] && BindingsByTask([]) == map[];
  }

  lemma OneTargeted(b: Binding)
    requires b.status != Supported && Available(b) != {}
    ensures Targeted(map[b.taskId := b]) == map[b.taskId := TargetOf(b)]
  {
  }

  lemma TargetsOneTask(task: Task, requirements: seq<string>)
    requires requirements != []
    ensures TargetedTasks([task], map[task.taskId := requirements]) == [WithRequirements(task, requirements)]
  {
    assert [task][1..] == [] && TargetedTasks([], map[task.taskId := requirements]) == [];
  }

  lemma OneScope(u: Task)
    requires TaskScope(u).Ok?
    ensures Scopes([u]) == Ok([TaskScope(u).value])
  {
    var tasks := [u];
    var front: seq<Task> := [];
    assert tasks[..|tasks| - 1] == front && tasks[|tasks| - 1] == u;
    assert Scopes(front) == Ok([]);
    var none: seq<Scope> := [];
    assert none + [TaskScope(u).value] == [TaskScope(u).value];
  }

  lemma RoundOfOne(u: Task, limit: nat, queryOf: (Scope, string) -> string, search: Request -> Search, q: string)
    requires TaskScope(u).Ok? && Scopes([u]) == Ok([TaskScope(u).value]) && limit > 0
    requires u.details.evidenceRequirements == [q] && forall r: Request :: Supports(Answered(r, search(r)))
    ensures Gaps(RoundOf([u], limit, queryOf, search, u.taskId)) == []
  {
    OneRequest(u, queryOf, q);
    RoundSupports(Requests(SortedScopes([TaskScope(u).value]), queryOf), limit, search, u.taskId);
  }

  lemma CollectedOk(tasks: seq<Task>, existing: seq<Evidence>, limit: nat, queryOf: (Scope, string) -> string,
                    search: Request -> Search)
    requires Scopes(tasks).Ok? && Scopes(tasks).value != []
    ensures Collected(tasks, existing, limit, queryOf, search).Ok?
  {
  }

  lemma OnlyTaskIsTargeted(task: Task, b: Binding)
    requires b.taskId == task.taskId && b.status != Supported && Available(b) != {} && TargetOf(b) != []
    ensures Retargeted([task], [b]) == [WithRequirements(task, TargetOf(b))]
    ensures BindingsByTask([b]) == map[b.taskId := b] && b.taskId in Targeted(BindingsByTask([b]))
  {
    OneByTask(b);
    OneTargeted(b);
    TargetsOneTask(task, TargetOf(b));
  }

  lemma OneIsTargetable(task: Task, existing: seq<Evidence>, limit: nat, queryOf: (Scope, string) -> string,
                        search: Request -> Search, b: Binding, u: Task)
    requires b.taskId == task.taskId && b.status != Supported && Available(b) != {} && TargetOf(b) != [] && Saved(b)
    requires u == WithRequirements(task, TargetOf(b)) && TaskScope(u).Ok?
    ensures Targetable([task], existing, [b], limit, queryOf, search, task)
    ensures Retargeted([task], [b]) == [u] && BindingsByTask([b]) == map[b.taskId := b]
  {
    OnlyTaskIsTargeted(task, b);
    OneScope(u);
    CollectedOk([u], existing, limit, queryOf, search);
    OnlyOnes(task, b);
  }

  lemma OnlyOnes(task: Task, b: Binding)
    requires Saved(b)
    ensures DistinctTasks([task]) && task in [task] && AllSaved([b])
  {
  }

  /** A saved binding of one round, with one target and something that is not named. */
  ghost predicate IsForgetful(b: Binding, olds: seq<Answer>) {
    && b == Bind(b.taskId, olds) && ProperRounds([olds]) && Saved(b)
    && b.status != Supported && Available(b) != {} && |TargetOf(b)| == 1
    && Forgettable(b, LackingAfter([olds]))
  }

  /** One task whose one target is found: its binding forgets what no gap names. */
  lemma OneTaskForgets(task: Task, olds: seq<Answer>, existing: seq<Evidence>, limit: nat,
                       queryOf: (Scope, string) -> string, search: Request -> Search, b: Binding, u: Task)
    requires b.taskId == task.taskId && IsForgetful(b, olds)
    requires u == WithRequirements(task, TargetOf(b)) && TaskScope(u).Ok? && limit > 0
    requires forall r: Request :: Supports(Answered(r, search(r)))
    ensures Targetable([task], existing, [b], limit, queryOf, search, task) && Retargeted([task], [b]) == [u]
    ensures Scopes([u]).Ok?
    ensures var after := AfterTargeting([task], existing, [b], limit, queryOf, search);
      var news := RoundOf([u], limit, queryOf, search, task.taskId);
      task.taskId in after && Forgotten(after[task.taskId], LackingAfter([olds] + [news]))
  {
    OneIsTargetable(task, existing, limit, queryOf, search, b, u);
    OneScope(u);
    SingleTarget(TargetOf(b));
    RoundOfOne(u, limit, queryOf, search, TargetOf(b)[0]);
    TargetingForgetsIff([task], existing, [b], limit, queryOf, search, task, [olds]);
  }

  lemma SingleTarget(targets: seq<string>)
    requires |targets| == 1
    ensures targets == [targets[0]]
  {
  }

  const TIMED_OUT := [Unanswered("Timeout"), Raised("alpha", "TimeoutError")]

  function AlwaysProved(): Request -> Search {
    (r: Request) => Found(true, [PROOF])
  }

  lemma AlwaysSupports()
    ensures forall r: Request :: Supports(Answered(r, AlwaysProved()(r)))
  {
  }

  lemma TimedOutIsProper()
    ensures ProperRound(TIMED_OUT)
  {
    StripNothing("Timeout");
    StripNothing("alpha");
    assert !IsSpace(GapOf(TIMED_OUT[0])[0]) && !IsSpace(GapOf(TIMED_OUT[1])[0]);
  }

  lemma ProperIsSaved(taskId: string, olds: seq<Answer>)
    requires ProperRound(olds) && Strip(taskId) == taskId
    ensures ProperRounds([olds]) && Saved(Bind(taskId, olds)) && Contract(Bind(taskId, olds))
  {
    FirstRound(taskId, olds);
    IsHistory(Bind(taskId, olds), [olds]);
    BindMeetsContract(taskId, olds);
  }

  lemma TimedOutIsForgettable(b: Binding)
    requires b == Bind("t", TIMED_OUT)
    ensures b.gaps != [] && Available(b) != {}
    ensures Forgettable(b, LackingAfter([TIMED_OUT]))
  {
    TwoGaps(TIMED_OUT[0], TIMED_OUT[1]);
    TimedOutAvailable();
    AlphaIsLacking();
    TimedOutWithoutP(b);
    AlphaUnmentioned(b.gaps);
    TimedOutNames(b);
  }

  lemma TimedOutAvailable()
    ensures Available(Bind("t", TIMED_OUT)) == {"Timeout", "alpha"}
  {
    TwoAvailable(Bind("t", TIMED_OUT));
  }

  lemma TimedOutNames(b: Binding)
    requires forall g :: g in b.gaps ==> g == GapOf(TIMED_OUT[0]) || g == GapOf(TIMED_OUT[1])
    requires "Timeout" in Available(b)
    ensures AllName(b)
  {
    TimeoutInBoth();
  }

  lemma TimedOutWithoutP(b: Binding)
    requires forall g :: g in b.gaps ==> g == GapOf(TIMED_OUT[0]) || g == GapOf(TIMED_OUT[1])
    ensures forall g :: g in b.gaps ==> 'p' !in g
  {
    GapsWithoutP();
    assert 'p' !in GapOf(TIMED_OUT[0]) && 'p' !in GapOf(TIMED_OUT[1]);
  }

  lemma AlphaIsLacking()
    ensures Lack("alpha", GapOf(TIMED_OUT[1])) in LackingAfter([TIMED_OUT])
  {
    TwoGaps(TIMED_OUT[0], TIMED_OUT[1]);
    LackingOfOne(TIMED_OUT);
  }

  lemma LackingOfOne(news: seq<Answer>)
    ensures LackingAfter([news]) == LackingOf(news)
  {
    assert [news][..0] == [] && LackingAfter([]) == {};
  }

  lemma TimedOutIsForgetful()
    ensures IsForgetful(Bind("t", TIMED_OUT), TIMED_OUT)
  {
    StripNothing("t");
    TimedOutIsProper();
    ProperIsSaved("t", TIMED_OUT);
    OnlyTimeoutIsTargeted();
    TimedOutIsForgettable(Bind("t", TIMED_OUT));
  }

  lemma TimeoutScope(u: Task)
    requires u.taskId == "t" && !Blank(u.title) && !Blank(u.area) && !Blank(u.goal)
    requires u.details.evidenceRequirements == ["Timeout"]
    ensures TaskScope(u).Ok?
  {
    StripNothing("t");
    StripNothing("Timeout");
  }

  /** A task "t" whose search for "Timeout" found nothing and whose search for "alpha" raised a timeout: validation
      targets "Timeout" only, and once that is found the task reads as supported. */
  lemma WorkflowForgets(task: Task, existing: seq<Evidence>, limit: nat, queryOf: (Scope, string) -> string)
    requires task.taskId == "t" && !Blank(task.title) && !Blank(task.area) && !Blank(task.goal) && limit > 0
    ensures var bindings, u := [Bind("t", TIMED_OUT)], WithRequirements(task, ["Timeout"]);
      && Targetable([task], existing, bindings, limit, queryOf, AlwaysProved(), task)
      && Retargeted([task], bindings) == [u] && Scopes([u]).Ok?
      && var after := AfterTargeting([task], existing, bindings, limit, queryOf, AlwaysProved());
         var news := RoundOf([u], limit, queryOf, AlwaysProved(), "t");
         "t" in after && Forgotten(after["t"], LackingAfter([TIMED_OUT] + [news]))
  {
    var b, u := Bind("t", TIMED_OUT), WithRequirements(task, ["Timeout"]);
    TimedOutIsForgetful();
    OnlyTimeoutIsTargeted();
    TimeoutScope(u);
    AlwaysSupports();
    OneTaskForgets(task, TIMED_OUT, existing, limit, queryOf, AlwaysProved(), b, u);
  }
}
