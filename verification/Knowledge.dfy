/** Collecting evidence for tasks with concurrent searches (src/agents/nodes/knowledge.py). */
module Knowledge {
  import opened Outcomes
  import opened Ordering
  import opened Text
  import opened TaskPlanning
  import opened Validation
  import opened PlanOrder
  import opened EvidenceRegistry

  datatype Scope = Scope(taskId: string, title: string, area: string, goal: string, requirements: seq<string>)
  datatype Request = Request(taskId: string, requirement: string, query: string)

  /** What the search adapter does with a request: raise, or return. */
  datatype Search = Failed(kind: string) | Found(sufficient: bool, evidence: seq<Evidence>)

  /** `_RequestResult`; without a search the request failed or was never made. */
  datatype Answer = Answer(request: Request, search: Option<Search>, gap: Option<string>)

  datatype Collection = Collection(evidence: seq<Evidence>, bindings: seq<Binding>, calls: nat)
  datatype CollectionError = EmptyField | NoRequirements | NoTasksToSearch | ContractBroken

  // ----- the contract ----------------------------------------------------------------------------------

  /** `TaskEvidenceBinding.__post_init__`. */
  predicate Contract(b: Binding) {
    && b.queries != []
    && (forall g :: g in b.gaps ==> !Blank(g))
    && match b.status
       case Supported => b.evidenceIds != [] && b.gaps == []
       case Partial => b.evidenceIds != [] && b.gaps != []
       case Unsupported => b.evidenceIds == [] && b.gaps != []
       case EnvironmentVerified => false
  }

  // ----- requests --------------------------------------------------------------------------------------

  /** `_task_scope`. */
  function TaskScope(t: Task): Result<Scope, CollectionError> {
    if Blank(t.taskId) || Blank(t.title) || Blank(t.area) || Blank(t.goal) then Err(EmptyField)
    else if t.details.evidenceRequirements == [] then Err(NoRequirements)
    else if exists r :: r in t.details.evidenceRequirements && Blank(r) then Err(EmptyField)
    else Ok(Scope(Strip(t.taskId), Strip(t.title), Strip(t.area), Strip(t.goal),
                  Unique(t.details.evidenceRequirements)))
  }

  /** The values of a function that may raise, in order, or the first exception. */
  function AllOk<A, B, E>(f: A -> Result<B, E>, xs: seq<A>): Result<seq<B>, E> {
    if xs == [] then Ok([]) else
    var front := AllOk(f, xs[..|xs| - 1]);
    if front.Err? then front else
    var last := f(xs[|xs| - 1]);
    if last.Err? then Err(last.error) else Ok(front.value + [last.value])
  }

  lemma {:induction false} AllOkAt<A, B, E>(f: A -> Result<B, E>, xs: seq<A>)
    requires AllOk(f, xs).Ok?
    ensures |AllOk(f, xs).value| == |xs|
    ensures forall i :: 0 <= i < |xs| ==> f(xs[i]) == Ok(AllOk(f, xs).value[i])
  {
    if xs != [] {
      AllOkAt(f, xs[..|xs| - 1]);
    }
  }

  function Scopes(tasks: seq<Task>): Result<seq<Scope>, CollectionError> {
    AllOk(TaskScope, tasks)
  }

  predicate ByTask(a: Scope, b: Scope) {
    StrLeq(a.taskId, b.taskId)
  }

  /** The requests of the scopes, in order; `queryOf` writes the text of a query for the confirmed context. */
  function Requests(scopes: seq<Scope>, queryOf: (Scope, string) -> string): seq<Request> {
    if scopes == [] then [] else
    var last := scopes[|scopes| - 1];
    Requests(scopes[..|scopes| - 1], queryOf) + RequestsOf(last, last.requirements, queryOf)
  }

  function RequestsOf(scope: Scope, requirements: seq<string>, queryOf: (Scope, string) -> string): (rs: seq<Request>)
    ensures |rs| == |requirements|
    ensures forall i :: 0 <= i < |rs| ==> rs[i].taskId == scope.taskId && rs[i].requirement == requirements[i]
  {
    seq(|requirements|, i requires 0 <= i < |requirements| =>
      Request(scope.taskId, requirements[i], queryOf(scope, requirements[i])))
  }

  // ----- answers ---------------------------------------------------------------------------------------

  function Insufficient(requirement: string): string {
    "insufficient_evidence:" + requirement
  }

  /** What `_execute` makes of one finished search. */
  function Answered(r: Request, s: Search): Answer {
    match s
    case Failed(kind) => Answer(r, None, Some("retrieval_error:" + kind))
    case Found(sufficient, _) => Answer(r, Some(s), if sufficient then None else Some(Insufficient(r.requirement)))
  }

  function Skipped(r: Request): Answer {
    Answer(r, None, Some("retrieval_budget_exceeded:" + r.requirement))
  }

  function AnswersTo(rs: seq<Request>, search: Request -> Search): (answers: seq<Answer>)
    ensures |answers| == |rs| && forall i :: 0 <= i < |rs| ==> answers[i] == Answered(rs[i], search(rs[i]))
  {
    seq(|rs|, i requires 0 <= i < |rs| => Answered(rs[i], search(rs[i])))
  }

  function SkippedAll(rs: seq<Request>): (answers: seq<Answer>)
    ensures |answers| == |rs| && forall i :: 0 <= i < |rs| ==> answers[i] == Skipped(rs[i])
  {
    seq(|rs|, i requires 0 <= i < |rs| => Skipped(rs[i]))
  }

  /** The sort key `(task_id, requirement)`. */
  predicate ByRequest(a: Answer, b: Answer) {
    StrLess(a.request.taskId, b.request.taskId) ||
    (a.request.taskId == b.request.taskId && StrLeq(a.request.requirement, b.request.requirement))
  }

  lemma ByRequestIsPreorder()
    ensures Preorder(ByRequest)
    ensures forall a, b :: ByRequest(a, b) && ByRequest(b, a) ==>
      a.request.taskId == b.request.taskId && a.request.requirement == b.request.requirement
  {
    StrLeqIsOrder();
    forall a: Answer, b: Answer, c: Answer
      ensures ByRequest(a, b) || ByRequest(b, a)
      ensures ByRequest(a, b) && ByRequest(b, c) ==> ByRequest(a, c)
      ensures ByRequest(a, b) && ByRequest(b, a) ==>
        a.request.taskId == b.request.taskId && a.request.requirement == b.request.requirement
    {
      StrTotal(a.request.taskId, b.request.taskId);
      if StrLess(a.request.taskId, b.request.taskId) && StrLess(b.request.taskId, c.request.taskId) {
        StrTransitive(a.request.taskId, b.request.taskId, c.request.taskId);
      }
    }
  }

  // ----- bindings --------------------------------------------------------------------------------------

  predicate Supports(a: Answer) {
    a.search.Some? && a.search.value.Found? && a.search.value.sufficient && a.search.value.evidence != []
  }

  function OfTask(answers: seq<Answer>, taskId: string): seq<Answer> {
    if answers == [] then [] else
    var last := answers[|answers| - 1];
    OfTask(answers[..|answers| - 1], taskId) + if last.request.taskId == taskId then [last] else []
  }

  function Queries(answers: seq<Answer>): (qs: seq<Query>)
    ensures |qs| == |answers|
  {
    seq(|answers|, i requires 0 <= i < |answers| => Query(answers[i].request.requirement, answers[i].request.query))
  }

  function Supporting(answers: seq<Answer>): nat {
    if answers == [] then 0 else
    Supporting(answers[..|answers| - 1]) + if Supports(answers[|answers| - 1]) then 1 else 0
  }

  function FoundIds(answers: seq<Answer>): set<string> {
    if answers == [] then {} else
    var last := answers[|answers| - 1];
    FoundIds(answers[..|answers| - 1]) + if Supports(last) then EvidenceIds(last.search.value.evidence) else {}
  }

  function GapOf(a: Answer): string {
    if a.gap.Some? then a.gap.value else Insufficient(a.request.requirement)
  }

  function Gaps(answers: seq<Answer>): seq<string> {
    if answers == [] then [] else
    var last := answers[|answers| - 1];
    Gaps(answers[..|answers| - 1]) + if Supports(last) then [] else [GapOf(last)]
  }

  /** `_evidence_status`. */
  function StatusOf(supported: nat, total: nat): EvidenceStatus {
    if supported == total then Supported else if supported > 0 then Partial else Unsupported
  }

  function Bind(taskId: string, answers: seq<Answer>): Binding {
    Binding(taskId, Queries(answers), SortedKeys(FoundIds(answers)), StatusOf(Supporting(answers), |answers|),
            FirstOnly(Gaps(answers)))
  }

  function RegisterAll(registry: map<string, Evidence>, answers: seq<Answer>): map<string, Evidence> {
    if answers == [] then registry else
    var before, last := RegisterAll(registry, answers[..|answers| - 1]), answers[|answers| - 1];
    if Supports(last) then Register(before, last.search.value.evidence) else before
  }

  /** The bindings of the scopes, and the registry they leave. */
  function BindAll(scopes: seq<Scope>, answers: seq<Answer>): (bindings: seq<Binding>)
    ensures |bindings| == |scopes|
    ensures forall i :: 0 <= i < |scopes| ==> bindings[i] == Bind(scopes[i].taskId, OfTask(answers, scopes[i].taskId))
  {
    seq(|scopes|, i requires 0 <= i < |scopes| => Bind(scopes[i].taskId, OfTask(answers, scopes[i].taskId)))
  }

  function RegistryAfter(registry: map<string, Evidence>, scopes: seq<Scope>,
                         answers: seq<Answer>): map<string, Evidence>
  {
    if scopes == [] then registry else
    RegisterAll(RegistryAfter(registry, scopes[..|scopes| - 1], answers), OfTask(answers, scopes[|scopes| - 1].taskId))
  }

  function SortedScopes(scopes: seq<Scope>): (sorted: seq<Scope>)
    ensures multiset(sorted) == multiset(scopes)
  {
    StrLeqIsOrder();
    Sort(ByTask, scopes)
  }

  function SortedAnswers(answers: seq<Answer>): (sorted: seq<Answer>)
    ensures multiset(sorted) == multiset(answers)
  {
    ByRequestIsPreorder();
    Sort(ByRequest, answers)
  }

  /** The collection that answers in a given order lead to. */
  function CollectionOf(scopes: seq<Scope>, answers: seq<Answer>, existing: seq<Evidence>, calls: nat): Collection {
    var sorted := SortedAnswers(answers);
    Collection(Listing(RegistryAfter(EvidenceById(existing), scopes, sorted)), BindAll(scopes, sorted), calls)
  }

  // ----- every binding meets the contract ----------------------------------------------------------------

  lemma {:induction false} SupportAndGaps(answers: seq<Answer>)
    ensures Supporting(answers) <= |answers|
    ensures Supporting(answers) == |answers| <==> Gaps(answers) == []
    ensures Supporting(answers) == 0 <==> FoundIds(answers) == {}
  {
    if answers != [] {
      SupportAndGaps(answers[..|answers| - 1]);
      var last := answers[|answers| - 1];
      if Supports(last) {
        assert last.search.value.evidence[0].id in EvidenceIds(last.search.value.evidence);
      }
    }
  }

  predicate GapsSpeak(answers: seq<Answer>) {
    forall i :: 0 <= i < |answers| ==> !Blank(GapOf(answers[i]))
  }

  lemma {:induction false} GapsNotBlank(answers: seq<Answer>)
    requires GapsSpeak(answers)
    ensures forall g :: g in Gaps(answers) ==> !Blank(g)
  {
    if answers != [] {
      assert forall i :: 0 <= i < |answers| - 1 ==> answers[..|answers| - 1][i] == answers[i];
      GapsNotBlank(answers[..|answers| - 1]);
    }
  }

  /** Whatever was answered, the binding is supported, partial or unsupported exactly as the contract says. */
  lemma BindMeetsContract(taskId: string, answers: seq<Answer>)
    requires answers != [] && GapsSpeak(answers)
    ensures Contract(Bind(taskId, answers))
  {
    SupportAndGaps(answers);
    GapsNotBlank(answers);
    assert |SortedKeys(FoundIds(answers))| == |FoundIds(answers)|;
  }

  lemma AnswersSpeak(rs: seq<Request>, search: Request -> Search)
    ensures GapsSpeak(AnswersTo(rs, search)) && GapsSpeak(SkippedAll(rs))
  {
    forall i | 0 <= i < |rs| ensures !Blank(GapOf(AnswersTo(rs, search)[i])) && !Blank(GapOf(SkippedAll(rs)[i])) {
      assert !IsSpace(GapOf(AnswersTo(rs, search)[i])[0]) && !IsSpace(GapOf(SkippedAll(rs)[i])[0]);
    }
  }

  // ----- collect -----------------------------------------------------------------------------------------

  /** `_execute`: the searches run concurrently, and their answers come in the order in which they complete. */
  method Execute(requests: seq<Request>, search: Request -> Search) returns (answers: seq<Answer>)
    ensures multiset(answers) == multiset(AnswersTo(requests, search))
  {
    answers := [];
    var pending := requests;
    while pending != []
      invariant multiset(answers) + multiset(AnswersTo(pending, search)) == multiset(AnswersTo(requests, search))
      decreases |pending|
    {
      var completed :| 0 <= completed < |pending|;
      OneCompleted(pending, search, completed);
      answers := answers + [Answered(pending[completed], search(pending[completed]))];
      pending := pending[..completed] + pending[completed + 1..];
    }
  }

  lemma OneCompleted(pending: seq<Request>, search: Request -> Search, i: nat)
    requires i < |pending|
    ensures multiset(AnswersTo(pending, search)) ==
      multiset(AnswersTo(pending[..i] + pending[i + 1..], search)) + multiset{Answered(pending[i], search(pending[i]))}
  {
    var all := AnswersTo(pending, search);
    assert all == all[..i] + [all[i]] + all[i + 1..];
    assert AnswersTo(pending[..i] + pending[i + 1..], search) == all[..i] + all[i + 1..];
  }

  /** The requests within the budget, and the others. */
  function Allowed(rs: seq<Request>, limit: nat): seq<Request> {
    if limit < |rs| then rs[..limit] else rs
  }

  function BeyondLimit(rs: seq<Request>, limit: nat): seq<Request> {
    if limit < |rs| then rs[limit..] else []
  }

  function AnswersWithin(rs: seq<Request>, limit: nat, search: Request -> Search): seq<Answer> {
    AnswersTo(Allowed(rs, limit), search) + SkippedAll(BeyondLimit(rs, limit))
  }

  /** What `collect` returns, without any concurrency. */
  function Collected(tasks: seq<Task>, existing: seq<Evidence>, limit: nat, queryOf: (Scope, string) -> string,
                     search: Request -> Search): Result<Collection, CollectionError>
  {
    var scopes := Scopes(tasks);
    if scopes.Err? then Err(scopes.error)
    else if scopes.value == [] then Err(NoTasksToSearch)
    else
      var sorted := SortedScopes(scopes.value);
      var requests := Requests(sorted, queryOf);
      Ok(CollectionOf(sorted, AnswersWithin(requests, limit, search), existing, |Allowed(requests, limit)|))
  }

  // ----- the evidence that is returned -------------------------------------------------------------------

  /** The search for this request was sufficient, and this is a piece of what it found. */
  predicate Gives(q: Request, search: Request -> Search, e: Evidence) {
    search(q).Found? && search(q).sufficient && e in search(q).evidence
  }

  ghost predicate FoundFor(rs: seq<Request>, search: Request -> Search, e: Evidence) {
    exists q :: q in rs && Gives(q, search, e)
  }

  ghost predicate FoundForTask(rs: seq<Request>, search: Request -> Search, taskId: string, id: string) {
    exists q, e :: q in rs && q.taskId == taskId && Gives(q, search, e) && e.id == id
  }

  ghost predicate FoundId(rs: seq<Request>, search: Request -> Search, id: string) {
    exists e :: FoundFor(rs, search, e) && e.id == id
  }

  /** The evidence is listed in the order of its identifiers; no identifier that was known is lost, every one that was
      found is there, and every piece was found or was known and not found again. */
  ghost predicate Accounted(evidence: seq<Evidence>, existing: seq<Evidence>, rs: seq<Request>,
                            search: Request -> Search)
  {
    && InIdOrder(evidence)
    && (forall e :: e in existing ==> e.id in EvidenceIds(evidence))
    && (forall e :: FoundFor(rs, search, e) ==> e.id in EvidenceIds(evidence))
    && (forall e :: e in evidence ==> FoundFor(rs, search, e) || (e in existing && !FoundId(rs, search, e.id)))
  }

  /** A binding names exactly the evidence that the searches for its task found. */
  ghost predicate NamesFound(b: Binding, rs: seq<Request>, search: Request -> Search) {
    forall id :: id in b.evidenceIds <==> FoundForTask(rs, search, b.taskId, id)
  }

  predicate IdsKnown(bindings: seq<Binding>, ids: set<string>) {
    forall b :: b in bindings ==> Elements(b.evidenceIds) <= ids
  }

  function FoundEvidence(answers: seq<Answer>): set<Evidence> {
    if answers == [] then {} else
    var last := answers[|answers| - 1];
    FoundEvidence(answers[..|answers| - 1]) + if Supports(last) then Elements(last.search.value.evidence) else {}
  }

  function FoundIn(scopes: seq<Scope>, answers: seq<Answer>): set<Evidence> {
    if scopes == [] then {} else
    FoundIn(scopes[..|scopes| - 1], answers) + FoundEvidence(OfTask(answers, scopes[|scopes| - 1].taskId))
  }

  lemma {:induction false} FoundEvidenceIs(answers: seq<Answer>)
    ensures forall e :: e in FoundEvidence(answers) <==>
      exists a :: a in answers && Supports(a) && e in a.search.value.evidence
    ensures FoundIds(answers) == Ids(FoundEvidence(answers))
  {
    if answers != [] {
      var front, last := answers[..|answers| - 1], answers[|answers| - 1];
      FoundEvidenceIs(front);
      assert forall a :: a in answers <==> a in front || a == last;
      if Supports(last) {
        assert Ids(Elements(last.search.value.evidence)) == EvidenceIds(last.search.value.evidence);
        assert Ids(FoundEvidence(answers)) ==
          Ids(FoundEvidence(front)) + Ids(Elements(last.search.value.evidence));
      }
    }
  }

  lemma {:induction false} RegisterAllGrows(registry: map<string, Evidence>, answers: seq<Answer>)
    ensures Grown(registry, RegisterAll(registry, answers), FoundEvidence(answers))
  {
    if answers == [] {
      assert Ids({}) == {};
    } else {
      var front, last := answers[..|answers| - 1], answers[|answers| - 1];
      RegisterAllGrows(registry, front);
      if Supports(last) {
        var before := RegisterAll(registry, front);
        RegisterGrows(before, last.search.value.evidence);
        GrownTwice(registry, before, Register(before, last.search.value.evidence), FoundEvidence(front),
                   Elements(last.search.value.evidence));
      }
    }
  }

  lemma {:induction false} RegistryAfterGrows(registry: map<string, Evidence>, scopes: seq<Scope>,
                                              answers: seq<Answer>)
    ensures Grown(registry, RegistryAfter(registry, scopes, answers), FoundIn(scopes, answers))
  {
    if scopes == [] {
      assert Ids({}) == {};
    } else {
      var front, last := scopes[..|scopes| - 1], scopes[|scopes| - 1];
      var before := RegistryAfter(registry, front, answers);
      RegistryAfterGrows(registry, front, answers);
      RegisterAllGrows(before, OfTask(answers, last.taskId));
      GrownTwice(registry, before, RegisterAll(before, OfTask(answers, last.taskId)), FoundIn(front, answers),
                 FoundEvidence(OfTask(answers, last.taskId)));
    }
  }

  lemma {:induction false} FoundInIs(scopes: seq<Scope>, answers: seq<Answer>)
    ensures forall e :: e in FoundIn(scopes, answers) <==>
      exists s :: s in scopes && e in FoundEvidence(OfTask(answers, s.taskId))
  {
    if scopes != [] {
      var front, last := scopes[..|scopes| - 1], scopes[|scopes| - 1];
      FoundInIs(front, answers);
      assert forall s :: s in scopes <==> s in front || s == last;
    }
  }

  /** Answers to the requests within the budget, in any order, and to those beyond it. */
  predicate AnswerAll(answers: seq<Answer>, rs: seq<Request>, limit: nat, search: Request -> Search) {
    multiset(answers) == multiset(AnswersWithin(rs, limit, search))
  }

  lemma AnsweredIs(answers: seq<Answer>, rs: seq<Request>, limit: nat, search: Request -> Search, a: Answer,
                   e: Evidence)
    requires AnswerAll(answers, rs, limit, search) && a in answers && Supports(a) && e in a.search.value.evidence
    ensures a.request in Allowed(rs, limit) && Gives(a.request, search, e)
  {
    SameElements(answers, AnswersWithin(rs, limit, search));
    var all := AnswersWithin(rs, limit, search);
    var i :| 0 <= i < |all| && all[i] == a;
    assert i < |Allowed(rs, limit)|;
  }

  lemma GivesAnswer(answers: seq<Answer>, rs: seq<Request>, limit: nat, search: Request -> Search, q: Request,
                    e: Evidence)
    requires AnswerAll(answers, rs, limit, search) && q in Allowed(rs, limit) && Gives(q, search, e)
    ensures var a := Answered(q, search(q)); a in answers && Supports(a) && e in a.search.value.evidence
  {
    SameElements(answers, AnswersWithin(rs, limit, search));
    var i :| 0 <= i < |Allowed(rs, limit)| && Allowed(rs, limit)[i] == q;
    assert AnswersWithin(rs, limit, search)[i] == Answered(q, search(q));
  }

  /** The pieces that answers to one task brought are those that its searches gave. */
  lemma TaskFoundIs(answers: seq<Answer>, rs: seq<Request>, limit: nat, search: Request -> Search, taskId: string)
    requires AnswerAll(answers, rs, limit, search)
    ensures forall e :: e in FoundEvidence(OfTask(answers, taskId)) <==>
      exists q :: q in Allowed(rs, limit) && q.taskId == taskId && Gives(q, search, e)
  {
    var mine := OfTask(answers, taskId);
    OfTaskIs(answers, taskId);
    FoundEvidenceIs(mine);
    forall e
      ensures e in FoundEvidence(mine) <==>
        exists q :: q in Allowed(rs, limit) && q.taskId == taskId && Gives(q, search, e)
    {
      if e in FoundEvidence(mine) {
        var a :| a in mine && Supports(a) && e in a.search.value.evidence;
        AnsweredIs(answers, rs, limit, search, a, e);
      }
      if q :| q in Allowed(rs, limit) && q.taskId == taskId && Gives(q, search, e) {
        GivesAnswer(answers, rs, limit, search, q, e);
        assert Answered(q, search(q)) in mine;
      }
    }
  }

  lemma AllFoundIs(scopes: seq<Scope>, answers: seq<Answer>, limit: nat, queryOf: (Scope, string) -> string,
                   search: Request -> Search)
    requires AnswerAll(answers, Requests(scopes, queryOf), limit, search)
    ensures var rs := Allowed(Requests(scopes, queryOf), limit);
      forall e :: e in FoundIn(scopes, answers) <==> FoundFor(rs, search, e)
  {
    var all := Requests(scopes, queryOf);
    var rs := Allowed(all, limit);
    FoundInIs(scopes, answers);
    forall e ensures e in FoundIn(scopes, answers) <==> FoundFor(rs, search, e) {
      if e in FoundIn(scopes, answers) {
        var s :| s in scopes && e in FoundEvidence(OfTask(answers, s.taskId));
        TaskFoundIs(answers, all, limit, search, s.taskId);
      }
      if FoundFor(rs, search, e) {
        var q :| q in rs && Gives(q, search, e);
        var s := RequestComesFrom(scopes, queryOf, q);
        TaskFoundIs(answers, all, limit, search, s.taskId);
      }
    }
  }

  /** The returned evidence is accounted for, whatever the order of the answers. */
  lemma EvidenceIsAccounted(scopes: seq<Scope>, answers: seq<Answer>, existing: seq<Evidence>, limit: nat,
                            queryOf: (Scope, string) -> string, search: Request -> Search)
    requires AnswerAll(answers, Requests(scopes, queryOf), limit, search)
    ensures Accounted(Listing(RegistryAfter(EvidenceById(existing), scopes, answers)), existing,
                      Allowed(Requests(scopes, queryOf), limit), search)
  {
    var known, found := EvidenceById(existing), FoundIn(scopes, answers);
    var after := RegistryAfter(known, scopes, answers);
    var rs := Allowed(Requests(scopes, queryOf), limit);
    ExistingIs(existing);
    RegistryAfterGrows(known, scopes, answers);
    ListingIs(after);
    AllFoundIs(scopes, answers, limit, queryOf, search);
    forall e | e in Listing(after)
      ensures FoundFor(rs, search, e) || (e in existing && !FoundId(rs, search, e.id))
    {
      assert FromEither(known, after, found, e.id);
      assert forall f :: FoundFor(rs, search, f) ==> f in found && f.id in Ids(found);
    }
  }

  lemma BindingNamesFound(answers: seq<Answer>, rs: seq<Request>, limit: nat, search: Request -> Search,
                          taskId: string)
    requires AnswerAll(answers, rs, limit, search)
    ensures NamesFound(Bind(taskId, OfTask(answers, taskId)), Allowed(rs, limit), search)
  {
    var mine := OfTask(answers, taskId);
    TaskFoundIs(answers, rs, limit, search, taskId);
    FoundEvidenceIs(mine);
    var b, asked := Bind(taskId, mine), Allowed(rs, limit);
    forall id ensures id in b.evidenceIds <==> FoundForTask(asked, search, taskId, id) {
      if id in FoundIds(mine) {
        var e :| e in FoundEvidence(mine) && e.id == id;
        var q :| q in asked && q.taskId == taskId && Gives(q, search, e);
      }
      if FoundForTask(asked, search, taskId, id) {
        var q, e :| q in asked && q.taskId == taskId && Gives(q, search, e) && e.id == id;
        assert e in FoundEvidence(mine);
      }
    }
  }

  /** Every binding names exactly what its searches found, and all of it is in the returned evidence. */
  lemma BindingsNameFound(scopes: seq<Scope>, answers: seq<Answer>, rs: seq<Request>, limit: nat,
                          search: Request -> Search)
    requires AnswerAll(answers, rs, limit, search)
    ensures forall b :: b in BindAll(scopes, answers) ==> NamesFound(b, Allowed(rs, limit), search)
  {
    var bindings := BindAll(scopes, answers);
    forall b | b in bindings ensures NamesFound(b, Allowed(rs, limit), search) {
      var i :| 0 <= i < |bindings| && bindings[i] == b;
      BindingNamesFound(answers, rs, limit, search, scopes[i].taskId);
    }
  }

  lemma NamedIsKnown(evidence: seq<Evidence>, existing: seq<Evidence>, bindings: seq<Binding>, rs: seq<Request>,
                     search: Request -> Search)
    requires Accounted(evidence, existing, rs, search)
    requires forall b :: b in bindings ==> NamesFound(b, rs, search)
    ensures IdsKnown(bindings, EvidenceIds(evidence))
  {
    forall b, id | b in bindings && id in b.evidenceIds ensures id in EvidenceIds(evidence) {
      assert FoundForTask(rs, search, b.taskId, id);
      var q, e :| q in rs && q.taskId == b.taskId && Gives(q, search, e) && e.id == id;
      assert FoundFor(rs, search, e);
    }
  }

  /** The inner loop: one task's binding, and the registry after its evidence. */
  method BindScope(taskId: string, answers: seq<Answer>, registry: map<string, Evidence>)
    returns (binding: Binding, registry': map<string, Evidence>)
    ensures binding == Bind(taskId, answers) && registry' == RegisterAll(registry, answers)
  {
    var ids: set<string>, gaps: seq<string>, supported := {}, [], 0;
    registry' := registry;
    for i := 0 to |answers|
      invariant ids == FoundIds(answers[..i]) && gaps == Gaps(answers[..i]) && supported == Supporting(answers[..i])
      invariant registry' == RegisterAll(registry, answers[..i])
    {
      var answer := answers[i];
      assert answers[..i + 1][..i] == answers[..i] && answers[..i + 1][i] == answer;
      if Supports(answer) {
        supported := supported + 1;
        registry' := Register(registry', answer.search.value.evidence);
        ids := ids + EvidenceIds(answer.search.value.evidence);
      } else {
        gaps := gaps + [GapOf(answer)];
      }
    }
    assert answers[..|answers|] == answers;
    binding := Binding(taskId, Queries(answers), SortedKeys(ids), StatusOf(supported, |answers|), FirstOnly(gaps));
  }

  /** The loop over the scopes. */
  method BindScopes(scopes: seq<Scope>, sorted: seq<Answer>, existing: seq<Evidence>)
    returns (bindings: seq<Binding>, registry: map<string, Evidence>)
    ensures bindings == BindAll(scopes, sorted) && registry == RegistryAfter(EvidenceById(existing), scopes, sorted)
  {
    bindings, registry := [], EvidenceById(existing);
    for i := 0 to |scopes|
      invariant bindings == BindAll(scopes[..i], sorted)
      invariant registry == RegistryAfter(EvidenceById(existing), scopes[..i], sorted)
    {
      BindOneMore(scopes, i, sorted, existing);
      var binding;
      binding, registry := BindScope(scopes[i].taskId, OfTask(sorted, scopes[i].taskId), registry);
      bindings := bindings + [binding];
    }
    assert scopes[..|scopes|] == scopes;
  }

  lemma BindOneMore(scopes: seq<Scope>, i: nat, sorted: seq<Answer>, existing: seq<Evidence>)
    requires i < |scopes|
    ensures var answers := OfTask(sorted, scopes[i].taskId);
      && BindAll(scopes[..i + 1], sorted) == BindAll(scopes[..i], sorted) + [Bind(scopes[i].taskId, answers)]
      && RegistryAfter(EvidenceById(existing), scopes[..i + 1], sorted) ==
           RegisterAll(RegistryAfter(EvidenceById(existing), scopes[..i], sorted), answers)
  {
    assert scopes[..i + 1][..i] == scopes[..i] && scopes[..i + 1][i] == scopes[i];
    BindOneScopeMore(scopes, i, sorted);
  }

  lemma BindOneScopeMore(scopes: seq<Scope>, i: nat, sorted: seq<Answer>)
    requires i < |scopes|
    ensures BindAll(scopes[..i + 1], sorted) ==
      BindAll(scopes[..i], sorted) + [Bind(scopes[i].taskId, OfTask(sorted, scopes[i].taskId))]
  {
    var longer, shorter := BindAll(scopes[..i + 1], sorted), BindAll(scopes[..i], sorted);
    assert forall j :: 0 <= j < i ==> scopes[..i + 1][j] == scopes[..i][j];
    assert longer[..i] == shorter;
    assert longer == longer[..i] + [longer[i]];
  }

  /** Searching, sorting and binding, for scopes that are in order. */
  method Gather(scopes: seq<Scope>, existing: seq<Evidence>, limit: nat, queryOf: (Scope, string) -> string,
                search: Request -> Search)
    returns (c: Collection)
    requires forall s :: s in scopes ==> GoodScope(s) && CleanScope(s)
    ensures forall b :: b in c.bindings ==> Fresh(b)
    ensures TaskIdsOf(c.bindings) == TaskIds(scopes) && c.calls == |Allowed(Requests(scopes, queryOf), limit)|
    ensures Accounts(c, existing, Allowed(Requests(scopes, queryOf), limit), search)
    ensures Distinct(TaskIds(scopes)) ==>
      c == CollectionOf(scopes, AnswersWithin(Requests(scopes, queryOf), limit, search), existing,
                        |Allowed(Requests(scopes, queryOf), limit)|)
  {
    var requests := Requests(scopes, queryOf);
    var answers := Execute(Allowed(requests, limit), search);
    answers := answers + SkippedAll(BeyondLimit(requests, limit));
    var sorted := SortedAnswers(answers);
    var bindings, registry := BindScopes(scopes, sorted, existing);
    c := Collection(Listing(registry), bindings, |Allowed(requests, limit)|);
    GatheredIsFresh(scopes, requests, limit, queryOf, search, sorted);
    GatheredIsAccounted(scopes, sorted, existing, limit, queryOf, search, |Allowed(requests, limit)|);
    if Distinct(TaskIds(scopes)) {
      RequestsDistinct(scopes, queryOf);
      ByRequestIsPreorder();
      CompletionOrderIsIrrelevant(requests, limit, search, answers);
    }
  }

  function TaskIdsOf(bindings: seq<Binding>): seq<string> {
    seq(|bindings|, i requires 0 <= i < |bindings| => bindings[i].taskId)
  }

  /** The evidence is accounted for, every binding names exactly what was found for its task, and all that is named is
      in the evidence. */
  ghost predicate Accounts(c: Collection, existing: seq<Evidence>, rs: seq<Request>, search: Request -> Search) {
    && Accounted(c.evidence, existing, rs, search)
    && (forall b :: b in c.bindings ==> NamesFound(b, rs, search))
    && IdsKnown(c.bindings, EvidenceIds(c.evidence))
  }

  lemma GatheredIsAccounted(scopes: seq<Scope>, sorted: seq<Answer>, existing: seq<Evidence>, limit: nat,
                            queryOf: (Scope, string) -> string, search: Request -> Search, calls: nat)
    requires AnswerAll(sorted, Requests(scopes, queryOf), limit, search)
    ensures TaskIdsOf(BindAll(scopes, sorted)) == TaskIds(scopes)
    ensures Accounts(Collection(Listing(RegistryAfter(EvidenceById(existing), scopes, sorted)), BindAll(scopes, sorted),
                                calls),
                     existing, Allowed(Requests(scopes, queryOf), limit), search)
  {
    var evidence := Listing(RegistryAfter(EvidenceById(existing), scopes, sorted));
    EvidenceIsAccounted(scopes, sorted, existing, limit, queryOf, search);
    BindingsNameFound(scopes, sorted, Requests(scopes, queryOf), limit, search);
    NamedIsKnown(evidence, existing, BindAll(scopes, sorted), Allowed(Requests(scopes, queryOf), limit), search);
  }

  /** The requests that are made: those of the scopes in order, up to the limit. */
  function RequestsMade(scopes: seq<Scope>, limit: nat, queryOf: (Scope, string) -> string): seq<Request> {
    Allowed(Requests(SortedScopes(scopes), queryOf), limit)
  }

  lemma GatheredIsFresh(scopes: seq<Scope>, rs: seq<Request>, limit: nat, queryOf: (Scope, string) -> string,
                        search: Request -> Search, sorted: seq<Answer>)
    requires rs == Requests(scopes, queryOf) && forall s :: s in scopes ==> GoodScope(s) && CleanScope(s)
    requires multiset(sorted) == multiset(AnswersWithin(rs, limit, search))
    ensures forall b :: b in BindAll(scopes, sorted) ==> Fresh(b)
  {
    forall s | s in scopes ensures ProperRound(OfTask(sorted, s.taskId)) {
      AnsweredInTask(scopes, rs, limit, queryOf, search, sorted, s);
      AnsweredCleanly(scopes, rs, limit, queryOf, search, sorted, s);
    }
    AllFromOneRound(scopes, sorted);
  }

  /** `collect`: with distinct tasks, the result does not depend on the order in which searches complete. */
  method Collect(tasks: seq<Task>, existing: seq<Evidence>, limit: nat, queryOf: (Scope, string) -> string,
                 search: Request -> Search)
    returns (r: Result<Collection, CollectionError>)
    ensures DistinctTasks(tasks) ==> r == Collected(tasks, existing, limit, queryOf, search)
    ensures r.Err? ==> r == Collected(tasks, existing, limit, queryOf, search)
    ensures r.Ok? ==> Collected(tasks, existing, limit, queryOf, search).Ok?
    ensures r.Ok? ==> forall b :: b in r.value.bindings ==> Fresh(b)
    ensures r.Ok? ==> Scopes(tasks).Ok?
    ensures r.Ok? ==>
      var made := RequestsMade(Scopes(tasks).value, limit, queryOf);
      && Accounts(r.value, existing, made, search) && r.value.calls == |made|
      && TaskIdsOf(r.value.bindings) == TaskIds(SortedScopes(Scopes(tasks).value))
  {
    var scopes := Scopes(tasks);
    if scopes.Err? {
      return Err(scopes.error);
    }
    if scopes.value == [] {
      return Err(NoTasksToSearch);
    }
    var ordered := SortedScopes(scopes.value);
    OrderedScopes(tasks, ordered);
    var collection := Gather(ordered, existing, limit, queryOf, search);
    r := Ok(collection);
  }

  lemma OrderedScopes(tasks: seq<Task>, ordered: seq<Scope>)
    requires Scopes(tasks).Ok? && multiset(ordered) == multiset(Scopes(tasks).value)
    ensures forall s :: s in ordered ==> GoodScope(s) && CleanScope(s)
    ensures DistinctTasks(tasks) ==> Distinct(TaskIds(ordered))
  {
    var scopes := Scopes(tasks).value;
    AllOkAt(TaskScope, tasks);
    SameElements(scopes, ordered);
    forall i | 0 <= i < |scopes|
      ensures GoodScope(scopes[i]) && CleanScope(scopes[i]) && scopes[i].taskId == Strip(tasks[i].taskId)
    {
      assert TaskScope(tasks[i]) == Ok(scopes[i]);
      ScopeIsGood(tasks[i]);
      ScopesAreClean(tasks[i]);
    }
    if DistinctTasks(tasks) {
      OrderedDistinct(scopes, ordered);
    }
  }

  predicate DistinctTasks(tasks: seq<Task>) {
    forall i, j :: 0 <= i < j < |tasks| ==> Strip(tasks[i].taskId) != Strip(tasks[j].taskId)
  }

  // ----- clean requirements --------------------------------------------------------------------------------

  lemma StripNothing(s: string)
    requires s != [] && !IsSpace(s[0]) && !IsSpace(s[|s| - 1])
    ensures CleanText(s)
  {
  }

  /** Text without blanks around it. */
  predicate CleanText(s: string) {
    !Blank(s) && Strip(s) == s
  }

  /** The fields of a scope carry no surrounding blanks. */
  predicate CleanScope(s: Scope) {
    Strip(s.taskId) == s.taskId && forall q :: q in s.requirements ==> CleanText(q)
  }

  lemma StrippedIsClean(values: seq<string>, q: string)
    requires q in Stripped(values) && forall v :: v in values ==> !Blank(v)
    ensures CleanText(q)
  {
    var i :| 0 <= i < |values| && Stripped(values)[i] == q;
    assert values[i] in values;
    StripNothing(q);
  }

  /** The requirements of every scope are clean. */
  lemma ScopesAreClean(t: Task)
    requires TaskScope(t).Ok?
    ensures CleanScope(TaskScope(t).value)
  {
    var s := TaskScope(t).value;
    ScopeFields(t);
    StripTwice(t.taskId);
    UniqueIsClean(t.details.evidenceRequirements);
    CleanFields(s, t.taskId, t.details.evidenceRequirements);
  }

  lemma CleanFields(s: Scope, id: string, values: seq<string>)
    requires s.taskId == Strip(id) && Strip(Strip(id)) == Strip(id)
    requires s.requirements == Unique(values) && forall q :: q in Unique(values) ==> CleanText(q)
    ensures CleanScope(s)
  {
  }

  lemma StripTwice(text: string)
    requires !Blank(text)
    ensures Strip(Strip(text)) == Strip(text)
  {
    StripNothing(Strip(text));
  }

  lemma ScopeFields(t: Task)
    requires TaskScope(t).Ok?
    ensures TaskScope(t).value.taskId == Strip(t.taskId) && !Blank(t.taskId)
    ensures TaskScope(t).value.requirements == Unique(t.details.evidenceRequirements)
    ensures forall v :: v in t.details.evidenceRequirements ==> !Blank(v)
  {
  }

  lemma UniqueIsClean(values: seq<string>)
    requires forall v :: v in values ==> !Blank(v)
    ensures forall q :: q in Unique(values) ==> CleanText(q)
  {
    forall q | q in Unique(values) ensures CleanText(q) {
      StrippedIsClean(values, q);
    }
  }

  predicate CleanRequirements(answers: seq<Answer>) {
    forall a :: a in answers ==> CleanText(a.request.requirement)
  }

  /** A round of answers can be bound, and asks for clean requirements. */
  predicate ProperRound(answers: seq<Answer>) {
    answers != [] && GapsSpeak(answers) && CleanRequirements(answers)
  }

  /** The binding is that of a single round. */
  ghost predicate OneRound(b: Binding) {
    exists news :: ProperRound(news) && b == Bind(b.taskId, news)
  }

  /** What `collect` binds. */
  ghost predicate Fresh(b: Binding) {
    OneRound(b) && Contract(b) && Strip(b.taskId) == b.taskId
  }

  // ----- completion order is irrelevant ------------------------------------------------------------------

  function TaskIds(scopes: seq<Scope>): (ids: seq<string>)
    ensures |ids| == |scopes| && forall i :: 0 <= i < |scopes| ==> ids[i] == scopes[i].taskId
  {
    seq(|scopes|, i requires 0 <= i < |scopes| => scopes[i].taskId)
  }

  predicate GoodScope(s: Scope) {
    s.requirements != [] && forall i, j :: 0 <= i < j < |s.requirements| ==> s.requirements[i] != s.requirements[j]
  }

  lemma ScopeIsGood(t: Task)
    ensures TaskScope(t).Ok? ==> ScopeFor(TaskScope(t).value, t)
  {
  }

  predicate ScopeFor(s: Scope, t: Task) {
    GoodScope(s) && s.taskId == Strip(t.taskId)
  }

  /** Ordering the scopes keeps their identifiers distinct. */
  lemma OrderedDistinct(a: seq<Scope>, b: seq<Scope>)
    requires multiset(a) == multiset(b) && Distinct(TaskIds(a))
    ensures Distinct(TaskIds(b))
  {
    SameElements(a, b);
    DistinctIsSize(TaskIds(a));
    DistinctIsSize(TaskIds(b));
    IdsIncluded(a, b);
    IdsIncluded(b, a);
    assert Elements(TaskIds(a)) == Elements(TaskIds(b));
  }

  lemma IdsIncluded(a: seq<Scope>, b: seq<Scope>)
    requires forall x :: x in a ==> x in b
    ensures Elements(TaskIds(a)) <= Elements(TaskIds(b))
  {
    forall id | id in TaskIds(a) ensures id in TaskIds(b) {
      var i :| 0 <= i < |a| && TaskIds(a)[i] == id;
      assert a[i] in b;
      var j :| 0 <= j < |b| && b[j] == a[i];
      assert TaskIds(b)[j] == id;
    }
  }

  /** No task asks for the same thing twice. */
  predicate DistinctRequests(rs: seq<Request>) {
    forall i, j :: 0 <= i < j < |rs| ==> rs[i].taskId != rs[j].taskId || rs[i].requirement != rs[j].requirement
  }

  lemma {:induction false} RequestsDistinct(scopes: seq<Scope>, queryOf: (Scope, string) -> string)
    requires Distinct(TaskIds(scopes)) && forall s :: s in scopes ==> GoodScope(s)
    ensures DistinctRequests(Requests(scopes, queryOf))
    ensures forall r :: r in Requests(scopes, queryOf) ==> r.taskId in TaskIds(scopes)
  {
    if scopes != [] {
      var front, last := scopes[..|scopes| - 1], scopes[|scopes| - 1];
      assert TaskIds(scopes) == TaskIds(front) + [last.taskId];
      assert forall i :: 0 <= i < |front| ==> TaskIds(front)[i] == TaskIds(scopes)[i];
      RequestsDistinct(front, queryOf);
      assert last.taskId !in TaskIds(front);
      assert last in scopes;
      OneScopeDistinct(last, queryOf);
      JoinedDistinct(Requests(front, queryOf), RequestsOf(last, last.requirements, queryOf), last.taskId);
    }
  }

  lemma OneScopeDistinct(s: Scope, queryOf: (Scope, string) -> string)
    requires GoodScope(s)
    ensures DistinctRequests(RequestsOf(s, s.requirements, queryOf))
  {
  }

  lemma JoinedDistinct(a: seq<Request>, b: seq<Request>, taskId: string)
    requires DistinctRequests(a) && DistinctRequests(b)
    requires forall r :: r in a ==> r.taskId != taskId
    requires forall r :: r in b ==> r.taskId == taskId
    ensures DistinctRequests(a + b)
  {
    forall i, j | 0 <= i < j < |a + b|
      ensures (a + b)[i].taskId != (a + b)[j].taskId || (a + b)[i].requirement != (a + b)[j].requirement
    {
      if i < |a| <= j {
        assert a[i] in a && b[j - |a|] in b;
      }
    }
  }

  lemma AnswersAddressed(rs: seq<Request>, limit: nat, search: Request -> Search)
    ensures |AnswersWithin(rs, limit, search)| == |rs|
    ensures forall i :: 0 <= i < |rs| ==> AnswersWithin(rs, limit, search)[i].request == rs[i]
  {
  }

  lemma AnswersDetermined(rs: seq<Request>, limit: nat, search: Request -> Search)
    requires DistinctRequests(rs)
    ensures KeysDetermine(ByRequest, AnswersWithin(rs, limit, search))
  {
    var answers := AnswersWithin(rs, limit, search);
    AnswersAddressed(rs, limit, search);
    ByRequestIsPreorder();
    forall a, b | a in answers && b in answers && ByRequest(a, b) && ByRequest(b, a) ensures a == b {
      var i :| 0 <= i < |answers| && answers[i] == a;
      var j :| 0 <= j < |answers| && answers[j] == b;
      SameRequest(rs, i, j);
    }
  }

  lemma SameRequest(rs: seq<Request>, i: nat, j: nat)
    requires DistinctRequests(rs) && i < |rs| && j < |rs|
    requires rs[i].taskId == rs[j].taskId && rs[i].requirement == rs[j].requirement
    ensures i == j
  {
  }

  /** Whatever the order in which the searches completed, the sorted answers are the same. */
  lemma CompletionOrderIsIrrelevant(rs: seq<Request>, limit: nat, search: Request -> Search, answers: seq<Answer>)
    requires DistinctRequests(rs) && Preorder(ByRequest)
    requires multiset(answers) == multiset(AnswersWithin(rs, limit, search))
    ensures Sort(ByRequest, answers) == Sort(ByRequest, AnswersWithin(rs, limit, search))
  {
    AnswersDetermined(rs, limit, search);
    var expected := Sort(ByRequest, AnswersWithin(rs, limit, search));
    SortedUnique(ByRequest, expected, Sort(ByRequest, answers));
  }

  // ----- every task has answers ----------------------------------------------------------------------------

  lemma {:induction false} TaskIsAsked(scopes: seq<Scope>, queryOf: (Scope, string) -> string, s: Scope)
    returns (r: Request)
    requires s in scopes && GoodScope(s)
    ensures r in Requests(scopes, queryOf) && r.taskId == s.taskId
  {
    var front, last := scopes[..|scopes| - 1], scopes[|scopes| - 1];
    if s == last {
      r := RequestsOf(last, last.requirements, queryOf)[0];
    } else {
      r := TaskIsAsked(front, queryOf, s);
    }
  }

  lemma {:induction false} OfTaskIs(answers: seq<Answer>, taskId: string)
    ensures forall a :: a in OfTask(answers, taskId) <==> a in answers && a.request.taskId == taskId
  {
    if answers != [] {
      var front, last := answers[..|answers| - 1], answers[|answers| - 1];
      OfTaskIs(front, taskId);
      assert forall a :: a in answers <==> a in front || a == last;
    }
  }

  lemma {:induction false} RequestComesFrom(scopes: seq<Scope>, queryOf: (Scope, string) -> string, r: Request)
    returns (s: Scope)
    requires r in Requests(scopes, queryOf)
    ensures s in scopes && r.taskId == s.taskId && r.requirement in s.requirements
  {
    var front, last := scopes[..|scopes| - 1], scopes[|scopes| - 1];
    if r in RequestsOf(last, last.requirements, queryOf) {
      s := last;
    } else {
      s := RequestComesFrom(front, queryOf, r);
    }
  }

  lemma AllFromOneRound(scopes: seq<Scope>, answers: seq<Answer>)
    requires forall s :: s in scopes ==> Strip(s.taskId) == s.taskId && ProperRound(OfTask(answers, s.taskId))
    ensures forall b :: b in BindAll(scopes, answers) ==> Fresh(b)
  {
    var bindings := BindAll(scopes, answers);
    forall i | 0 <= i < |bindings| ensures Fresh(bindings[i]) {
      assert scopes[i] in scopes;
      BindMeetsContract(scopes[i].taskId, OfTask(answers, scopes[i].taskId));
    }
  }

  lemma AnsweredInTask(scopes: seq<Scope>, rs: seq<Request>, limit: nat, queryOf: (Scope, string) -> string,
                       search: Request -> Search, answers: seq<Answer>, s: Scope)
    requires rs == Requests(scopes, queryOf) && s in scopes && GoodScope(s)
    requires multiset(answers) == multiset(AnswersWithin(rs, limit, search))
    ensures OfTask(answers, s.taskId) != [] && GapsSpeak(OfTask(answers, s.taskId))
  {
    var expected := AnswersWithin(rs, limit, search);
    SameElements(answers, expected);
    AnswersAddressed(rs, limit, search);
    OfTaskIs(answers, s.taskId);
    var r := TaskIsAsked(scopes, queryOf, s);
    var i :| 0 <= i < |rs| && rs[i] == r;
    assert expected[i] in answers;
    forall j | 0 <= j < |OfTask(answers, s.taskId)| ensures !Blank(GapOf(OfTask(answers, s.taskId)[j])) {
      AnswerSpeaks(rs, limit, search, OfTask(answers, s.taskId)[j]);
    }
  }

  lemma AnsweredCleanly(scopes: seq<Scope>, rs: seq<Request>, limit: nat, queryOf: (Scope, string) -> string,
                        search: Request -> Search, answers: seq<Answer>, s: Scope)
    requires rs == Requests(scopes, queryOf) && forall t :: t in scopes ==> CleanScope(t)
    requires multiset(answers) == multiset(AnswersWithin(rs, limit, search))
    ensures CleanRequirements(OfTask(answers, s.taskId))
  {
    var expected := AnswersWithin(rs, limit, search);
    SameElements(answers, expected);
    AnswersAddressed(rs, limit, search);
    OfTaskIs(answers, s.taskId);
    forall a | a in OfTask(answers, s.taskId)
      ensures CleanText(a.request.requirement)
    {
      var i :| 0 <= i < |expected| && expected[i] == a;
      assert rs[i] in rs;
      var from := RequestComesFrom(scopes, queryOf, rs[i]);
      assert CleanScope(from);
    }
  }

  lemma AnswerSpeaks(rs: seq<Request>, limit: nat, search: Request -> Search, a: Answer)
    requires a in AnswersWithin(rs, limit, search)
    ensures !Blank(GapOf(a))
  {
    AnswersSpeak(Allowed(rs, limit), search);
    AnswersSpeak(BeyondLimit(rs, limit), search);
  }
}
