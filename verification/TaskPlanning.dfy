/** Construction of the configuration task plan (src/agents/task_graph.py). */
module TaskPlanning {
  import opened Outcomes
  import opened Ordering
  import opened Text
  import opened DependencyGraph

  datatype Risk = Low | Medium | High | Critical

  datatype Details = Details(
    preconditions: seq<string>,
    steps: seq<string>,
    validationSteps: seq<string>,
    rollbackSteps: seq<string>,
    evidenceRequirements: seq<string>)

  datatype TaskDraft = TaskDraft(
    key: string, title: string, area: string, goal: string,
    dependsOn: seq<string>, details: Details, risk: Risk)

  datatype Task = Task(
    taskId: string, title: string, area: string, goal: string,
    dependsOn: seq<string>, details: Details, risk: Risk, baseline: string)

  datatype Edge = Edge(upstream: string, downstream: string)

  datatype TaskPlan = TaskPlan(tasks: seq<Task>, edges: seq<Edge>, baseline: string, invalidated: seq<string>)

  datatype PlanError =
    | EmptyGoal
    | NoTasks
    | DuplicateKey(key: string)
    | DuplicateTask(first: string, second: string)
    | MissingDependencies(key: string, missing: seq<string>)
    | CycleDetected(keys: seq<string>)

  function GraphOf(tasks: map<string, TaskDraft>): Graph {
    map k | k in tasks :: Dependencies(tasks[k])
  }

  function Dependencies(d: TaskDraft): set<string> {
    set k | k in d.dependsOn
  }

  // ----- _stable_topological_order -------------------------------------------------------------

  /** The tasks of `some` that wait for `d`. */
  function Waiting(g: Graph, some: set<string>, d: string): set<string> {
    set k | k in some && k in g && d in g[k]
  }

  /** How many dependencies of each task are outside `done`. */
  function Missing(g: Graph, done: set<string>): map<string, nat> {
    map k | k in g :: Outside(g[k], done)
  }

  function Outside(a: set<string>, done: set<string>): nat {
    |a - done|
  }

  /** `indegree` is `missing`, with the tasks of `late` still counted once too often. */
  ghost predicate Counts(missing: map<string, nat>, late: set<string>, indegree: map<string, int>) {
    && indegree.Keys == missing.Keys
    && forall k :: k in missing ==> indegree[k] == missing[k] + if k in late then 1 else 0
  }

  function Released(done: set<string>, indegree: map<string, int>): set<string> {
    set k | k in indegree && k !in done && indegree[k] == 0
  }

  lemma NothingLeft(a: set<string>, done: set<string>)
    ensures Outside(a, done) == 0 <==> a <= done
  {
    if |a - done| == 0 {
      assert forall k :: k in a ==> k in done || k in a - done;
    } else {
      var k :| k in a - done;
    }
  }

  lemma ReleasedIsReady(g: Graph, done: set<string>)
    ensures Released(done, Missing(g, done)) == Ready(g, done)
  {
    forall k | k in g ensures Outside(g[k], done) == 0 <==> g[k] <= done {
      NothingLeft(g[k], done);
    }
  }

  lemma DoneOne(a: set<string>, done: set<string>, key: string)
    requires key !in done
    ensures Outside(a, done) == Outside(a, done + {key}) + if key in a then 1 else 0
  {
    if key in a {
      assert a - done == (a - (done + {key})) + {key};
    } else {
      assert a - done == a - (done + {key});
    }
  }

  /** Doing `key` leaves every task that waits for it counted once too often. */
  lemma CountsAfter(g: Graph, done: set<string>, key: string)
    requires key in Ready(g, done)
    ensures Counts(Missing(g, done + {key}), Waiting(g, g.Keys, key), Missing(g, done))
  {
    forall k | k in g
      ensures Outside(g[k], done) == Outside(g[k], done + {key}) + if key in g[k] then 1 else 0
    {
      DoneOne(g[k], done, key);
    }
  }

  /** Tasks already ordered wait for nothing, so the leftover ones are those with a positive count. */
  lemma {:induction false} OrderedIsReleased(g: Graph, o: seq<string>, k: string)
    requires Schedule(g, o) && k in o
    ensures k in g && g[k] <= Elements(o)
  {
    var front, last := o[..|o| - 1], o[|o| - 1];
    assert o == front + [last];
    if k != last {
      OrderedIsReleased(g, front, k);
    }
  }

  lemma CyclicNames(g: Graph, o: seq<string>)
    requires Schedule(g, o) && Ready(g, Elements(o)) == {}
    ensures var missing := Missing(g, Elements(o));
            (set k | k in missing && missing[k] > 0) == g.Keys - Elements(o)
  {
    forall k | k in g ensures Outside(g[k], Elements(o)) > 0 <==> k !in Elements(o) {
      NothingLeft(g[k], Elements(o));
      if k in o {
        OrderedIsReleased(g, o, k);
      } else {
        assert k !in Ready(g, Elements(o));
      }
    }
  }

  method StableTopologicalOrder(tasks: map<string, TaskDraft>) returns (r: Result<seq<string>, PlanError>)
    requires Closed(GraphOf(tasks))
    ensures r.Ok? <==> !Cyclic(GraphOf(tasks))
    ensures r.Ok? ==> r.value == KahnOrder(GraphOf(tasks))
    ensures r.Err? ==> r.error == CycleDetected(SortedKeys(tasks.Keys - Elements(KahnOrder(GraphOf(tasks)))))
  {
    var g := GraphOf(tasks);
    var ordered, indegree := Drain(g);
    KahnCompleteIffAcyclic(g);
    assert g.Keys == tasks.Keys;
    Subset(g.Keys, tasks.Keys);
    if |ordered| != |tasks| {
      var cyclic := set k | k in indegree && indegree[k] > 0;
      return Err(CycleDetected(SortedKeys(cyclic)));
    }
    return Ok(ordered);
  }

  /** What one turn of the loop relies on and keeps. */
  lemma KahnTurn(g: Graph, ordered: seq<string>, done: set<string>, key: string)
    requires Schedule(g, ordered) && done == Elements(ordered)
    requires Ready(g, done) != {} && key == Least(Ready(g, done))
    requires ordered + KahnFrom(g, done) == KahnOrder(g)
    ensures key in g && Schedule(g, ordered + [key]) && done + {key} == Elements(ordered + [key])
    ensures (ordered + [key]) + KahnFrom(g, done + {key}) == KahnOrder(g)
    ensures Counts(Missing(g, done + {key}), Waiting(g, g.Keys, key), Missing(g, done))
    ensures Waiting(g, g.Keys, key) <= Missing(g, done + {key}).Keys - (done + {key})
    ensures |g.Keys - (done + {key})| < |g.Keys - done|
  {
    LeastShrinks(g, done);
    KahnStep(g, ordered, done);
    ExtendSchedule(g, ordered, key);
    CountsAfter(g, done, key);
    NobodyDoneWaits(g, ordered, key);
  }

  lemma NobodyDoneWaits(g: Graph, ordered: seq<string>, key: string)
    requires Schedule(g, ordered) && key in Ready(g, Elements(ordered))
    ensures Waiting(g, g.Keys, key) <= g.Keys - (Elements(ordered) + {key})
  {
    forall k | k in ordered ensures k in g && key !in g[k] {
      OrderedIsReleased(g, ordered, k);
    }
  }

  lemma StillReleased(done: set<string>, key: string, indegree: map<string, int>)
    ensures Released(done, indegree) - {key} == Released(done + {key}, indegree)
  {
  }

  lemma CountsAtStart(g: Graph)
    ensures (map k | k in g :: |g[k]|) == Missing(g, {})
  {
    forall k | k in g ensures |g[k]| == Outside(g[k], {}) {
      assert g[k] - {} == g[k];
    }
  }

  lemma PrefixNothing(s: seq<string>)
    ensures [] + s == s
  {
  }

  /** The counters and the heap, run until the heap is empty. */
  method Drain(g: Graph) returns (ordered: seq<string>, indegree: map<string, int>)
    requires Closed(g)
    ensures ordered == KahnOrder(g)
    ensures (set k | k in indegree && indegree[k] > 0) == g.Keys - Elements(ordered)
  {
    indegree := map k | k in g :: |g[k]|;
    var dependents := CollectDependents(g);
    var ready := set k | k in indegree && indegree[k] == 0;
    ordered := [];
    ghost var done: set<string> := {};
    CountsAtStart(g);
    PrefixNothing(KahnFrom(g, {}));
    while ready != {}
      invariant Schedule(g, ordered) && done == Elements(ordered)
      invariant indegree == Missing(g, done) && ready == Released(done, indegree)
      invariant ordered + KahnFrom(g, done) == KahnOrder(g)
      decreases |g.Keys - done|
    {
      ReleasedIsReady(g, done);
      var key := Least(ready);
      KahnTurn(g, ordered, done, key);
      var waiting := dependents[key];
      StillReleased(done, key, indegree);
      ready := ready - {key};
      ordered := ordered + [key];
      done := done + {key};
      indegree, ready := Release(Missing(g, done), done, waiting, indegree, ready);
    }
    ReleasedIsReady(g, done);
    CyclicNames(g, ordered);
  }

  /** The tasks waiting for each task. */
  method CollectDependents(g: Graph) returns (dependents: map<string, set<string>>)
    requires Closed(g)
    ensures dependents.Keys == g.Keys
    ensures forall d :: d in g ==> dependents[d] == Waiting(g, g.Keys, d)
  {
    dependents := map k | k in g :: {};
    var todo := g.Keys;
    while todo != {}
      invariant todo <= g.Keys && dependents.Keys == g.Keys
      invariant forall d :: d in g ==> dependents[d] == Waiting(g, g.Keys - todo, d)
      decreases |todo|
    {
      var key :| key in todo;
      dependents := AddDependent(dependents, key, g[key]);
      WaitingGrows(g, g.Keys, todo, key);
      todo := todo - {key};
    }
    assert g.Keys - {} == g.Keys;
  }

  lemma WaitingGrows(g: Graph, all: set<string>, todo: set<string>, key: string)
    requires key in g && key in todo && todo <= all
    ensures forall d :: Waiting(g, all - (todo - {key}), d) ==
                        Waiting(g, all - todo, d) + if d in g[key] then {key} else {}
  {
  }

  method AddDependent(before: map<string, set<string>>, key: string, dependsOn: set<string>)
    returns (dependents: map<string, set<string>>)
    requires dependsOn <= before.Keys
    ensures dependents.Keys == before.Keys
    ensures forall d :: d in before ==> dependents[d] == before[d] + if d in dependsOn then {key} else {}
  {
    dependents := before;
    var todo := dependsOn;
    while todo != {}
      invariant todo <= dependsOn && dependents.Keys == before.Keys
      invariant forall d :: d in before ==>
                  dependents[d] == if d in dependsOn && d !in todo then before[d] + {key} else before[d]
      decreases |todo|
    {
      var dependency :| dependency in todo;
      dependents := dependents[dependency := dependents[dependency] + {key}];
      todo := todo - {dependency};
    }
    assert forall d :: d in before ==> before[d] + {} == before[d];
  }

  /** The inner loop: one more dependency of every dependent is done. */
  method Release(ghost missing: map<string, nat>, ghost done: set<string>, dependents: set<string>,
                 indegree0: map<string, int>, ready0: set<string>)
    returns (indegree: map<string, int>, ready: set<string>)
    requires Counts(missing, dependents, indegree0) && dependents <= missing.Keys - done
    requires ready0 == Released(done, indegree0)
    ensures indegree == missing && ready == Released(done, indegree)
  {
    indegree, ready := indegree0, ready0;
    var todo := dependents;
    while todo != {}
      invariant todo <= dependents && Counts(missing, todo, indegree)
      invariant ready == Released(done, indegree)
      decreases |todo|
    {
      var dependent :| dependent in todo;
      todo := todo - {dependent};
      indegree := indegree[dependent := indegree[dependent] - 1];
      if indegree[dependent] == 0 {
        ready := ready + {dependent};
      }
    }
  }

  // ----- build_task_plan -------------------------------------------------------------------------

  /** What `TaskDraft` itself enforces when a draft is created. */
  predicate ValidDraft(d: TaskDraft) {
    && d.key !in d.dependsOn
    && (forall i, j :: 0 <= i < j < |d.dependsOn| ==> d.dependsOn[i] != d.dependsOn[j])
    && !Blank(d.title) && !Blank(d.area) && !Blank(d.goal)
  }

  function SemanticKey(d: TaskDraft): (string, string) {
    (Normalize(d.area), Normalize(d.goal))
  }

  function Keys(drafts: seq<TaskDraft>): (s: seq<string>)
    ensures |s| == |drafts|
  {
    seq(|drafts|, i requires 0 <= i < |drafts| => drafts[i].key)
  }

  function SemanticKeys(drafts: seq<TaskDraft>): (s: seq<(string, string)>)
    ensures |s| == |drafts|
  {
    seq(|drafts|, i requires 0 <= i < |drafts| => SemanticKey(drafts[i]))
  }

  ghost predicate Distinct<T(!new)>(s: seq<T>) {
    forall i, j :: 0 <= i < j < |s| ==> s[i] != s[j]
  }

  /** The dictionary of drafts by key; a later draft replaces an earlier one of the same key. */
  function ByKey(drafts: seq<TaskDraft>): (m: map<string, TaskDraft>)
    ensures m.Keys == Elements(Keys(drafts))
  {
    if drafts == [] then map[] else
    var front, last := drafts[..|drafts| - 1], drafts[|drafts| - 1];
    assert Keys(drafts) == Keys(front) + [last.key];
    ByKey(front)[last.key := last]
  }

  /** Every entry of the dictionary is one of the drafts, filed under its own key. */
  lemma {:induction false} ByKeyEntry(drafts: seq<TaskDraft>, k: string) returns (i: nat)
    requires k in ByKey(drafts)
    ensures i < |drafts| && drafts[i].key == k && ByKey(drafts)[k] == drafts[i]
  {
    var front, last := drafts[..|drafts| - 1], drafts[|drafts| - 1];
    if k == last.key {
      i := |drafts| - 1;
    } else {
      i := ByKeyEntry(front, k);
    }
  }

  /** The drafts a plan can be made of: distinct keys, distinct meanings, known dependencies, no cycle. */
  ghost predicate Plannable(drafts: seq<TaskDraft>) {
    && drafts != []
    && Distinct(Keys(drafts)) && Distinct(SemanticKeys(drafts))
    && Closed(GraphOf(ByKey(drafts)))
    && !Cyclic(GraphOf(ByKey(drafts)))
  }

  /** The stable identifiers: a hash of the key and the normalized module, given as `idOf`. */
  function Identifiers(tasks: map<string, TaskDraft>, idOf: (string, string) -> string): map<string, string> {
    map k | k in tasks :: idOf(k, Normalize(tasks[k].area))
  }

  /** The text from its first character that is not white space. */
  function Unindented(s: string): string {
    s[SkipSpaces(s, 0)..]
  }

  /** The same area, whatever its case and the white space before it. */
  predicate SameArea(a: string, b: string) {
    SameLetters(Unindented(a), Unindented(b))
  }

  lemma NormalizeUnindented(a: string)
    ensures Normalize(a) == CollapseSpaces(Fold(Unindented(a)))
  {
    var i := SkipSpaces(a, 0);
    assert a == a[..i] + a[i..];
    FoldOfBoth(a[..i], a[i..]);
    LeadingSpacesCollapse(Fold(a[..i]), Fold(a[i..]));
  }

  lemma SameAreaSameName(a: string, b: string)
    requires SameArea(a, b)
    ensures Normalize(a) == Normalize(b)
  {
    NormalizeUnindented(a);
    NormalizeUnindented(b);
    FoldIff(Unindented(a), Unindented(b));
  }

  lemma FoldOfBoth(spaces: string, s: string)
    requires Blank(spaces)
    ensures Fold(spaces + s) == Fold(spaces) + Fold(s) && Blank(Fold(spaces))
  {
    forall i | 0 <= i < |spaces| ensures IsSpace(Fold(spaces)[i]) {
      assert IsSpace(spaces[i]);
    }
  }

  predicate SameAreas(tasks: map<string, TaskDraft>, others: map<string, TaskDraft>) {
    tasks.Keys == others.Keys && forall k :: k in tasks ==> SameArea(tasks[k].area, others[k].area)
  }

  lemma SameIdentifier(tasks: map<string, TaskDraft>, others: map<string, TaskDraft>,
                       idOf: (string, string) -> string, k: string)
    requires SameAreas(tasks, others) && k in tasks
    ensures Identifiers(tasks, idOf)[k] == Identifiers(others, idOf)[k]
  {
    SameAreaSameName(tasks[k].area, others[k].area);
  }

  /** Rewriting the areas in another case, or with more white space before them, leaves every identifier as it is. */
  lemma IdentifiersAreStable(tasks: map<string, TaskDraft>, others: map<string, TaskDraft>,
                             idOf: (string, string) -> string)
    requires SameAreas(tasks, others)
    ensures Identifiers(tasks, idOf) == Identifiers(others, idOf)
  {
    forall k | k in Identifiers(tasks, idOf) ensures Identifiers(tasks, idOf)[k] == Identifiers(others, idOf)[k] {
      SameIdentifier(tasks, others, idOf, k);
    }
  }

  function Materialize(d: TaskDraft, ids: map<string, string>, baseline: string): Task
    requires d.key in ids && forall k :: k in d.dependsOn ==> k in ids
  {
    var given := d.details;
    Task(ids[d.key], Strip(d.title), Strip(d.area), Strip(d.goal),
         SortedKeys(set k | k in d.dependsOn :: ids[k]),
         Details(Unique(given.preconditions), Unique(given.steps), Unique(given.validationSteps),
                 Unique(given.rollbackSteps), Unique(given.evidenceRequirements)),
         d.risk, baseline)
  }

  /** The items without the blanks around them, each where it first occurs. */
  ghost predicate SameItems(given: seq<string>, items: seq<string>) {
    && (forall x :: x in items <==> Given(given, x))
    && (forall i, j :: 0 <= i < j < |items| ==> items[i] != items[j])
    && InGivenOrder(Stripped(given), items)
  }

  predicate Given(given: seq<string>, x: string) {
    exists i :: 0 <= i < |given| && Strip(given[i]) == x
  }

  predicate InGivenOrder(all: seq<string>, items: seq<string>) {
    forall i, j :: 0 <= i < j < |items| && items[i] in all && items[j] in all ==>
      FirstIndex(all, items[i]) < FirstIndex(all, items[j])
  }

  lemma KeptInOrder(all: seq<string>)
    ensures InGivenOrder(all, FirstOnly(all))
  {
    FirstOnlyKeepsOrder(all);
  }

  lemma UniqueKeepsItems(given: seq<string>)
    ensures SameItems(given, Unique(given))
  {
    var all, items := Stripped(given), Unique(given);
    KeptInOrder(all);
    forall x ensures x in items <==> Given(given, x) {
      if x in items {
        var i :| 0 <= i < |all| && all[i] == x;
      }
      if i :| 0 <= i < |given| && Strip(given[i]) == x {
        assert all[i] == x;
      }
    }
  }

  /** A task says what its draft says, in every field, and depends on the tasks of the drafts it depends on. */
  lemma TaskSaysDraft(d: TaskDraft, ids: map<string, string>, baseline: string)
    requires d.key in ids && forall k :: k in d.dependsOn ==> k in ids
    ensures var t, given := Materialize(d, ids, baseline), d.details;
      && t.taskId == ids[d.key] && t.baseline == baseline && t.risk == d.risk
      && t.title == Strip(d.title) && t.area == Strip(d.area) && t.goal == Strip(d.goal)
      && SameItems(given.preconditions, t.details.preconditions) && SameItems(given.steps, t.details.steps)
      && SameItems(given.validationSteps, t.details.validationSteps)
      && SameItems(given.rollbackSteps, t.details.rollbackSteps)
      && SameItems(given.evidenceRequirements, t.details.evidenceRequirements)
      && forall x :: x in t.dependsOn <==> exists k :: k in d.dependsOn && ids[k] == x
  {
    UniqueKeepsItems(d.details.preconditions);
    UniqueKeepsItems(d.details.steps);
    UniqueKeepsItems(d.details.validationSteps);
    UniqueKeepsItems(d.details.rollbackSteps);
    UniqueKeepsItems(d.details.evidenceRequirements);
  }

  /** Every dependency names a task, and every task is filed under its own key. */
  predicate WellFiled(tasks: map<string, TaskDraft>) {
    forall k :: k in tasks ==> tasks[k].key == k && forall d :: d in tasks[k].dependsOn ==> d in tasks
  }

  function TasksOf(order: seq<string>, tasks: map<string, TaskDraft>, ids: map<string, string>, baseline: string)
    : (ts: seq<Task>)
    requires WellFiled(tasks) && ids.Keys == tasks.Keys && forall k :: k in order ==> k in tasks
    ensures |ts| == |order|
    ensures forall i :: 0 <= i < |order| ==> ts[i] == Materialize(tasks[order[i]], ids, baseline)
  {
    seq(|order|, i requires 0 <= i < |order| => Materialize(tasks[order[i]], ids, baseline))
  }

  /** One edge for every declared dependency, in task order and then in key order. */
  function EdgesOf(order: seq<string>, tasks: map<string, TaskDraft>, ids: map<string, string>): seq<Edge>
    requires WellFiled(tasks) && ids.Keys == tasks.Keys && forall k :: k in order ==> k in tasks
  {
    if order == [] then [] else
    var front, k := order[..|order| - 1], order[|order| - 1];
    assert k in order;
    EdgesOf(front, tasks, ids) + EdgesInto(k, SortedList(tasks[k].dependsOn), ids)
  }

  function SortedList(s: seq<string>): (t: seq<string>)
    ensures |t| == |s| && (forall x :: x in t <==> x in s)
  {
    StrLeqIsOrder();
    Sort(StrLeq, s)
  }

  function EdgesInto(k: string, dependencies: seq<string>, ids: map<string, string>): (es: seq<Edge>)
    requires k in ids && forall d :: d in dependencies ==> d in ids
    ensures |es| == |dependencies|
    ensures forall i :: 0 <= i < |es| ==> es[i] == Edge(ids[dependencies[i]], ids[k])
  {
    seq(|dependencies|, i requires 0 <= i < |dependencies| => Edge(ids[dependencies[i]], ids[k]))
  }

  function Invalidated(previous: seq<Task>, baseline: string): seq<string> {
    if previous == [] then [] else
    var rest := Invalidated(previous[..|previous| - 1], baseline);
    var last := previous[|previous| - 1];
    if last.baseline != baseline then rest + [last.taskId] else rest
  }

  /** The plan for a set of drafts: every part of it is a function of the drafts by key. */
  function PlanOf(tasks: map<string, TaskDraft>, idOf: (string, string) -> string, baseline: string,
                  previous: seq<Task>): TaskPlan
    requires WellFiled(tasks)
  {
    var order := KahnOrder(GraphOf(tasks));
    var ids := Identifiers(tasks, idOf);
    KahnSchedules(GraphOf(tasks), [], {});
    PrefixNothing(order);
    ScheduleSize(GraphOf(tasks), order);
    assert forall k :: k in order ==> k in Elements(order);
    TaskPlan(TasksOf(order, tasks, ids, baseline), EdgesOf(order, tasks, ids), baseline,
             SortedList(Invalidated(previous, baseline)))
  }

  ghost predicate SameKey(drafts: seq<TaskDraft>, i: int, j: int, k: string) {
    0 <= i < j < |drafts| && Keys(drafts)[i] == Keys(drafts)[j] == k
  }

  ghost predicate SameMeaning(drafts: seq<TaskDraft>, i: int, j: int) {
    0 <= i < j < |drafts| && SemanticKeys(drafts)[i] == SemanticKeys(drafts)[j]
  }

  /** The first draft that depends on a key nobody drafted, and all such keys, sorted. */
  ghost predicate Unknown(drafts: seq<TaskDraft>, i: int, missing: seq<string>) {
    0 <= i < |drafts| && AllKnown(drafts, i) && missing != [] &&
    missing == SortedKeys(Dependencies(drafts[i]) - ByKey(drafts).Keys)
  }

  /** What each error says about the drafts that raised it. */
  ghost predicate Explains(e: PlanError, drafts: seq<TaskDraft>, userGoal: string) {
    match e
    case EmptyGoal => Blank(userGoal)
    case NoTasks => drafts == []
    case DuplicateKey(k) => exists i, j :: SameKey(drafts, i, j, k)
    case DuplicateTask(first, second) =>
      exists i, j :: SameMeaning(drafts, i, j) && Keys(drafts)[i] == first && Keys(drafts)[j] == second
    case MissingDependencies(k, missing) => exists i :: Unknown(drafts, i, missing) && drafts[i].key == k
    case CycleDetected(_) => Cyclic(GraphOf(ByKey(drafts)))
  }

  method BuildTaskPlan(drafts: seq<TaskDraft>, userGoal: string, idOf: (string, string) -> string,
                       baseline: string, previous: seq<Task>)
    returns (r: Result<TaskPlan, PlanError>)
    requires forall d :: d in drafts ==> ValidDraft(d)
    ensures r.Ok? <==> !Blank(userGoal) && Plannable(drafts)
    ensures r.Ok? ==> WellFiled(ByKey(drafts)) && r.value == PlanOf(ByKey(drafts), idOf, baseline, previous)
    ensures r.Err? ==> Explains(r.error, drafts, userGoal)
  {
    if Blank(userGoal) {
      return Err(EmptyGoal);
    }
    if drafts == [] {
      return Err(NoTasks);
    }
    var filed := FileDrafts(drafts);
    if filed.Err? {
      return Err(filed.error);
    }
    var unknown := CheckDependencies(drafts, filed.value);
    if unknown.Some? {
      return Err(unknown.value);
    }
    ClosedIsWellFiled(drafts);
    var ordered := StableTopologicalOrder(filed.value);
    if ordered.Err? {
      return Err(ordered.error);
    }
    return Ok(PlanOf(filed.value, idOf, baseline, previous));
  }

  /** The first loop: file every draft under its key, refusing repeated keys and meanings. */
  method FileDrafts(drafts: seq<TaskDraft>) returns (r: Result<map<string, TaskDraft>, PlanError>)
    ensures r.Ok? <==> Distinct(Keys(drafts)) && Distinct(SemanticKeys(drafts))
    ensures r.Ok? ==> r.value == ByKey(drafts)
    ensures r.Err? ==> (r.error.DuplicateKey? || r.error.DuplicateTask?) && Explains(r.error, drafts, [])
  {
    var byKey: map<string, TaskDraft> := map[];
    var semantic: map<(string, string), string> := map[];
    var keys, meanings := Keys(drafts), SemanticKeys(drafts);
    for i := 0 to |drafts|
      invariant byKey == ByKey(drafts[..i]) && byKey.Keys == Elements(keys[..i])
      invariant semantic == Meanings(meanings[..i], keys[..i])
      invariant Distinct(keys[..i]) && Distinct(meanings[..i])
    {
      if keys[i] in byKey {
        ghost var j :| 0 <= j < i && keys[j] == keys[i];
        assert SameKey(drafts, j, i, keys[i]);
        return Err(DuplicateKey(keys[i]));
      }
      if meanings[i] in semantic {
        ghost var j := MeaningEntry(meanings[..i], keys[..i], meanings[i]);
        assert SameMeaning(drafts, j, i);
        return Err(DuplicateTask(semantic[meanings[i]], keys[i]));
      }
      NextByKey(drafts, i);
      NextMeaning(meanings, keys, i);
      byKey := byKey[keys[i] := drafts[i]];
      semantic := semantic[meanings[i] := keys[i]];
    }
    assert keys[..|drafts|] == keys && meanings[..|drafts|] == meanings && drafts[..|drafts|] == drafts;
    return Ok(byKey);
  }

  /** The dictionary from meanings to the key that first used them. */
  function Meanings(meanings: seq<(string, string)>, keys: seq<string>): (m: map<(string, string), string>)
    requires |meanings| == |keys|
  {
    if keys == [] then map[] else
    var n := |keys| - 1;
    Meanings(meanings[..n], keys[..n])[meanings[n] := keys[n]]
  }

  lemma {:induction false} MeaningEntry(meanings: seq<(string, string)>, keys: seq<string>, m: (string, string))
    returns (j: nat)
    requires |meanings| == |keys| && m in Meanings(meanings, keys)
    ensures j < |keys| && meanings[j] == m && keys[j] == Meanings(meanings, keys)[m]
  {
    var n := |keys| - 1;
    if meanings[n] == m {
      j := n;
    } else {
      j := MeaningEntry(meanings[..n], keys[..n], m);
    }
  }

  lemma {:induction false} MeaningFiled(meanings: seq<(string, string)>, keys: seq<string>)
    requires |meanings| == |keys|
    ensures forall j :: 0 <= j < |keys| ==> meanings[j] in Meanings(meanings, keys)
  {
    if keys != [] {
      var n := |keys| - 1;
      MeaningFiled(meanings[..n], keys[..n]);
      forall j | 0 <= j < n ensures meanings[j] in Meanings(meanings, keys) {
        assert meanings[..n][j] == meanings[j];
      }
    }
  }

  lemma NextMeaning(meanings: seq<(string, string)>, keys: seq<string>, i: nat)
    requires |meanings| == |keys| && i < |keys|
    ensures Meanings(meanings[..i + 1], keys[..i + 1]) == Meanings(meanings[..i], keys[..i])[meanings[i] := keys[i]]
    ensures meanings[i] !in Meanings(meanings[..i], keys[..i]) && Distinct(meanings[..i]) ==>
              Distinct(meanings[..i + 1])
    ensures Elements(keys[..i + 1]) == Elements(keys[..i]) + {keys[i]}
    ensures keys[i] !in keys[..i] && Distinct(keys[..i]) ==> Distinct(keys[..i + 1])
  {
    assert keys[..i + 1][..i] == keys[..i] && meanings[..i + 1][..i] == meanings[..i];
    assert keys[..i + 1] == keys[..i] + [keys[i]] && meanings[..i + 1] == meanings[..i] + [meanings[i]];
    MeaningFiled(meanings[..i], keys[..i]);
  }

  lemma NextByKey(drafts: seq<TaskDraft>, i: nat)
    requires i < |drafts|
    ensures ByKey(drafts[..i + 1]) == ByKey(drafts[..i])[drafts[i].key := drafts[i]]
  {
    assert drafts[..i + 1] == drafts[..i] + [drafts[i]];
  }

  /** The second loop: the first draft that names a task nobody drafted. */
  method CheckDependencies(drafts: seq<TaskDraft>, byKey: map<string, TaskDraft>)
    returns (r: Option<PlanError>)
    requires byKey == ByKey(drafts) && Distinct(Keys(drafts))
    ensures r.None? <==> Closed(GraphOf(byKey))
    ensures r.Some? ==> r.value.MissingDependencies? && Explains(r.value, drafts, [])
  {
    for i := 0 to |drafts|
      invariant AllKnown(drafts, i)
    {
      var missing := Dependencies(drafts[i]) - byKey.Keys;
      if missing != {} {
        UnknownExplained(drafts, i, missing);
        return Some(MissingDependencies(drafts[i].key, SortedKeys(missing)));
      }
      OneMoreKnown(drafts, i);
    }
    AllKnownIsClosed(drafts);
    return None;
  }

  ghost predicate AllKnown(drafts: seq<TaskDraft>, n: int) {
    forall j :: 0 <= j < n && j < |drafts| ==> Dependencies(drafts[j]) <= ByKey(drafts).Keys
  }

  lemma OneMoreKnown(drafts: seq<TaskDraft>, n: nat)
    requires n < |drafts| && AllKnown(drafts, n) && Dependencies(drafts[n]) - ByKey(drafts).Keys == {}
    ensures AllKnown(drafts, n + 1)
  {
    assert Dependencies(drafts[n]) <= ByKey(drafts).Keys + (Dependencies(drafts[n]) - ByKey(drafts).Keys);
  }

  lemma AllKnownIsClosed(drafts: seq<TaskDraft>)
    requires AllKnown(drafts, |drafts|)
    ensures Closed(GraphOf(ByKey(drafts)))
  {
    forall k | k in ByKey(drafts) ensures GraphOf(ByKey(drafts))[k] <= ByKey(drafts).Keys {
      var i := ByKeyEntry(drafts, k);
    }
  }

  /** Distinct keys in a closed graph: what the rest of the plan relies on. */
  lemma ClosedIsWellFiled(drafts: seq<TaskDraft>)
    requires Closed(GraphOf(ByKey(drafts)))
    ensures WellFiled(ByKey(drafts))
  {
    var tasks := ByKey(drafts);
    forall k | k in tasks
      ensures tasks[k].key == k && forall d :: d in tasks[k].dependsOn ==> d in tasks
    {
      var i := ByKeyEntry(drafts, k);
      assert GraphOf(tasks)[k] <= tasks.Keys;
      assert forall d :: d in tasks[k].dependsOn ==> d in GraphOf(tasks)[k];
    }
  }

  lemma KeyFindsDraft(drafts: seq<TaskDraft>, i: nat)
    requires i < |drafts| && Distinct(Keys(drafts))
    ensures drafts[i].key in ByKey(drafts) && ByKey(drafts)[drafts[i].key] == drafts[i]
  {
    KeyIsFiled(drafts, i);
    var j := ByKeyEntry(drafts, drafts[i].key);
    SameKeyIsSameDraft(drafts, i, j);
  }

  lemma KeyIsFiled(drafts: seq<TaskDraft>, i: nat)
    requires i < |drafts|
    ensures drafts[i].key in ByKey(drafts)
  {
    assert Keys(drafts)[i] in Elements(Keys(drafts));
  }

  lemma SameKeyIsSameDraft(drafts: seq<TaskDraft>, i: nat, j: nat)
    requires i < |drafts| && j < |drafts| && Distinct(Keys(drafts)) && drafts[i].key == drafts[j].key
    ensures i == j
  {
    assert Keys(drafts)[i] == Keys(drafts)[j];
  }

  lemma UnknownExplained(drafts: seq<TaskDraft>, i: nat, missing: set<string>)
    requires i < |drafts| && Distinct(Keys(drafts)) && AllKnown(drafts, i)
    requires missing == Dependencies(drafts[i]) - ByKey(drafts).Keys && missing != {}
    ensures !Closed(GraphOf(ByKey(drafts)))
    ensures Explains(MissingDependencies(drafts[i].key, SortedKeys(missing)), drafts, [])
  {
    KeyFindsDraft(drafts, i);
    assert GraphOf(ByKey(drafts))[drafts[i].key] == Dependencies(drafts[i]);
    assert Unknown(drafts, i, SortedKeys(missing));
  }
}
