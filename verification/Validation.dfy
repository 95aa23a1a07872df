/** Deterministic validation of a drafted configuration (src/agents/services/validation_service.py). */
module Validation {
  import opened Outcomes
  import opened Ordering
  import opened Text
  import opened DependencyGraph
  import opened TaskPlanning
  import opened CycleCheck

  datatype EvidenceStatus = Supported | Partial | Unsupported | EnvironmentVerified

  /** The scope a piece of evidence, or the confirmed context, declares. */
  datatype Dimension = ProductVersion | Site | Environment | Area

  datatype Evidence = Evidence(id: string, scope: map<Dimension, string>)

  datatype Query = Query(requirement: string, text: string)

  datatype Binding = Binding(
    taskId: string, queries: seq<Query>, evidenceIds: seq<string>, status: EvidenceStatus, gaps: seq<string>)

  /** The part of the session state that validation reads. */
  datatype Draft = Draft(
    tasks: seq<Task>, edges: seq<Edge>, evidence: seq<Evidence>, bindings: seq<Binding>,
    context: map<Dimension, string>, invalidated: seq<string>)

  datatype Rule =
    | MissingDependency | MissingPreconditions | MissingSteps | MissingValidation | MissingRollback
    | MissingEvidenceRequirements | MissingEvidenceBinding | EvidenceCoverage | MissingEvidenceReference
    | CommandWithoutEvidence | HighRiskWithoutRollback
    | DependencyEdgeMismatch | DependencyCycle | InvalidatedTasks

  /** Every finding and every conflict the service makes is blocking. */
  datatype Finding = Finding(rule: Rule, tasks: set<string>, evidence: set<string>)

  datatype Conflict = Conflict(dimension: Dimension, taskId: string, evidence: set<string>)

  datatype Report = Report(conflicts: set<Conflict>, findings: set<Finding>, targeted: map<string, seq<string>>) {
    predicate Blocking() {
      conflicts != {} || findings != {}
    }
  }

  // ----- dictionaries by identifier: a later item replaces an earlier one ------------------------

  function TasksById(tasks: seq<Task>): map<string, Task> {
    if tasks == [] then map[] else
    var last := tasks[|tasks| - 1];
    TasksById(tasks[..|tasks| - 1])[last.taskId := last]
  }

  function EvidenceById(evidence: seq<Evidence>): map<string, Evidence> {
    if evidence == [] then map[] else
    var last := evidence[|evidence| - 1];
    EvidenceById(evidence[..|evidence| - 1])[last.id := last]
  }

  function BindingsByTask(bindings: seq<Binding>): map<string, Binding> {
    if bindings == [] then map[] else
    var last := bindings[|bindings| - 1];
    BindingsByTask(bindings[..|bindings| - 1])[last.taskId := last]
  }

  /** `_items`: whether a list holds anything but blanks. */
  predicate HasItems(values: seq<string>) {
    exists i :: 0 <= i < |values| && !Blank(values[i])
  }

  /** `_text` of a scope value: None when absent or blank. */
  function ScopeText(scope: map<Dimension, string>, d: Dimension): Option<string> {
    if d in scope && !Blank(scope[d]) then Some(Strip(scope[d])) else None
  }

  // ----- conflicts -------------------------------------------------------------------------------

  function Expected(task: Task, context: map<Dimension, string>, d: Dimension): Option<string> {
    if d == Area then if Blank(task.area) then None else Some(Strip(task.area)) else ScopeText(context, d)
  }

  /** The evidence a binding names that the registry knows. */
  function Scoped(ids: seq<string>, evidence: map<string, Evidence>): set<string> {
    set id | id in ids && id in evidence
  }

  function Actual(ids: seq<string>, evidence: map<string, Evidence>, d: Dimension): set<string> {
    set id | id in Scoped(ids, evidence) && ScopeText(evidence[id].scope, d).Some? ::
      ScopeText(evidence[id].scope, d).value
  }

  function Mismatched(ids: seq<string>, evidence: map<string, Evidence>, d: Dimension, expected: Option<string>)
    : set<string>
  {
    set id | id in Scoped(ids, evidence) && ScopeText(evidence[id].scope, d).Some? && expected.Some? &&
      Fold(ScopeText(evidence[id].scope, d).value) != Fold(expected.value)
  }

  /** The conflict of one task in one dimension, if there is one. */
  function ConflictAt(task: Task, ids: seq<string>, evidence: map<string, Evidence>,
                      context: map<Dimension, string>, d: Dimension): Option<Conflict>
  {
    var actual := Actual(ids, evidence, d);
    var mismatched := Mismatched(ids, evidence, d, Expected(task, context, d));
    if |actual| > 1 then Some(Conflict(d, task.taskId, Elements(ids)))
    else if mismatched != {} then Some(Conflict(d, task.taskId, mismatched))
    else None
  }

  function EvidenceIdsOf(bindings: map<string, Binding>, taskId: string): seq<string> {
    if taskId in bindings then bindings[taskId].evidenceIds else []
  }

  const DIMENSIONS: seq<Dimension> := [ProductVersion, Site, Environment, Area]

  /** Everything the values of a map contain. */
  function Union<T>(m: map<string, set<T>>, keys: set<string>): set<T> {
    set k, x | k in keys && k in m && x in m[k] :: x
  }

  lemma UnionGrows<T>(m: map<string, set<T>>, all: set<string>, todo: set<string>, k: string)
    requires k in todo && todo <= all && k in m
    ensures Union(m, all - (todo - {k})) == Union(m, all - todo) + m[k]
  {
    assert all - (todo - {k}) == (all - todo) + {k};
  }

  /** The conflicts of a task in some dimensions. */
  function ConflictsIn(task: Task, ids: seq<string>, evidence: map<string, Evidence>, context: map<Dimension, string>,
                       dimensions: seq<Dimension>): set<Conflict>
  {
    set m | m in dimensions && ConflictAt(task, ids, evidence, context, m).Some? ::
      ConflictAt(task, ids, evidence, context, m).value
  }

  function ConflictsOf(task: Task, ids: seq<string>, evidence: map<string, Evidence>, context: map<Dimension, string>)
    : set<Conflict>
  {
    ConflictsIn(task, ids, evidence, context, DIMENSIONS)
  }

  lemma OneMoreDimension(task: Task, ids: seq<string>, evidence: map<string, Evidence>, context: map<Dimension, string>,
                         dimensions: seq<Dimension>, m: Dimension)
    ensures var c := ConflictAt(task, ids, evidence, context, m);
      ConflictsIn(task, ids, evidence, context, dimensions + [m]) ==
        ConflictsIn(task, ids, evidence, context, dimensions) + if c.Some? then {c.value} else {}
  {
    assert forall d :: d in dimensions + [m] <==> d in dimensions || d == m;
  }

  function ConflictsByTask(d: Draft): map<string, set<Conflict>> {
    var tasks, evidence, bindings := TasksById(d.tasks), EvidenceById(d.evidence), BindingsByTask(d.bindings);
    map t | t in tasks :: ConflictsOf(tasks[t], EvidenceIdsOf(bindings, t), evidence, d.context)
  }

  function Conflicts(d: Draft): set<Conflict> {
    Union(ConflictsByTask(d), ConflictsByTask(d).Keys)
  }

  /** `_conflicts`: every task in every dimension. */
  method FindConflicts(d: Draft) returns (conflicts: set<Conflict>)
    ensures conflicts == Conflicts(d)
  {
    var tasks, evidence, bindings := TasksById(d.tasks), EvidenceById(d.evidence), BindingsByTask(d.bindings);
    ghost var byTask := ConflictsByTask(d);
    conflicts := {};
    var todo := tasks.Keys;
    while todo != {}
      invariant todo <= tasks.Keys && conflicts == Union(byTask, tasks.Keys - todo)
      decreases |todo|
    {
      var id := Least(todo);
      var one := TaskConflicts(tasks[id], EvidenceIdsOf(bindings, id), evidence, d.context);
      UnionGrows(byTask, tasks.Keys, todo, id);
      conflicts := conflicts + one;
      todo := todo - {id};
    }
    assert tasks.Keys - {} == byTask.Keys;
  }

  method TaskConflicts(task: Task, ids: seq<string>, evidence: map<string, Evidence>, context: map<Dimension, string>)
    returns (conflicts: set<Conflict>)
    ensures conflicts == ConflictsOf(task, ids, evidence, context)
  {
    conflicts := {};
    for j := 0 to |DIMENSIONS|
      invariant conflicts == ConflictsIn(task, ids, evidence, context, DIMENSIONS[..j])
    {
      var c := ConflictAt(task, ids, evidence, context, DIMENSIONS[j]);
      OneMoreDimension(task, ids, evidence, context, DIMENSIONS[..j], DIMENSIONS[j]);
      assert DIMENSIONS[..j + 1] == DIMENSIONS[..j] + [DIMENSIONS[j]];
      if c.Some? {
        conflicts := conflicts + {c.value};
      }
    }
    assert DIMENSIONS[..|DIMENSIONS|] == DIMENSIONS;
  }

  // ----- findings --------------------------------------------------------------------------------

  function When(c: bool, rule: Rule, task: string, evidence: set<string>): set<Finding> {
    if c then {Finding(rule, {task} - {""}, evidence)} else {}
  }

  predicate UnknownDependency(task: Task, known: set<string>) {
    exists d :: d in task.dependsOn && d !in known
  }

  /** The rules that read the task alone. */
  function ShapeFindings(id: string, task: Task, known: set<string>): set<Finding> {
    var d := task.details;
    When(UnknownDependency(task, known), MissingDependency, id, {})
    + When(task.dependsOn != [] && !HasItems(d.preconditions), MissingPreconditions, id, {})
    + When(!HasItems(d.steps), MissingSteps, id, {})
    + When(!HasItems(d.validationSteps), MissingValidation, id, {})
    + When(!HasItems(d.rollbackSteps), MissingRollback, id, {})
    + When(!HasItems(d.evidenceRequirements), MissingEvidenceRequirements, id, {})
  }

  /** The rules that read the task with its evidence binding. */
  function BindingFindings(id: string, task: Task, b: Binding, evidence: map<string, Evidence>,
                           isCommand: string -> bool): set<Finding>
  {
    var ids := Elements(b.evidenceIds);
    When(b.status != Supported, EvidenceCoverage, id, ids)
    + When(!(ids <= evidence.Keys), MissingEvidenceReference, id, ids)
    + When((exists s :: s in task.details.steps && !Blank(s) && isCommand(Strip(s))) && b.status != Supported,
           CommandWithoutEvidence, id, ids)
    + When((task.risk == High || task.risk == Critical) && !HasItems(task.details.rollbackSteps),
           HighRiskWithoutRollback, id, {})
  }

  function TaskFindings(id: string, task: Task, known: set<string>, evidence: map<string, Evidence>,
                        bindings: map<string, Binding>, isCommand: string -> bool): set<Finding>
  {
    ShapeFindings(id, task, known) +
    if id in bindings then BindingFindings(id, task, bindings[id], evidence, isCommand)
    else When(true, MissingEvidenceBinding, id, {})
  }

  function ExpectedEdges(tasks: map<string, Task>): set<Edge> {
    set t, d | t in tasks && d in tasks[t].dependsOn :: Edge(d, t)
  }

  function DependsOn(tasks: map<string, Task>): map<string, seq<string>> {
    map t | t in tasks :: tasks[t].dependsOn
  }

  /** The rules about the task graph as a whole. */
  ghost function GraphFindings(d: Draft): set<Finding> {
    var tasks := TasksById(d.tasks);
    var all := tasks.Keys - {""};
    (if Elements(d.edges) != ExpectedEdges(tasks) && tasks != map[]
     then {Finding(DependencyEdgeMismatch, all, {})} else {})
    + (if Cyclic(KnownGraph(DependsOn(tasks))) then {Finding(DependencyCycle, all, {})} else {})
    + (if d.invalidated != [] then {Finding(InvalidatedTasks, Elements(d.invalidated) - {""}, {})} else {})
  }

  function FindingsByTask(d: Draft, isCommand: string -> bool): map<string, set<Finding>> {
    var tasks, evidence, bindings := TasksById(d.tasks), EvidenceById(d.evidence), BindingsByTask(d.bindings);
    map t | t in tasks :: TaskFindings(t, tasks[t], tasks.Keys, evidence, bindings, isCommand)
  }

  ghost function Findings(d: Draft, isCommand: string -> bool): set<Finding> {
    var byTask := FindingsByTask(d, isCommand);
    Union(byTask, byTask.Keys) + GraphFindings(d)
  }

  /** `_findings`: the rules for every task, then the rules for the graph. */
  method FindFindings(d: Draft, isCommand: string -> bool) returns (findings: set<Finding>)
    ensures findings == Findings(d, isCommand)
  {
    var tasks, evidence, bindings := TasksById(d.tasks), EvidenceById(d.evidence), BindingsByTask(d.bindings);
    ghost var byTask := FindingsByTask(d, isCommand);
    findings := {};
    var todo := tasks.Keys;
    while todo != {}
      invariant todo <= tasks.Keys && findings == Union(byTask, tasks.Keys - todo)
      decreases |todo|
    {
      var id :| id in todo;
      UnionGrows(byTask, tasks.Keys, todo, id);
      findings := findings + TaskFindings(id, tasks[id], tasks.Keys, evidence, bindings, isCommand);
      todo := todo - {id};
    }
    assert tasks.Keys - {} == byTask.Keys;
    var graph := FindGraphFindings(d);
    findings := findings + graph;
  }

  method FindGraphFindings(d: Draft) returns (findings: set<Finding>)
    ensures findings == GraphFindings(d)
  {
    var tasks := TasksById(d.tasks);
    var all := tasks.Keys - {""};
    findings := {};
    if Elements(d.edges) != ExpectedEdges(tasks) && tasks != map[] {
      findings := findings + {Finding(DependencyEdgeMismatch, all, {})};
    }
    var cyclic := HasCycle(DependsOn(tasks));
    if cyclic {
      findings := findings + {Finding(DependencyCycle, all, {})};
    }
    if d.invalidated != [] {
      findings := findings + {Finding(InvalidatedTasks, Elements(d.invalidated) - {""}, {})};
    }
  }

  // ----- targeted requirements -------------------------------------------------------------------

  /** The nonblank requirements a binding was queried for. */
  function Available(b: Binding): set<string> {
    set q | q in b.queries && !Blank(q.requirement) :: Strip(q.requirement)
  }

  /** The requirements a gap of the binding mentions, or all of them when no gap mentions any. */
  function TargetOf(b: Binding): seq<string> {
    var selected := set r | r in Available(b) && exists g :: g in b.gaps && Contains(g, r);
    SortedKeys(if selected != {} then selected else Available(b))
  }

  function Targeted(bindings: map<string, Binding>): map<string, seq<string>> {
    map t | t in bindings && bindings[t].status != Supported && Available(bindings[t]) != {} :: TargetOf(bindings[t])
  }

  ghost function ReportOf(d: Draft, isCommand: string -> bool): Report {
    Report(Conflicts(d), Findings(d, isCommand), Targeted(BindingsByTask(d.bindings)))
  }

  method Validate(d: Draft, isCommand: string -> bool) returns (r: Report)
    ensures r == ReportOf(d, isCommand)
  {
    var conflicts := FindConflicts(d);
    var findings := FindFindings(d, isCommand);
    r := Report(conflicts, findings, Targeted(BindingsByTask(d.bindings)));
  }
}
