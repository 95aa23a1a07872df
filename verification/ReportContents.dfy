/** What a validation report says, finding by finding and conflict by conflict
    (src/agents/services/validation_service.py). */
module ReportContents {
  import opened Outcomes
  import opened Ordering
  import opened Text
  import opened DependencyGraph
  import opened TaskPlanning
  import opened CycleCheck
  import opened Validation
  import opened CleanDrafts

  /** The rules whose finding names the evidence of the binding. */
  predicate CitesEvidence(rule: Rule) {
    rule.EvidenceCoverage? || rule.MissingEvidenceReference? || rule.CommandWithoutEvidence?
  }

  predicate RunsCommand(task: Task, isCommand: string -> bool) {
    exists s :: s in task.details.steps && !Blank(s) && isCommand(Strip(s))
  }

  /** There is nothing but blanks in the list. */
  predicate SaysNothing(values: seq<string>) {
    forall v :: v in values ==> Strip(v) == ""
  }

  lemma SaysNothingIff(values: seq<string>)
    ensures SaysNothing(values) <==> !HasItems(values)
  {
    if HasItems(values) {
      var i :| 0 <= i < |values| && !Blank(values[i]);
      assert values[i] in values;
    }
  }

  predicate WaitsForUnknown(task: Task, known: set<string>) {
    exists d :: d in task.dependsOn && d !in known
  }

  predicate CitesUnknown(b: Binding, evidence: map<string, Evidence>) {
    exists e :: e in b.evidenceIds && e !in evidence
  }

  predicate Risky(task: Task) {
    (task.risk == High || task.risk == Critical) && SaysNothing(task.details.rollbackSteps)
  }

  /** The task itself breaks the rule. */
  predicate TaskBreaks(rule: Rule, task: Task, known: set<string>) {
    match rule
    case MissingDependency => WaitsForUnknown(task, known)
    case MissingPreconditions => task.dependsOn != [] && SaysNothing(task.details.preconditions)
    case MissingSteps => SaysNothing(task.details.steps)
    case MissingValidation => SaysNothing(task.details.validationSteps)
    case MissingRollback => SaysNothing(task.details.rollbackSteps)
    case MissingEvidenceRequirements => SaysNothing(task.details.evidenceRequirements)
    case _ => false
  }

  /** The task breaks the rule with what it is bound to. */
  predicate BindingBreaks(rule: Rule, task: Task, b: Binding, evidence: map<string, Evidence>,
                          isCommand: string -> bool)
  {
    match rule
    case EvidenceCoverage => b.status != Supported
    case MissingEvidenceReference => CitesUnknown(b, evidence)
    case CommandWithoutEvidence => b.status != Supported && RunsCommand(task, isCommand)
    case HighRiskWithoutRollback => Risky(task)
    case _ => false
  }

  /** The finding of one rule about one task. */
  predicate Reports(f: Finding, id: string, task: Task, known: set<string>, evidence: map<string, Evidence>,
                    bindings: map<string, Binding>, isCommand: string -> bool)
  {
    && f.tasks == (if id == "" then {} else {id})
    && if id in bindings && BindingBreaks(f.rule, task, bindings[id], evidence, isCommand) then
         f.evidence == if CitesEvidence(f.rule) then Elements(bindings[id].evidenceIds) else {}
       else
         f.evidence == {} &&
         (TaskBreaks(f.rule, task, known) || (f.rule == MissingEvidenceBinding && id !in bindings))
  }

  lemma WhenIs(c: bool, rule: Rule, task: string, evidence: set<string>, f: Finding)
    ensures f in When(c, rule, task, evidence) <==>
      c && f.rule == rule && f.tasks == (if task == "" then {} else {task}) && f.evidence == evidence
  {
    assert {task} - {""} == if task == "" then {} else {task};
  }

  lemma ShapeFindingsAre(f: Finding, id: string, task: Task, known: set<string>)
    ensures f in ShapeFindings(id, task, known) <==>
      TaskBreaks(f.rule, task, known) && f.tasks == (if id == "" then {} else {id}) && f.evidence == {}
  {
    var d := task.details;
    SaysNothingIff(d.preconditions);
    SaysNothingIff(d.steps);
    SaysNothingIff(d.validationSteps);
    SaysNothingIff(d.rollbackSteps);
    SaysNothingIff(d.evidenceRequirements);
    assert UnknownDependency(task, known) == WaitsForUnknown(task, known);
    WhenIs(WaitsForUnknown(task, known), MissingDependency, id, {}, f);
    WhenIs(task.dependsOn != [] && !HasItems(d.preconditions), MissingPreconditions, id, {}, f);
    WhenIs(!HasItems(d.steps), MissingSteps, id, {}, f);
    WhenIs(!HasItems(d.validationSteps), MissingValidation, id, {}, f);
    WhenIs(!HasItems(d.rollbackSteps), MissingRollback, id, {}, f);
    WhenIs(!HasItems(d.evidenceRequirements), MissingEvidenceRequirements, id, {}, f);
  }

  lemma BindingFindingsAre(f: Finding, id: string, task: Task, b: Binding, evidence: map<string, Evidence>,
                           isCommand: string -> bool)
    ensures f in BindingFindings(id, task, b, evidence, isCommand) <==>
      && BindingBreaks(f.rule, task, b, evidence, isCommand) && f.tasks == (if id == "" then {} else {id})
      && f.evidence == if CitesEvidence(f.rule) then Elements(b.evidenceIds) else {}
  {
    var ids := Elements(b.evidenceIds);
    var cited, commanded := CitesUnknown(b, evidence), RunsCommand(task, isCommand);
    UnknownIds(b, evidence);
    SaysNothingIff(task.details.rollbackSteps);
    assert BindingFindings(id, task, b, evidence, isCommand) ==
      FourRules(id, ids, b.status != Supported, cited, commanded && b.status != Supported, Risky(task));
    FourRulesAre(f, id, ids, b.status != Supported, cited, commanded && b.status != Supported, Risky(task));
  }

  function FourRules(id: string, ids: set<string>, uncovered: bool, cited: bool, commanded: bool, risky: bool)
    : set<Finding>
  {
    When(uncovered, EvidenceCoverage, id, ids) + When(cited, MissingEvidenceReference, id, ids) +
    When(commanded, CommandWithoutEvidence, id, ids) + When(risky, HighRiskWithoutRollback, id, {})
  }

  lemma FourRulesAre(f: Finding, id: string, ids: set<string>, uncovered: bool, cited: bool, commanded: bool,
                     risky: bool)
    ensures f in FourRules(id, ids, uncovered, cited, commanded, risky) <==>
      && f.tasks == (if id == "" then {} else {id}) && f.evidence == (if CitesEvidence(f.rule) then ids else {})
      && match f.rule
         case EvidenceCoverage => uncovered
         case MissingEvidenceReference => cited
         case CommandWithoutEvidence => commanded
         case HighRiskWithoutRollback => risky
         case _ => false
  {
    WhenIs(uncovered, EvidenceCoverage, id, ids, f);
    WhenIs(cited, MissingEvidenceReference, id, ids, f);
    WhenIs(commanded, CommandWithoutEvidence, id, ids, f);
    WhenIs(risky, HighRiskWithoutRollback, id, {}, f);
  }

  lemma UnknownIds(b: Binding, evidence: map<string, Evidence>)
    ensures CitesUnknown(b, evidence) <==> !(Elements(b.evidenceIds) <= evidence.Keys)
  {
    assert forall e :: e in Elements(b.evidenceIds) <==> e in b.evidenceIds;
  }

  /** A task is reported for exactly the rules it breaks, each by itself. */
  lemma TaskFindingsAre(f: Finding, id: string, task: Task, known: set<string>, evidence: map<string, Evidence>,
                        bindings: map<string, Binding>, isCommand: string -> bool)
    ensures f in TaskFindings(id, task, known, evidence, bindings, isCommand) <==>
      Reports(f, id, task, known, evidence, bindings, isCommand)
  {
    ShapeFindingsAre(f, id, task, known);
    if id in bindings {
      BindingFindingsAre(f, id, task, bindings[id], evidence, isCommand);
    } else {
      WhenIs(true, MissingEvidenceBinding, id, {}, f);
    }
  }

  ghost predicate ReportsGraph(f: Finding, d: Draft) {
    var tasks := TasksById(d.tasks);
    match f.rule
    case DependencyEdgeMismatch =>
      tasks != map[] && Elements(d.edges) != ExpectedEdges(tasks) && f == Finding(f.rule, tasks.Keys - {""}, {})
    case DependencyCycle => Cyclic(KnownGraph(DependsOn(tasks))) && f == Finding(f.rule, tasks.Keys - {""}, {})
    case InvalidatedTasks => d.invalidated != [] && f == Finding(f.rule, Elements(d.invalidated) - {""}, {})
    case _ => false
  }

  ghost predicate ReportsTask(f: Finding, d: Draft, isCommand: string -> bool, t: string)
    requires t in TasksById(d.tasks)
  {
    Reports(f, t, TasksById(d.tasks)[t], TasksById(d.tasks).Keys, EvidenceById(d.evidence), BindingsByTask(d.bindings),
            isCommand)
  }

  /** The findings of a draft: one for every rule that a task breaks, and one for every rule that the graph breaks. */
  lemma FindingsAre(d: Draft, isCommand: string -> bool, f: Finding)
    ensures f in ReportOf(d, isCommand).findings <==>
      (exists t :: t in TasksById(d.tasks) && ReportsTask(f, d, isCommand, t)) || ReportsGraph(f, d)
  {
    var tasks, byTask := TasksById(d.tasks), FindingsByTask(d, isCommand);
    forall t | t in tasks ensures f in byTask[t] <==> ReportsTask(f, d, isCommand, t) {
      TaskFindingsAre(f, t, tasks[t], tasks.Keys, EvidenceById(d.evidence), BindingsByTask(d.bindings), isCommand);
    }
    GraphFindingsAre(d, f);
    assert f in Union(byTask, byTask.Keys) <==> exists t :: t in tasks && f in byTask[t];
  }

  lemma GraphFindingsAre(d: Draft, f: Finding)
    ensures f in GraphFindings(d) <==> ReportsGraph(f, d)
  {
  }

  // ----- conflicts -----------------------------------------------------------------------------------------

  /** What is declared for a dimension, without blanks around it; nothing when it is absent or blank. */
  function Declared(scope: map<Dimension, string>, m: Dimension): string {
    if m in scope then Strip(scope[m]) else ""
  }

  /** What the evidence of a task should declare: the area of the task, or what was confirmed. */
  function Wanted(task: Task, context: map<Dimension, string>, m: Dimension): string {
    if m == Area then Strip(task.area) else Declared(context, m)
  }

  /** Two pieces declare different values. */
  predicate Differ(e: Evidence, f: Evidence, m: Dimension) {
    Declared(e.scope, m) != "" && Declared(f.scope, m) != "" && Declared(e.scope, m) != Declared(f.scope, m)
  }

  /** A piece declares another value than it should, apart from its case. */
  predicate Elsewhere(e: Evidence, wanted: string, m: Dimension) {
    Declared(e.scope, m) != "" && wanted != "" && Fold(Declared(e.scope, m)) != Fold(wanted)
  }

  ghost predicate AnyDiffer(ids: seq<string>, evidence: map<string, Evidence>, m: Dimension) {
    exists e, f :: e in ids && f in ids && e in evidence && f in evidence && Differ(evidence[e], evidence[f], m)
  }

  function AllElsewhere(ids: seq<string>, evidence: map<string, Evidence>, wanted: string, m: Dimension): set<string> {
    set e | e in ids && e in evidence && Elsewhere(evidence[e], wanted, m)
  }

  /** The evidence to look at: all that the task is bound to when it disagrees with itself, otherwise what is from
      elsewhere. */
  ghost function Disputed(task: Task, ids: seq<string>, evidence: map<string, Evidence>,
                          context: map<Dimension, string>, m: Dimension): set<string>
  {
    if AnyDiffer(ids, evidence, m) then Elements(ids) else AllElsewhere(ids, evidence, Wanted(task, context, m), m)
  }

  lemma DeclaredIs(scope: map<Dimension, string>, m: Dimension)
    ensures ScopeText(scope, m) == if Declared(scope, m) == "" then None else Some(Declared(scope, m))
  {
  }

  lemma WantedIs(task: Task, context: map<Dimension, string>, m: Dimension)
    ensures Expected(task, context, m) ==
      if Wanted(task, context, m) == "" then None else Some(Wanted(task, context, m))
  {
    DeclaredIs(context, m);
  }

  lemma MismatchedIs(task: Task, ids: seq<string>, evidence: map<string, Evidence>, context: map<Dimension, string>,
                     m: Dimension)
    ensures Mismatched(ids, evidence, m, Expected(task, context, m)) ==
      AllElsewhere(ids, evidence, Wanted(task, context, m), m)
  {
    WantedIs(task, context, m);
    forall e | e in ids && e in evidence
      ensures e in Mismatched(ids, evidence, m, Expected(task, context, m)) <==>
        Elsewhere(evidence[e], Wanted(task, context, m), m)
    {
      DeclaredIs(evidence[e].scope, m);
    }
  }

  lemma ActualIs(ids: seq<string>, evidence: map<string, Evidence>, m: Dimension, x: string)
    ensures x in Actual(ids, evidence, m) <==>
      x != "" && exists e :: e in ids && e in evidence && Declared(evidence[e].scope, m) == x
  {
    if x in Actual(ids, evidence, m) {
      var e :| e in Scoped(ids, evidence) && ScopeText(evidence[e].scope, m) == Some(x);
      DeclaredIs(evidence[e].scope, m);
    }
    if x != "" {
      if e :| e in ids && e in evidence && Declared(evidence[e].scope, m) == x {
        DeclaredIs(evidence[e].scope, m);
        assert e in Scoped(ids, evidence);
      }
    }
  }

  lemma MoreThanOneIff(ids: seq<string>, evidence: map<string, Evidence>, m: Dimension)
    ensures |Actual(ids, evidence, m)| > 1 <==> AnyDiffer(ids, evidence, m)
  {
    var actual := Actual(ids, evidence, m);
    AtMostOne(actual);
    if x, y :| x in actual && y in actual && x != y {
      ActualIs(ids, evidence, m, x);
      ActualIs(ids, evidence, m, y);
      var e :| e in ids && e in evidence && Declared(evidence[e].scope, m) == x;
      var f :| f in ids && f in evidence && Declared(evidence[f].scope, m) == y;
      assert Differ(evidence[e], evidence[f], m);
    }
    if e, f :| e in ids && f in ids && e in evidence && f in evidence && Differ(evidence[e], evidence[f], m) {
      ActualIs(ids, evidence, m, Declared(evidence[e].scope, m));
      ActualIs(ids, evidence, m, Declared(evidence[f].scope, m));
    }
  }

  /** A dimension is in conflict exactly when there is something to look at. */
  lemma ConflictIs(task: Task, ids: seq<string>, evidence: map<string, Evidence>, context: map<Dimension, string>,
                   m: Dimension)
    ensures var disputed := Disputed(task, ids, evidence, context, m);
      ConflictAt(task, ids, evidence, context, m) ==
        if disputed == {} then None else Some(Conflict(m, task.taskId, disputed))
  {
    MoreThanOneIff(ids, evidence, m);
    MismatchedIs(task, ids, evidence, context, m);
    if e, f :| e in ids && f in ids && e in evidence && f in evidence && Differ(evidence[e], evidence[f], m) {
      assert e in Elements(ids);
    }
  }

  /** The evidence that the task is bound to. */
  function BoundTo(d: Draft, t: string): seq<string> {
    if t in BindingsByTask(d.bindings) then BindingsByTask(d.bindings)[t].evidenceIds else []
  }

  /** The evidence of the task is in conflict in this dimension, and the conflict names the evidence to look at. */
  ghost predicate ReportsConflict(c: Conflict, d: Draft, t: string)
    requires t in TasksById(d.tasks)
  {
    var task := TasksById(d.tasks)[t];
    && c.taskId == task.taskId && c.evidence != {}
    && c.evidence == Disputed(task, BoundTo(d, t), EvidenceById(d.evidence), d.context, c.dimension)
  }

  /** The conflicts of a draft: one for every task and every dimension in which its evidence is in conflict. */
  lemma ConflictsAre(d: Draft, isCommand: string -> bool, c: Conflict)
    ensures c in ReportOf(d, isCommand).conflicts <==> exists t :: t in TasksById(d.tasks) && ReportsConflict(c, d, t)
  {
    var tasks, byTask := TasksById(d.tasks), ConflictsByTask(d);
    forall t | t in tasks ensures c in byTask[t] <==> ReportsConflict(c, d, t) {
      OneTaskConflicts(d, c, t);
    }
    assert c in Union(byTask, byTask.Keys) <==> exists t :: t in tasks && c in byTask[t];
  }

  lemma OneTaskConflicts(d: Draft, c: Conflict, t: string)
    requires t in TasksById(d.tasks)
    ensures c in ConflictsByTask(d)[t] <==> ReportsConflict(c, d, t)
  {
    var task, evidence := TasksById(d.tasks)[t], EvidenceById(d.evidence);
    ConflictIs(task, BoundTo(d, t), evidence, d.context, c.dimension);
    TaskConflictsAre(task, BoundTo(d, t), evidence, d.context, c);
  }

  lemma TaskConflictsAre(task: Task, ids: seq<string>, evidence: map<string, Evidence>,
                         context: map<Dimension, string>, c: Conflict)
    ensures c in ConflictsOf(task, ids, evidence, context) <==>
      ConflictAt(task, ids, evidence, context, c.dimension) == Some(c)
  {
    EveryDimension(c.dimension);
  }

  lemma EveryDimension(m: Dimension)
    ensures m in DIMENSIONS
  {
    assert DIMENSIONS == [ProductVersion, Site, Environment, Area];
  }
}
