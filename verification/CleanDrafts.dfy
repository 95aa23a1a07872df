/** What it means for a draft to validate without findings and without conflicts, and why a plan made
    by the planner is never at fault in its dependencies. */
module CleanDrafts {
  import opened Outcomes
  import opened Ordering
  import opened Text
  import opened DependencyGraph
  import opened TaskPlanning
  import opened CycleCheck
  import opened Validation

  // ----- no findings -----------------------------------------------------------------------------

  predicate CompleteTask(task: Task, known: set<string>) {
    && (forall d :: d in task.dependsOn ==> d in known)
    && (task.dependsOn != [] ==> HasItems(task.details.preconditions))
    && HasItems(task.details.steps) && HasItems(task.details.validationSteps)
    && HasItems(task.details.rollbackSteps) && HasItems(task.details.evidenceRequirements)
  }

  predicate SupportedTask(id: string, evidence: map<string, Evidence>, bindings: map<string, Binding>) {
    && id in bindings && bindings[id].status == Supported
    && forall e :: e in bindings[id].evidenceIds ==> e in evidence
  }

  predicate CleanTask(d: Draft, t: string)
    requires t in TasksById(d.tasks)
  {
    && CompleteTask(TasksById(d.tasks)[t], TasksById(d.tasks).Keys)
    && SupportedTask(t, EvidenceById(d.evidence), BindingsByTask(d.bindings))
  }

  /** A draft a reader can follow: complete tasks, all of them supported by evidence in the registry,
      edges that say exactly what the tasks say, no cycle, and nothing left over from an older plan. */
  ghost predicate CleanDraft(d: Draft) {
    var tasks := TasksById(d.tasks);
    && (forall t :: t in tasks ==> CleanTask(d, t))
    && (tasks != map[] ==> Elements(d.edges) == ExpectedEdges(tasks))
    && !Cyclic(KnownGraph(DependsOn(tasks)))
    && d.invalidated == []
  }

  lemma TaskCleanIff(id: string, task: Task, known: set<string>, evidence: map<string, Evidence>,
                     bindings: map<string, Binding>, isCommand: string -> bool)
    ensures TaskFindings(id, task, known, evidence, bindings, isCommand) == {} <==>
            CompleteTask(task, known) && SupportedTask(id, evidence, bindings)
  {
    ShapeCleanIff(id, task, known);
    if id in bindings {
      BindingCleanIff(id, task, bindings[id], evidence, isCommand);
      var ids := Elements(bindings[id].evidenceIds);
      assert ids <= evidence.Keys <==> forall e :: e in bindings[id].evidenceIds ==> e in evidence;
      EmptyUnion(ShapeFindings(id, task, known), BindingFindings(id, task, bindings[id], evidence, isCommand));
    } else {
      var f := Finding(MissingEvidenceBinding, {id} - {""}, {});
      assert f in TaskFindings(id, task, known, evidence, bindings, isCommand);
    }
  }

  lemma EmptyUnion<T>(a: set<T>, b: set<T>)
    ensures a + b == {} <==> a == {} && b == {}
  {
    if a + b == {} {
      assert a <= a + b && b <= a + b;
    }
  }

  lemma WhenEmpty(c: bool, rule: Rule, task: string, evidence: set<string>)
    ensures When(c, rule, task, evidence) == {} <==> !c
  {
    if c {
      assert Finding(rule, {task} - {""}, evidence) in When(c, rule, task, evidence);
    }
  }

  lemma ShapeCleanIff(id: string, task: Task, known: set<string>)
    ensures ShapeFindings(id, task, known) == {} <==> CompleteTask(task, known)
  {
    var d := task.details;
    var a := When(UnknownDependency(task, known), MissingDependency, id, {});
    var b := When(task.dependsOn != [] && !HasItems(d.preconditions), MissingPreconditions, id, {});
    var c := When(!HasItems(d.steps), MissingSteps, id, {});
    var e := When(!HasItems(d.validationSteps), MissingValidation, id, {});
    var f := When(!HasItems(d.rollbackSteps), MissingRollback, id, {});
    var g := When(!HasItems(d.evidenceRequirements), MissingEvidenceRequirements, id, {});
    WhenEmpty(UnknownDependency(task, known), MissingDependency, id, {});
    WhenEmpty(task.dependsOn != [] && !HasItems(d.preconditions), MissingPreconditions, id, {});
    WhenEmpty(!HasItems(d.steps), MissingSteps, id, {});
    WhenEmpty(!HasItems(d.validationSteps), MissingValidation, id, {});
    WhenEmpty(!HasItems(d.rollbackSteps), MissingRollback, id, {});
    WhenEmpty(!HasItems(d.evidenceRequirements), MissingEvidenceRequirements, id, {});
    EmptyUnion(a, b);
    EmptyUnion(a + b, c);
    EmptyUnion(a + b + c, e);
    EmptyUnion(a + b + c + e, f);
    EmptyUnion(a + b + c + e + f, g);
    assert ShapeFindings(id, task, known) == a + b + c + e + f + g;
  }

  lemma BindingCleanIff(id: string, task: Task, b: Binding, evidence: map<string, Evidence>, isCommand: string -> bool)
    ensures BindingFindings(id, task, b, evidence, isCommand) == {} <==>
            b.status == Supported && Elements(b.evidenceIds) <= evidence.Keys &&
            (task.risk == High || task.risk == Critical ==> HasItems(task.details.rollbackSteps))
  {
    var ids := Elements(b.evidenceIds);
    var commanded := exists s :: s in task.details.steps && !Blank(s) && isCommand(Strip(s));
    var risky := (task.risk == High || task.risk == Critical) && !HasItems(task.details.rollbackSteps);
    WhenEmpty(b.status != Supported, EvidenceCoverage, id, ids);
    WhenEmpty(!(ids <= evidence.Keys), MissingEvidenceReference, id, ids);
    WhenEmpty(commanded && b.status != Supported, CommandWithoutEvidence, id, ids);
    WhenEmpty(risky, HighRiskWithoutRollback, id, {});
    var p, q := When(b.status != Supported, EvidenceCoverage, id, ids),
      When(!(ids <= evidence.Keys), MissingEvidenceReference, id, ids);
    var r, s := When(commanded && b.status != Supported, CommandWithoutEvidence, id, ids),
      When(risky, HighRiskWithoutRollback, id, {});
    EmptyUnion(p, q);
    EmptyUnion(p + q, r);
    EmptyUnion(p + q + r, s);
    assert BindingFindings(id, task, b, evidence, isCommand) == p + q + r + s;
  }

  lemma UnionEmptyIff<T>(m: map<string, set<T>>)
    ensures Union(m, m.Keys) == {} <==> forall k :: k in m ==> m[k] == {}
  {
    assert forall k :: k in m ==> m[k] <= Union(m, m.Keys);
  }

  lemma GraphCleanIff(d: Draft)
    ensures var tasks := TasksById(d.tasks);
            GraphFindings(d) == {} <==>
            (tasks != map[] ==> Elements(d.edges) == ExpectedEdges(tasks)) &&
            !Cyclic(KnownGraph(DependsOn(tasks))) && d.invalidated == []
  {
    var tasks := TasksById(d.tasks);
    var all := tasks.Keys - {""};
    if Elements(d.edges) != ExpectedEdges(tasks) && tasks != map[] {
      assert Finding(DependencyEdgeMismatch, all, {}) in GraphFindings(d);
    }
    if Cyclic(KnownGraph(DependsOn(tasks))) {
      assert Finding(DependencyCycle, all, {}) in GraphFindings(d);
    }
    if d.invalidated != [] {
      assert Finding(InvalidatedTasks, Elements(d.invalidated) - {""}, {}) in GraphFindings(d);
    }
  }

  /** Validation has no finding exactly for the clean drafts. */
  lemma FindingsEmptyIff(d: Draft, isCommand: string -> bool)
    ensures Findings(d, isCommand) == {} <==> CleanDraft(d)
  {
    var tasks, evidence, bindings := TasksById(d.tasks), EvidenceById(d.evidence), BindingsByTask(d.bindings);
    var byTask := FindingsByTask(d, isCommand);
    EmptyUnion(Union(byTask, byTask.Keys), GraphFindings(d));
    UnionEmptyIff(byTask);
    GraphCleanIff(d);
    forall t | t in tasks ensures byTask[t] == {} <==> CleanTask(d, t) {
      TaskCleanIff(t, tasks[t], tasks.Keys, evidence, bindings, isCommand);
    }
  }

  /** A draft without tasks has no finding: validation alone would send it to review. */
  lemma EmptyDraftIsClean(d: Draft, isCommand: string -> bool)
    requires d.tasks == [] && d.invalidated == []
    ensures ReportOf(d, isCommand).conflicts == {} && ReportOf(d, isCommand).findings == {}
  {
    FindingsEmptyIff(d, isCommand);
    var g := KnownGraph(DependsOn(TasksById(d.tasks)));
    forall p ensures !Cycle(g, p) {
      assert |p| >= 2 ==> !Step(g, p[0], p[1]);
    }
    UnionEmptyIff(ConflictsByTask(d));
  }

  // ----- no conflicts ----------------------------------------------------------------------------

  /** The evidence of a task agrees with itself and with what is expected. */
  predicate ScopeAgrees(task: Task, ids: seq<string>, evidence: map<string, Evidence>,
                        context: map<Dimension, string>, m: Dimension)
  {
    forall e, f | e in Scoped(ids, evidence) && f in Scoped(ids, evidence) ::
      PairAgrees(evidence[e], evidence[f], Expected(task, context, m), m)
  }

  predicate PairAgrees(e: Evidence, f: Evidence, expected: Option<string>, m: Dimension) {
    ScopeText(e.scope, m).Some? && ScopeText(f.scope, m).Some? ==>
      && ScopeText(e.scope, m) == ScopeText(f.scope, m)
      && (expected.Some? ==> Fold(ScopeText(e.scope, m).value) == Fold(expected.value))
  }

  predicate EvidenceAgrees(task: Task, ids: seq<string>, evidence: map<string, Evidence>,
                           context: map<Dimension, string>)
  {
    forall m :: m in DIMENSIONS ==> ScopeAgrees(task, ids, evidence, context, m)
  }

  lemma AtMostOne<T>(s: set<T>)
    ensures |s| <= 1 <==> forall x, y :: x in s && y in s ==> x == y
  {
    if s != {} {
      var x :| x in s;
      assert s == {x} + (s - {x}) && |s - {x}| == |s| - 1;
      if |s| > 1 {
        var y :| y in s - {x};
      }
    }
  }

  lemma AgreedMeansOne(task: Task, ids: seq<string>, evidence: map<string, Evidence>,
                       context: map<Dimension, string>, m: Dimension)
    requires ScopeAgrees(task, ids, evidence, context, m)
    ensures Mismatched(ids, evidence, m, Expected(task, context, m)) == {}
    ensures forall x, y :: x in Actual(ids, evidence, m) && y in Actual(ids, evidence, m) ==> x == y
  {
    assert forall e, f | e in Scoped(ids, evidence) && f in Scoped(ids, evidence) ::
        PairAgrees(evidence[e], evidence[f], Expected(task, context, m), m);
  }

  lemma DisagreedMeansMore(task: Task, ids: seq<string>, evidence: map<string, Evidence>,
                           context: map<Dimension, string>, m: Dimension)
    requires !ScopeAgrees(task, ids, evidence, context, m)
    ensures Mismatched(ids, evidence, m, Expected(task, context, m)) != {} ||
      exists x, y :: x in Actual(ids, evidence, m) && y in Actual(ids, evidence, m) && x != y
  {
    var e, f :| e in Scoped(ids, evidence) && f in Scoped(ids, evidence) &&
      !PairAgrees(evidence[e], evidence[f], Expected(task, context, m), m);
    if ScopeText(evidence[e].scope, m) == ScopeText(evidence[f].scope, m) {
      assert e in Mismatched(ids, evidence, m, Expected(task, context, m));
    } else {
      var x, y := ScopeText(evidence[e].scope, m).value, ScopeText(evidence[f].scope, m).value;
      assert x in Actual(ids, evidence, m) && y in Actual(ids, evidence, m) && x != y;
    }
  }

  lemma ConflictAbsentIff(task: Task, ids: seq<string>, evidence: map<string, Evidence>,
                          context: map<Dimension, string>, m: Dimension)
    ensures ConflictAt(task, ids, evidence, context, m) == None <==> ScopeAgrees(task, ids, evidence, context, m)
  {
    AtMostOne(Actual(ids, evidence, m));
    if ScopeAgrees(task, ids, evidence, context, m) {
      AgreedMeansOne(task, ids, evidence, context, m);
    } else {
      DisagreedMeansMore(task, ids, evidence, context, m);
    }
  }

  predicate TaskAgrees(d: Draft, t: string)
    requires t in TasksById(d.tasks)
  {
    EvidenceAgrees(TasksById(d.tasks)[t], EvidenceIdsOf(BindingsByTask(d.bindings), t), EvidenceById(d.evidence),
                   d.context)
  }

  /** There is no conflict exactly when all bound evidence agrees in every dimension. */
  lemma ConflictsEmptyIff(d: Draft)
    ensures Conflicts(d) == {} <==> forall t :: t in TasksById(d.tasks) ==> TaskAgrees(d, t)
  {
    UnionEmptyIff(ConflictsByTask(d));
    forall t | t in TasksById(d.tasks)
      ensures ConflictsByTask(d)[t] == {} <==> TaskAgrees(d, t)
    {
      OneTaskAgrees(d, t);
    }
  }

  lemma OneTaskAgrees(d: Draft, t: string)
    requires t in TasksById(d.tasks)
    ensures ConflictsByTask(d)[t] == {} <==> TaskAgrees(d, t)
  {
    TaskConflictsEmptyIff(TasksById(d.tasks)[t], EvidenceIdsOf(BindingsByTask(d.bindings), t),
                          EvidenceById(d.evidence), d.context);
  }

  lemma TaskConflictsEmptyIff(task: Task, ids: seq<string>, evidence: map<string, Evidence>,
                              context: map<Dimension, string>)
    ensures ConflictsOf(task, ids, evidence, context) == {} <==> EvidenceAgrees(task, ids, evidence, context)
  {
    forall m | m in DIMENSIONS
      ensures ConflictAt(task, ids, evidence, context, m) == None <==> ScopeAgrees(task, ids, evidence, context, m)
      ensures ConflictAt(task, ids, evidence, context, m).Some? ==>
                ConflictAt(task, ids, evidence, context, m).value in ConflictsOf(task, ids, evidence, context)
    {
      ConflictAbsentIff(task, ids, evidence, context, m);
    }
  }
}
