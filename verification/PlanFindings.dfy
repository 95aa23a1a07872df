/** No plan of the planner is ever found at fault in its dependencies, its edges or a cycle: the
    tasks by identifier form the graph of the drafts by key, renamed. */
module PlanFindings {
  import opened Ordering
  import opened DependencyGraph
  import opened TaskPlanning
  import opened CycleCheck
  import V = Validation

  /** Distinct keys and areas have distinct identifiers, as a collision-free hash gives them. */
  ghost predicate Injective(idOf: (string, string) -> string) {
    forall a, b, c, d :: idOf(a, b) == idOf(c, d) ==> a == c && b == d
  }

  ghost predicate OneToOne(ids: map<string, string>) {
    forall k, l :: k in ids && l in ids && ids[k] == ids[l] ==> k == l
  }

  function Rename(ids: map<string, string>, keys: set<string>): set<string> {
    set k | k in keys && k in ids :: ids[k]
  }

  /** The graph of the tasks of `order`, with identifiers for keys. */
  function RenamedGraph(g: Graph, ids: map<string, string>, order: seq<string>): (h: Graph)
    requires g.Keys <= ids.Keys && forall k :: k in order ==> k in g
    ensures h.Keys == Rename(ids, Elements(order))
  {
    if order == [] then map[] else
    var front, k := order[..|order| - 1], order[|order| - 1];
    assert order == front + [k];
    assert Elements(order) == Elements(front) + {k};
    RenamedGraph(g, ids, front)[ids[k] := Rename(ids, g[k])]
  }

  lemma {:induction false} RenamedEntry(g: Graph, ids: map<string, string>, order: seq<string>, k: string)
    requires g.Keys <= ids.Keys && (forall l :: l in order ==> l in g) && OneToOne(ids) && k in order
    ensures ids[k] in RenamedGraph(g, ids, order) && RenamedGraph(g, ids, order)[ids[k]] == Rename(ids, g[k])
  {
    var front, l := order[..|order| - 1], order[|order| - 1];
    assert order == front + [l];
    if k != l {
      RenamedEntry(g, ids, front, k);
    }
  }

  // ----- the plan's tasks and edges describe the renamed graph -------------------------------------

  function TaskGraph(byId: map<string, Task>): Graph {
    map t | t in byId :: Elements(byId[t].dependsOn)
  }

  function EdgeSet(h: Graph): set<Edge> {
    set t, d | t in h && d in h[t] :: Edge(d, t)
  }

  lemma {:induction false} TasksRenamed(order: seq<string>, tasks: map<string, TaskDraft>, ids: map<string, string>,
                                        baseline: string)
    requires WellFiled(tasks) && ids.Keys == tasks.Keys && forall k :: k in order ==> k in tasks
    ensures TaskGraph(V.TasksById(TasksOf(order, tasks, ids, baseline))) == RenamedGraph(GraphOf(tasks), ids, order)
  {
    if order != [] {
      var front, k := order[..|order| - 1], order[|order| - 1];
      assert order == front + [k];
      TasksRenamed(front, tasks, ids, baseline);
      DependenciesRenamed(tasks, ids, baseline, k);
      OneMoreTask(front, k, order, tasks, ids, baseline);
      GraphWith(V.TasksById(TasksOf(front, tasks, ids, baseline)), Materialize(tasks[k], ids, baseline));
    }
  }

  lemma GraphWith(byId: map<string, Task>, t: Task)
    ensures TaskGraph(byId[t.taskId := t]) == TaskGraph(byId)[t.taskId := Elements(t.dependsOn)]
  {
  }

  lemma OneMoreTask(front: seq<string>, k: string, order: seq<string>, tasks: map<string, TaskDraft>,
                    ids: map<string, string>, baseline: string)
    requires WellFiled(tasks) && ids.Keys == tasks.Keys && k in tasks
    requires (forall l :: l in front ==> l in tasks) && order == front + [k]
    ensures forall l :: l in order ==> l in tasks
    ensures var t := Materialize(tasks[k], ids, baseline);
            V.TasksById(TasksOf(order, tasks, ids, baseline)) ==
            V.TasksById(TasksOf(front, tasks, ids, baseline))[t.taskId := t]
  {
    var all := TasksOf(order, tasks, ids, baseline);
    assert all[..|all| - 1] == TasksOf(front, tasks, ids, baseline);
    LastById(all);
  }

  lemma LastById(all: seq<Task>)
    requires all != []
    ensures V.TasksById(all) == V.TasksById(all[..|all| - 1])[all[|all| - 1].taskId := all[|all| - 1]]
  {
  }

  lemma DependenciesRenamed(tasks: map<string, TaskDraft>, ids: map<string, string>, baseline: string, k: string)
    requires WellFiled(tasks) && ids.Keys == tasks.Keys && k in tasks
    ensures var t := Materialize(tasks[k], ids, baseline);
            t.taskId == ids[k] && Elements(t.dependsOn) == Rename(ids, GraphOf(tasks)[k])
  {
    var s := set d | d in tasks[k].dependsOn :: ids[d];
    assert Elements(SortedKeys(s)) == s;
    assert s == Rename(ids, GraphOf(tasks)[k]);
  }

  lemma {:induction false} EdgesRenamed(order: seq<string>, tasks: map<string, TaskDraft>, ids: map<string, string>)
    requires WellFiled(tasks) && ids.Keys == tasks.Keys && (forall k :: k in order ==> k in tasks) && OneToOne(ids)
    ensures Elements(EdgesOf(order, tasks, ids)) == EdgeSet(RenamedGraph(GraphOf(tasks), ids, order))
  {
    if order != [] {
      var front, k := order[..|order| - 1], order[|order| - 1];
      assert order == front + [k];
      EdgesRenamed(front, tasks, ids);
      var into := EdgesInto(k, SortedList(tasks[k].dependsOn), ids);
      EdgesIntoSet(k, tasks[k].dependsOn, ids, Rename(ids, GraphOf(tasks)[k]));
      var h := RenamedGraph(GraphOf(tasks), ids, front);
      if k in front {
        RenamedEntry(GraphOf(tasks), ids, front, k);
      } else {
        assert ids[k] !in h;
      }
      NewEdges(h, ids[k], Rename(ids, GraphOf(tasks)[k]));
      assert Elements(EdgesOf(front, tasks, ids) + into) == Elements(EdgesOf(front, tasks, ids)) + Elements(into);
    }
  }

  lemma EdgesIntoSet(k: string, dependsOn: seq<string>, ids: map<string, string>, s: set<string>)
    requires k in ids && (forall d :: d in dependsOn ==> d in ids) && s == Rename(ids, Elements(dependsOn))
    ensures Elements(EdgesInto(k, SortedList(dependsOn), ids)) == set d | d in s :: Edge(d, ids[k])
  {
    var list := SortedList(dependsOn);
    var into := EdgesInto(k, list, ids);
    forall d | d in s ensures Edge(d, ids[k]) in into {
      var l :| l in dependsOn && ids[l] == d;
      assert l in list;
      var i :| 0 <= i < |list| && list[i] == l;
      assert into[i] == Edge(d, ids[k]);
    }
    forall e | e in into ensures e.upstream in s && e == Edge(e.upstream, ids[k]) {
      var i :| 0 <= i < |into| && into[i] == e;
      assert list[i] in dependsOn;
    }
  }

  lemma NewEdges(h: Graph, t: string, s: set<string>)
    requires t in h ==> h[t] == s
    ensures EdgeSet(h[t := s]) == EdgeSet(h) + set d | d in s :: Edge(d, t)
  {
  }

  // ----- renaming makes no cycle -------------------------------------------------------------------

  /** The key behind an identifier. */
  ghost function Back(ids: map<string, string>, t: string): (k: string)
    ensures (exists l :: l in ids && ids[l] == t) ==> k in ids && ids[k] == t
  {
    if exists l :: l in ids && ids[l] == t then var l :| l in ids && ids[l] == t; l else t
  }

  lemma StepBack(g: Graph, ids: map<string, string>, order: seq<string>, t: string, u: string)
    requires g.Keys <= ids.Keys && (forall l :: l in order ==> l in g) && OneToOne(ids)
    requires Closed(g) && Step(RenamedGraph(g, ids, order), t, u)
    ensures Step(g, Back(ids, t), Back(ids, u))
  {
    var k :| k in Elements(order) && k in ids && ids[k] == t;
    RenamedEntry(g, ids, order, k);
    var l :| l in g[k] && l in ids && ids[l] == u;
    assert Back(ids, t) == k && Back(ids, u) == l;
  }

  lemma CycleBack(g: Graph, ids: map<string, string>, order: seq<string>, p: seq<string>)
    requires g.Keys <= ids.Keys && (forall l :: l in order ==> l in g) && OneToOne(ids)
    requires Closed(g) && Cycle(RenamedGraph(g, ids, order), p)
    ensures Cyclic(g)
  {
    var q := seq(|p|, i requires 0 <= i < |p| => Back(ids, p[i]));
    forall i | 0 <= i < |q| - 1 ensures Step(g, q[i], q[i + 1]) {
      assert Step(RenamedGraph(g, ids, order), p[i], p[i + 1]);
      StepBack(g, ids, order, p[i], p[i + 1]);
    }
    assert Cycle(g, q);
  }

  // ----- the theorem -------------------------------------------------------------------------------

  lemma IdentifiersOneToOne(tasks: map<string, TaskDraft>, idOf: (string, string) -> string)
    requires Injective(idOf)
    ensures OneToOne(Identifiers(tasks, idOf))
  {
  }

  /** Every task of a plan, by identifier, depends only on tasks of the plan; the edges say the same;
      and there is no cycle. */
  lemma PlanIsRenamedGraph(drafts: seq<TaskDraft>, idOf: (string, string) -> string, baseline: string,
                           previous: seq<Task>)
    requires Plannable(drafts) && Injective(idOf) && WellFiled(ByKey(drafts))
    ensures var plan := PlanOf(ByKey(drafts), idOf, baseline, previous);
            var h := TaskGraph(V.TasksById(plan.tasks));
            Closed(h) && Elements(plan.edges) == EdgeSet(h) && !Cyclic(h)
  {
    var tasks := ByKey(drafts);
    var order := KahnOrder(GraphOf(tasks));
    KahnCompleteIffAcyclic(GraphOf(tasks));
    assert forall k :: k in order <==> k in Elements(order);
    IdentifiersOneToOne(tasks, idOf);
    OrderIsRenamedGraph(tasks, Identifiers(tasks, idOf), order, baseline);
  }

  lemma OrderIsRenamedGraph(tasks: map<string, TaskDraft>, ids: map<string, string>, order: seq<string>,
                            baseline: string)
    requires WellFiled(tasks) && ids.Keys == tasks.Keys && OneToOne(ids) && (forall k :: k in order <==> k in tasks)
    requires Closed(GraphOf(tasks)) && !Cyclic(GraphOf(tasks))
    ensures var h := TaskGraph(V.TasksById(TasksOf(order, tasks, ids, baseline)));
            Closed(h) && Elements(EdgesOf(order, tasks, ids)) == EdgeSet(h) && !Cyclic(h)
  {
    TasksRenamed(order, tasks, ids, baseline);
    EdgesRenamed(order, tasks, ids);
    RenamedClosed(GraphOf(tasks), ids, order);
    RenamedAcyclic(GraphOf(tasks), ids, order);
  }

  lemma RenamedAcyclic(g: Graph, ids: map<string, string>, order: seq<string>)
    requires g.Keys <= ids.Keys && (forall l :: l in order <==> l in g) && OneToOne(ids) && Closed(g) && !Cyclic(g)
    ensures !Cyclic(RenamedGraph(g, ids, order))
  {
    var h := RenamedGraph(g, ids, order);
    forall p ensures !Cycle(h, p) {
      if Cycle(h, p) {
        CycleBack(g, ids, order, p);
      }
    }
  }

  lemma RenamedClosed(g: Graph, ids: map<string, string>, order: seq<string>)
    requires g.Keys <= ids.Keys && (forall l :: l in order <==> l in g) && OneToOne(ids) && Closed(g)
    ensures Closed(RenamedGraph(g, ids, order))
  {
    var h := RenamedGraph(g, ids, order);
    forall t | t in h ensures h[t] <= h.Keys {
      var k :| k in Elements(order) && k in ids && ids[k] == t;
      RenamedEntry(g, ids, order, k);
      assert g[k] <= Elements(order);
    }
  }

  /** Whatever else the draft holds, with a planner's tasks and edges in it these rules stay silent. */
  lemma PlansHaveSoundDependencies(drafts: seq<TaskDraft>, idOf: (string, string) -> string, baseline: string,
                                   previous: seq<Task>, d: V.Draft, isCommand: string -> bool, f: V.Finding)
    requires Plannable(drafts) && Injective(idOf) && WellFiled(ByKey(drafts))
    requires d.tasks == PlanOf(ByKey(drafts), idOf, baseline, previous).tasks
    requires d.edges == PlanOf(ByKey(drafts), idOf, baseline, previous).edges
    requires f in V.Findings(d, isCommand)
    ensures f.rule !in {V.MissingDependency, V.DependencyEdgeMismatch, V.DependencyCycle}
  {
    PlanIsRenamedGraph(drafts, idOf, baseline, previous);
    SoundGraphIsSilent(d, isCommand, f);
  }

  lemma SoundGraphIsSilent(d: V.Draft, isCommand: string -> bool, f: V.Finding)
    requires var h := TaskGraph(V.TasksById(d.tasks));
             Closed(h) && Elements(d.edges) == EdgeSet(h) && !Cyclic(h)
    requires f in V.Findings(d, isCommand)
    ensures f.rule !in {V.MissingDependency, V.DependencyEdgeMismatch, V.DependencyCycle}
  {
    var byId := V.TasksById(d.tasks);
    var h := TaskGraph(byId);
    AllKnown(byId);
    AllExpected(byId);
    if f !in V.GraphFindings(d) {
      var t :| t in byId && f in V.FindingsByTask(d, isCommand)[t];
      KnownDependencies(byId, t);
      TaskRules(t, byId[t], byId.Keys, d, isCommand, f);
    } else {
      SilentGraphRules(d, f);
    }
  }

  lemma AllKnown(byId: map<string, Task>)
    requires Closed(TaskGraph(byId))
    ensures KnownGraph(V.DependsOn(byId)) == TaskGraph(byId)
  {
    forall t | t in byId ensures KnownGraph(V.DependsOn(byId))[t] == TaskGraph(byId)[t] {
      assert TaskGraph(byId)[t] <= byId.Keys;
    }
  }

  lemma AllExpected(byId: map<string, Task>)
    ensures V.ExpectedEdges(byId) == EdgeSet(TaskGraph(byId))
  {
  }

  lemma KnownDependencies(byId: map<string, Task>, t: string)
    requires Closed(TaskGraph(byId)) && t in byId
    ensures !V.UnknownDependency(byId[t], byId.Keys)
  {
    assert TaskGraph(byId)[t] <= byId.Keys;
    assert forall u :: u in byId[t].dependsOn ==> u in TaskGraph(byId)[t];
  }

  lemma SilentGraphRules(d: V.Draft, f: V.Finding)
    requires var byId := V.TasksById(d.tasks);
             Elements(d.edges) == V.ExpectedEdges(byId) && !Cyclic(KnownGraph(V.DependsOn(byId)))
    requires f in V.GraphFindings(d)
    ensures f.rule == V.InvalidatedTasks
  {
  }

  lemma TaskRules(t: string, task: Task, known: set<string>, d: V.Draft, isCommand: string -> bool, f: V.Finding)
    requires !V.UnknownDependency(task, known)
    requires f in V.TaskFindings(t, task, known, V.EvidenceById(d.evidence), V.BindingsByTask(d.bindings), isCommand)
    ensures f.rule !in {V.MissingDependency, V.DependencyEdgeMismatch, V.DependencyCycle}
  {
    if f in V.ShapeFindings(t, task, known) {
      ShapeRules(t, task, known, f);
    } else if t in V.BindingsByTask(d.bindings) {
      BindingRules(t, task, V.BindingsByTask(d.bindings)[t], V.EvidenceById(d.evidence), isCommand, f);
    }
  }

  lemma ShapeRules(t: string, task: Task, known: set<string>, f: V.Finding)
    requires f in V.ShapeFindings(t, task, known)
    ensures f.rule == V.MissingDependency ==> V.UnknownDependency(task, known)
    ensures f.rule != V.DependencyEdgeMismatch && f.rule != V.DependencyCycle
  {
  }

  lemma BindingRules(t: string, task: Task, b: V.Binding, evidence: map<string, V.Evidence>,
                     isCommand: string -> bool, f: V.Finding)
    requires f in V.BindingFindings(t, task, b, evidence, isCommand)
    ensures f.rule != V.MissingDependency && f.rule != V.DependencyEdgeMismatch && f.rule != V.DependencyCycle
  {
  }
}
