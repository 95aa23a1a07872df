/** The depth-first cycle check of the validation service
    (src/agents/services/validation_service.py), and its agreement with Kahn's algorithm. */
module CycleCheck {
  import opened Ordering
  import opened DependencyGraph

  /** The dependencies the check follows: only those that name a known task. */
  function KnownGraph(dependsOn: map<string, seq<string>>): (g: Graph)
    ensures Closed(g)
  {
    map k | k in dependsOn :: set d | d in dependsOn[k] && d in dependsOn
  }

  /** `stack` is the walk of tasks being visited; `order` schedules the tasks already visited. */
  ghost predicate Searching(g: Graph, stack: seq<string>, order: seq<string>,
                            visiting: set<string>, visited: set<string>)
  {
    && Walk(g, stack) && Elements(stack) == visiting
    && Schedule(g, order) && Elements(order) == visited
    && visiting !! visited
  }

  /** `visit`: true as soon as the walk reaches a task on the stack. */
  method Visit(dependsOn: map<string, seq<string>>, task: string, visiting0: set<string>, visited0: set<string>,
               ghost stack: seq<string>, ghost order0: seq<string>)
    returns (found: bool, visiting: set<string>, visited: set<string>, ghost order: seq<string>)
    requires task in dependsOn && visiting0 <= dependsOn.Keys
    requires Searching(KnownGraph(dependsOn), stack, order0, visiting0, visited0)
    requires stack != [] ==> Step(KnownGraph(dependsOn), stack[|stack| - 1], task)
    ensures found ==> Cyclic(KnownGraph(dependsOn))
    ensures !found ==> visiting == visiting0 && Searching(KnownGraph(dependsOn), stack, order, visiting, visited)
    ensures !found ==> task in visited && visited0 <= visited
    decreases dependsOn.Keys - visiting0
  {
    visiting, visited, order := visiting0, visited0, order0;
    ghost var g := KnownGraph(dependsOn);
    if task in visiting {
      WalkCloses(g, stack, task);
      return true, visiting, visited, order;
    }
    if task in visited {
      return false, visiting, visited, order;
    }
    visiting := visiting + {task};
    GrowStack(g, stack, task);
    var dependencies := dependsOn[task];
    for i := 0 to |dependencies|
      invariant visiting == visiting0 + {task} && visited0 <= visited
      invariant Searching(g, stack + [task], order, visiting, visited)
      invariant forall j :: 0 <= j < i && dependencies[j] in dependsOn ==> dependencies[j] in visited
    {
      if dependencies[i] in dependsOn {
        assert dependencies[i] in g[task];
        found, visiting, visited, order :=
          Visit(dependsOn, dependencies[i], visiting, visited, stack + [task], order);
        if found {
          return true, visiting, visited, order;
        }
      }
    }
    visiting := visiting - {task};
    assert visiting == visiting0;
    assert task in Ready(g, visited);
    ExtendSchedule(g, order, task);
    order := order + [task];
    visited := visited + {task};
    found := false;
  }

  lemma WalkCloses(g: Graph, stack: seq<string>, task: string)
    requires Walk(g, stack) && task in stack && Step(g, stack[|stack| - 1], task)
    ensures Cyclic(g)
  {
    var i :| 0 <= i < |stack| && stack[i] == task;
    ClosingWalk(g, stack, i);
    assert Cycle(g, stack[i..] + [task]);
  }

  lemma GrowStack(g: Graph, stack: seq<string>, task: string)
    requires Walk(g, stack) && (stack != [] ==> Step(g, stack[|stack| - 1], task))
    ensures Walk(g, stack + [task]) && Elements(stack + [task]) == Elements(stack) + {task}
  {
    if stack != [] {
      ExtendWalk(g, stack, task);
    }
  }

  /** `_has_cycle`: true exactly when the known dependencies contain a cycle. */
  method HasCycle(dependsOn: map<string, seq<string>>) returns (found: bool)
    ensures found <==> Cyclic(KnownGraph(dependsOn))
  {
    ghost var g := KnownGraph(dependsOn);
    var visiting: set<string>, visited: set<string> := {}, {};
    ghost var order: seq<string> := [];
    var tasks := SortedKeys(dependsOn.Keys);
    for i := 0 to |tasks|
      invariant visiting == {} && Searching(g, [], order, visiting, visited)
      invariant forall j :: 0 <= j < i ==> tasks[j] in visited
    {
      assert tasks[i] in tasks;
      found, visiting, visited, order := Visit(dependsOn, tasks[i], visiting, visited, [], order);
      if found {
        return true;
      }
    }
    AllVisited(g, order, tasks);
    return false;
  }

  lemma AllVisited(g: Graph, order: seq<string>, tasks: seq<string>)
    requires Schedule(g, order) && (forall k :: k in g <==> k in tasks)
    requires forall j :: 0 <= j < |tasks| ==> tasks[j] in order
    ensures !Cyclic(g)
  {
    ScheduleSize(g, order);
    assert Elements(order) == g.Keys;
    forall p ensures !Cycle(g, p) {
      OrderRefutesCycle(g, order, p);
    }
  }

  /** The cycle check fires exactly when Kahn's loop would leave tasks over. */
  lemma DetectorsAgree(dependsOn: map<string, seq<string>>)
    ensures Cyclic(KnownGraph(dependsOn)) <==> |KahnOrder(KnownGraph(dependsOn))| < |dependsOn|
  {
    var g := KnownGraph(dependsOn);
    KahnCompleteIffAcyclic(g);
    KahnSchedules(g, [], {});
    assert [] + KahnFrom(g, {}) == KahnOrder(g);
    ScheduleSize(g, KahnOrder(g));
    Subset(Elements(KahnOrder(g)), g.Keys);
    assert g.Keys == dependsOn.Keys;
    Subset(g.Keys, dependsOn.Keys);
  }
}
