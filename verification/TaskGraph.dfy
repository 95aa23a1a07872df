/** Dependency graphs of configuration tasks, and what Kahn's algorithm with a heap computes on
    them (src/agents/task_graph.py). */
module DependencyGraph {
  import opened Ordering

  /** Every task key with the set of task keys it depends on. */
  type Graph = map<string, set<string>>

  predicate Closed(g: Graph) {
    forall k :: k in g ==> g[k] <= g.Keys
  }

  /** The tasks not in `done` whose dependencies all are. */
  function Ready(g: Graph, done: set<string>): set<string> {
    set k | k in g && k !in done && g[k] <= done
  }

  /** `o` schedules tasks one at a time, none twice, each after all its dependencies. */
  predicate Schedule(g: Graph, o: seq<string>) {
    o != [] ==>
      var front := o[..|o| - 1];
      Schedule(g, front) && o[|o| - 1] in Ready(g, Elements(front))
  }

  predicate TopologicalOrder(g: Graph, o: seq<string>) {
    Schedule(g, o) && Elements(o) == g.Keys
  }

  /** A schedule by positions: every task is one of the graph, did not occur before, and has all its
      dependencies before it. */
  lemma {:induction false} ScheduleByPosition(g: Graph, o: seq<string>)
    ensures Schedule(g, o) <==>
      forall i :: 0 <= i < |o| ==> o[i] in g && o[i] !in o[..i] && forall d :: d in g[o[i]] ==> d in o[..i]
  {
    if o != [] {
      var front, last := o[..|o| - 1], o[|o| - 1];
      ScheduleByPosition(g, front);
      assert forall i :: 0 <= i < |front| ==> front[..i] == o[..i] && front[i] == o[i];
      assert o[..|o| - 1] == front;
      assert last in Ready(g, Elements(front)) <==>
        last in g && last !in front && forall d :: d in g[last] ==> d in front;
    }
  }

  /** A walk along dependencies that returns to where it started. */
  ghost predicate Cycle(g: Graph, p: seq<string>) {
    |p| >= 2 && p[0] == p[|p| - 1] && Walk(g, p)
  }

  ghost predicate Walk(g: Graph, p: seq<string>) {
    forall i :: 0 <= i < |p| - 1 ==> Step(g, p[i], p[i + 1])
  }

  predicate Step(g: Graph, k: string, d: string) {
    k in g && d in g[k]
  }

  ghost predicate Cyclic(g: Graph) {
    exists p :: Cycle(g, p)
  }

  /** `a` is `b`, or smaller than `b` at the first place they differ. */
  ghost predicate LexLeq(a: seq<string>, b: seq<string>) {
    a == b || (exists i :: LexAt(a, b, i))
  }

  ghost predicate LexAt(a: seq<string>, b: seq<string>, i: int) {
    0 <= i < |a| && i < |b| && a[..i] == b[..i] && StrLess(a[i], b[i])
  }

  // ----- sizes -------------------------------------------------------------------------------

  lemma Subset<T>(a: set<T>, b: set<T>)
    requires a <= b
    ensures |a| <= |b|
    ensures |a| == |b| ==> a == b
  {
    assert a + (b - a) == b;
  }

  lemma {:induction false} ScheduleSize(g: Graph, o: seq<string>)
    requires Schedule(g, o)
    ensures |Elements(o)| == |o| && Elements(o) <= g.Keys
  {
    if o != [] {
      var front, k := o[..|o| - 1], o[|o| - 1];
      ScheduleSize(g, front);
      assert o == front + [k];
      assert Elements(o) == Elements(front) + {k};
    }
  }

  lemma LeastShrinks(g: Graph, done: set<string>)
    requires Ready(g, done) != {}
    ensures |g.Keys - (done + {Least(Ready(g, done))})| < |g.Keys - done|
  {
    var k := Least(Ready(g, done));
    assert g.Keys - (done + {k}) == g.Keys - done - {k};
  }

  // ----- Kahn's algorithm --------------------------------------------------------------------

  /** What Kahn's algorithm still appends once `done` has been ordered. */
  function KahnFrom(g: Graph, done: set<string>): (o: seq<string>)
    decreases |g.Keys - done|
  {
    if Ready(g, done) == {} then [] else
    LeastShrinks(g, done);
    var k := Least(Ready(g, done));
    [k] + KahnFrom(g, done + {k})
  }

  function KahnOrder(g: Graph): seq<string> {
    KahnFrom(g, {})
  }

  lemma ExtendSchedule(g: Graph, o: seq<string>, k: string)
    requires Schedule(g, o) && k in Ready(g, Elements(o))
    ensures Schedule(g, o + [k]) && Elements(o + [k]) == Elements(o) + {k}
  {
    assert (o + [k])[..|o|] == o;
  }

  lemma KahnStep(g: Graph, o: seq<string>, done: set<string>)
    requires Ready(g, done) != {}
    ensures var k := Least(Ready(g, done));
            o + KahnFrom(g, done) == (o + [k]) + KahnFrom(g, done + {k})
  {
  }

  lemma {:induction false} KahnSchedules(g: Graph, o: seq<string>, done: set<string>)
    requires Schedule(g, o) && done == Elements(o)
    ensures var full := o + KahnFrom(g, done); Schedule(g, full) && Ready(g, Elements(full)) == {}
    decreases |g.Keys - done|
  {
    if Ready(g, done) == {} {
      assert o + KahnFrom(g, done) == o;
    } else {
      LeastShrinks(g, done);
      var k := Least(Ready(g, done));
      ExtendSchedule(g, o, k);
      KahnSchedules(g, o + [k], done + {k});
      KahnStep(g, o, done);
    }
  }

  /** Kahn's loop orders every task exactly when the graph has no cycle. */
  lemma {:induction false} KahnCompleteIffAcyclic(g: Graph)
    requires Closed(g)
    ensures |KahnOrder(g)| == |g| <==> !Cyclic(g)
    ensures !Cyclic(g) ==> TopologicalOrder(g, KahnOrder(g))
  {
    var o := KahnOrder(g);
    KahnSchedules(g, [], {});
    assert [] + KahnFrom(g, {}) == o;
    ScheduleSize(g, o);
    Subset(Elements(o), g.Keys);
    if Elements(o) == g.Keys {
      forall p ensures !Cycle(g, p) {
        OrderRefutesCycle(g, o, p);
      }
    } else {
      StuckIsCyclic(g, Elements(o));
    }
  }

  // ----- a topological order has no cycle ----------------------------------------------------

  /** A walk out of a scheduled task stays among the tasks scheduled before it. */
  lemma {:induction false} WalkFallsBack(g: Graph, o: seq<string>, p: seq<string>)
    requires Schedule(g, o) && |p| >= 2 && Walk(g, p) && p[0] in o
    ensures p[|p| - 1] in o && p[|p| - 1] != p[0]
    decreases |o|
  {
    var front, k := o[..|o| - 1], o[|o| - 1];
    assert o == front + [k];
    if p[0] in front {
      WalkFallsBack(g, front, p);
    } else {
      assert Step(g, p[0], p[1]);
      assert p[1] in Elements(front);
      if |p| > 2 {
        assert Walk(g, p[1..]) by {
          forall i | 0 <= i < |p[1..]| - 1 ensures Step(g, p[1..][i], p[1..][i + 1]) {
            assert Step(g, p[i + 1], p[i + 1 + 1]);
          }
        }
        WalkFallsBack(g, front, p[1..]);
      }
    }
  }

  lemma OrderRefutesCycle(g: Graph, o: seq<string>, p: seq<string>)
    requires TopologicalOrder(g, o)
    ensures !Cycle(g, p)
  {
    if Cycle(g, p) {
      assert Step(g, p[0], p[1]);
      assert p[0] in Elements(o);
      WalkFallsBack(g, o, p);
    }
  }

  // ----- a stuck schedule has a cycle --------------------------------------------------------

  /** When nothing is ready, every task left over waits for another one left over. */
  lemma WaitsFor(g: Graph, done: set<string>, k: string) returns (d: string)
    requires Closed(g) && Ready(g, done) == {} && k in g && k !in done
    ensures Step(g, k, d) && d in g && d !in done
  {
    assert k !in Ready(g, done);
    d :| d in g[k] && d !in done;
  }

  lemma StuckIsCyclic(g: Graph, done: set<string>)
    requires Closed(g) && done < g.Keys && Ready(g, done) == {}
    ensures Cyclic(g)
  {
    var k :| k in g && k !in done;
    RepeatingWalk(g, done, [k]);
  }

  /** A walk that can always be continued inside a finite set must repeat a task. */
  lemma {:induction false} RepeatingWalk(g: Graph, done: set<string>, p: seq<string>)
    requires Closed(g) && Ready(g, done) == {}
    requires p != [] && Walk(g, p) && p[|p| - 1] in g && p[|p| - 1] !in done
    ensures Cyclic(g)
    decreases |g.Keys - Elements(p)|
  {
    var d := WaitsFor(g, done, p[|p| - 1]);
    if d in p {
      var i :| 0 <= i < |p| && p[i] == d;
      ClosingWalk(g, p, i);
      assert Cycle(g, p[i..] + [p[i]]);
    } else {
      ExtendWalk(g, p, d);
      FewerLeft(g.Keys, Elements(p), d);
      RepeatingWalk(g, done, p + [d]);
    }
  }

  lemma FewerLeft(keys: set<string>, seen: set<string>, d: string)
    requires d in keys && d !in seen
    ensures |keys - (seen + {d})| < |keys - seen|
  {
    assert keys - (seen + {d}) == keys - seen - {d};
  }

  lemma ExtendWalk(g: Graph, p: seq<string>, d: string)
    requires p != [] && Walk(g, p) && Step(g, p[|p| - 1], d)
    ensures Walk(g, p + [d]) && Elements(p + [d]) == Elements(p) + {d}
  {
    forall j | 0 <= j < |p + [d]| - 1 ensures Step(g, (p + [d])[j], (p + [d])[j + 1]) {
      assert j < |p| - 1 ==> Step(g, p[j], p[j + 1]);
    }
  }

  lemma ClosingWalk(g: Graph, p: seq<string>, i: nat)
    requires i < |p| && Walk(g, p) && Step(g, p[|p| - 1], p[i])
    ensures Walk(g, p[i..] + [p[i]])
  {
    var c := p[i..] + [p[i]];
    forall j | 0 <= j < |c| - 1 ensures Step(g, c[j], c[j + 1]) {
      assert i + j + 1 < |p| ==> Step(g, p[i + j], p[i + j + 1]);
    }
  }

  // ----- the order is the least one ----------------------------------------------------------

  lemma {:induction false} SchedulePrefix(g: Graph, o: seq<string>, n: nat)
    requires Schedule(g, o) && n < |o|
    ensures Schedule(g, o[..n]) && o[n] in Ready(g, Elements(o[..n]))
    decreases |o|
  {
    var front := o[..|o| - 1];
    if n < |front| {
      SchedulePrefix(g, front, n);
      assert front[..n] == o[..n];
    } else {
      assert o[..n] == front;
    }
  }

  lemma Diverge(g: Graph, o: seq<string>, done: set<string>, rival: seq<string>)
    requires |o| < |rival| && rival[..|o|] == o && rival[|o|] in Ready(g, done)
    requires rival[|o|] != Least(Ready(g, done))
    ensures LexLeq(o + KahnFrom(g, done), rival)
  {
    var full := o + KahnFrom(g, done);
    assert full[..|o|] == o;
    assert LexAt(full, rival, |o|);
  }

  /** Always taking the least ready task beats every rival that agrees so far. */
  lemma {:induction false} KahnBeats(g: Graph, o: seq<string>, done: set<string>, rival: seq<string>)
    requires Schedule(g, o) && done == Elements(o)
    requires TopologicalOrder(g, rival) && |o| <= |rival| && rival[..|o|] == o
    ensures LexLeq(o + KahnFrom(g, done), rival)
    decreases |rival| - |o|
  {
    if |o| == |rival| {
      assert o == rival;
      assert Ready(g, done) == {};
      assert o + KahnFrom(g, done) == rival;
    } else {
      SchedulePrefix(g, rival, |o|);
      var k := rival[|o|];
      if k != Least(Ready(g, done)) {
        Diverge(g, o, done, rival);
      } else {
        ExtendSchedule(g, o, k);
        assert rival[..|o| + 1] == o + [k];
        KahnBeats(g, o + [k], done + {k}, rival);
        KahnStep(g, o, done);
      }
    }
  }

  /** Kahn's order is the least topological order there is, and no other order is as small. */
  lemma {:induction false} KahnLexicographicallyLeast(g: Graph, rival: seq<string>)
    requires Closed(g) && TopologicalOrder(g, rival)
    ensures TopologicalOrder(g, KahnOrder(g)) && LexLeq(KahnOrder(g), rival)
    ensures LexLeq(rival, KahnOrder(g)) ==> rival == KahnOrder(g)
  {
    forall p ensures !Cycle(g, p) {
      OrderRefutesCycle(g, rival, p);
    }
    KahnCompleteIffAcyclic(g);
    KahnBeats(g, [], {}, rival);
    assert [] + KahnFrom(g, {}) == KahnOrder(g);
    if LexLeq(rival, KahnOrder(g)) {
      LexAntisymmetric(KahnOrder(g), rival);
    }
  }

  lemma LexAntisymmetric(a: seq<string>, b: seq<string>)
    requires LexLeq(a, b) && LexLeq(b, a)
    ensures a == b
  {
    if a != b {
      var i :| LexAt(a, b, i);
      var j :| LexAt(b, a, j);
      StrTotal(a[i], b[i]);
      StrTotal(a[j], b[j]);
    }
  }
}
