/** The plan does not depend on the order in which the drafts were proposed. */
module PlanOrder {
  import opened Ordering
  import opened DependencyGraph
  import opened TaskPlanning

  lemma {:induction false} DistinctIsSize<T(!new)>(s: seq<T>)
    ensures |Elements(s)| <= |s|
    ensures |Elements(s)| == |s| <==> Distinct(s)
  {
    if s != [] {
      var front, x := s[..|s| - 1], s[|s| - 1];
      assert s == front + [x];
      DistinctIsSize(front);
      assert Elements(s) == Elements(front) + {x};
      if x in front {
        var j :| 0 <= j < |front| && front[j] == x;
        assert s[j] == s[|s| - 1];
      }
    }
  }

  /** A permutation has the same length and the same elements. */
  lemma SameElements<T>(a: seq<T>, b: seq<T>)
    requires multiset(a) == multiset(b)
    ensures |a| == |b| && forall x :: x in a <==> x in b
  {
    assert |multiset(a)| == |a| && |multiset(b)| == |b|;
    forall x ensures x in a <==> x in b {
      assert x in a <==> x in multiset(a);
      assert x in b <==> x in multiset(b);
    }
  }

  lemma SameKeys(a: seq<TaskDraft>, b: seq<TaskDraft>)
    requires multiset(a) == multiset(b)
    ensures Distinct(Keys(a)) <==> Distinct(Keys(b))
    ensures Distinct(SemanticKeys(a)) <==> Distinct(SemanticKeys(b))
  {
    SameElements(a, b);
    DistinctIsSize(Keys(a));
    DistinctIsSize(Keys(b));
    DistinctIsSize(SemanticKeys(a));
    DistinctIsSize(SemanticKeys(b));
    KeySets(a, b);
    KeySets(b, a);
    assert Elements(Keys(a)) == Elements(Keys(b));
    assert Elements(SemanticKeys(a)) == Elements(SemanticKeys(b));
  }

  lemma KeySets(a: seq<TaskDraft>, b: seq<TaskDraft>)
    requires forall d :: d in a ==> d in b
    ensures Elements(Keys(a)) <= Elements(Keys(b))
    ensures Elements(SemanticKeys(a)) <= Elements(SemanticKeys(b))
  {
    forall i | 0 <= i < |a|
      ensures Keys(a)[i] in Keys(b) && SemanticKeys(a)[i] in SemanticKeys(b)
    {
      assert a[i] in b;
      var j :| 0 <= j < |b| && b[j] == a[i];
      assert Keys(b)[j] == Keys(a)[i] && SemanticKeys(b)[j] == SemanticKeys(a)[i];
    }
  }

  lemma SameDictionary(a: seq<TaskDraft>, b: seq<TaskDraft>)
    requires multiset(a) == multiset(b) && Distinct(Keys(a))
    ensures ByKey(a) == ByKey(b)
  {
    SameKeys(a, b);
    SameElements(a, b);
    forall k | k in ByKey(a) ensures k in ByKey(b) && ByKey(a)[k] == ByKey(b)[k] {
      SameEntry(a, b, k);
    }
    forall k | k in ByKey(b) ensures k in ByKey(a) {
      SameEntry(b, a, k);
    }
  }

  lemma SameEntry(a: seq<TaskDraft>, b: seq<TaskDraft>, k: string)
    requires (forall d :: d in a ==> d in b) && Distinct(Keys(b)) && k in ByKey(a)
    ensures k in ByKey(b) && ByKey(a)[k] == ByKey(b)[k]
  {
    var i := ByKeyEntry(a, k);
    assert a[i] in b;
    var j :| 0 <= j < |b| && b[j] == a[i];
    KeyFindsDraft(b, j);
  }

  /** Any permutation of the drafts is refused too, or gives exactly the same plan. */
  lemma PlanIgnoresDraftOrder(a: seq<TaskDraft>, b: seq<TaskDraft>, idOf: (string, string) -> string,
                              baseline: string, previous: seq<Task>)
    requires multiset(a) == multiset(b)
    ensures Plannable(a) <==> Plannable(b)
    ensures Plannable(a) ==> WellFiled(ByKey(a)) && WellFiled(ByKey(b))
    ensures Plannable(a) ==>
              PlanOf(ByKey(a), idOf, baseline, previous) == PlanOf(ByKey(b), idOf, baseline, previous)
  {
    SameKeys(a, b);
    SameElements(a, b);
    if Distinct(Keys(a)) {
      SameDictionary(a, b);
    }
    if Plannable(a) {
      ClosedIsWellFiled(a);
    }
  }

  /** The order of previous tasks does not matter either: the invalidated identifiers are sorted. */
  lemma {:induction false} InvalidatedMultiset(previous: seq<Task>, baseline: string)
    ensures forall k :: k in Invalidated(previous, baseline) <==>
                        exists t :: t in previous && t.taskId == k && t.baseline != baseline
  {
    if previous != [] {
      var front, last := previous[..|previous| - 1], previous[|previous| - 1];
      assert previous == front + [last];
      InvalidatedMultiset(front, baseline);
      forall k ensures k in Invalidated(previous, baseline) <==>
                       exists t :: t in previous && t.taskId == k && t.baseline != baseline
      {
        if exists t :: t in previous && t.taskId == k && t.baseline != baseline {
          var t :| t in previous && t.taskId == k && t.baseline != baseline;
          assert t in front || t == last;
        }
      }
    }
  }

  /** Exactly the previous tasks planned on another baseline are invalidated. */
  lemma StaleTasksInvalidated(drafts: seq<TaskDraft>, idOf: (string, string) -> string, baseline: string,
                              previous: seq<Task>, k: string)
    requires WellFiled(ByKey(drafts))
    ensures k in PlanOf(ByKey(drafts), idOf, baseline, previous).invalidated <==>
            exists t :: t in previous && t.taskId == k && t.baseline != baseline
  {
    InvalidatedMultiset(previous, baseline);
  }
}
