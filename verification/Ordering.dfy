/** Orders shared by the models: Python compares strings by code point, and every `sorted` or heap
    in the repository relies on that total order. */
module Ordering {

  function Elements<T>(s: seq<T>): set<T> {
    set x | x in s
  }

  /** `s[:n]`. */
  function Cut<T>(s: seq<T>, n: nat): seq<T> {
    if n < |s| then s[..n] else s
  }

  /** Strict code-point order on strings, as Python's `<`. */
  predicate StrLess(a: string, b: string) {
    b != [] && (a == [] || a[0] < b[0] || (a[0] == b[0] && StrLess(a[1..], b[1..])))
  }

  lemma {:induction false} StrTotal(a: string, b: string)
    ensures a != b ==> StrLess(a, b) || StrLess(b, a)
    ensures !(StrLess(a, b) && StrLess(b, a))
    ensures !StrLess(a, a)
  {
    if a != [] && b != [] {
      StrTotal(a[1..], b[1..]);
      StrTotal(a[1..], a[1..]);
      assert a == [a[0]] + a[1..] && b == [b[0]] + b[1..];
    } else if a != [] {
      StrTotal(a[1..], a[1..]);
    }
  }

  lemma {:induction false} StrTransitive(a: string, b: string, c: string)
    requires StrLess(a, b) && StrLess(b, c)
    ensures StrLess(a, c)
  {
    if a != [] && a[0] == b[0] && b[0] == c[0] {
      StrTransitive(a[1..], b[1..], c[1..]);
    }
  }

  predicate IsLeast(m: string, keys: set<string>) {
    m in keys && forall k :: k in keys && k != m ==> StrLess(m, k)
  }

  lemma {:induction false} LeastExists(keys: set<string>)
    requires keys != {}
    ensures exists m :: IsLeast(m, keys)
    decreases |keys|
  {
    var k :| k in keys;
    var rest := keys - {k};
    if rest == {} {
      assert keys == {k};
      assert IsLeast(k, keys);
    } else {
      LeastExists(rest);
      var m :| IsLeast(m, rest);
      StrTotal(k, m);
      if StrLess(k, m) {
        forall j | j in keys && j != k
          ensures StrLess(k, j)
        {
          if j != m {
            StrTransitive(k, m, j);
          }
        }
        assert IsLeast(k, keys);
      } else {
        assert IsLeast(m, keys);
      }
    }
  }

  lemma LeastUnique(keys: set<string>, m: string, n: string)
    requires IsLeast(m, keys) && IsLeast(n, keys)
    ensures m == n
  {
    StrTotal(m, n);
  }

  /** The least element of a nonempty set of strings: what a heap of strings pops. */
  function Least(keys: set<string>): (m: string)
    requires keys != {}
    ensures IsLeast(m, keys)
  {
    LeastExists(keys);
    assert forall m, n :: IsLeast(m, keys) && IsLeast(n, keys) ==> m == n by {
      forall m, n | IsLeast(m, keys) && IsLeast(n, keys) { LeastUnique(keys, m, n); }
    }
    var m :| IsLeast(m, keys);
    m
  }

  /** `sorted(keys)` for a set of strings. */
  function SortedKeys(keys: set<string>): (s: seq<string>)
    ensures |s| == |keys|
    ensures forall k :: k in s <==> k in keys
    ensures forall i, j :: 0 <= i < j < |s| ==> StrLess(s[i], s[j])
    decreases |keys|
  {
    if keys == {} then [] else
    var m := Least(keys);
    [m] + SortedKeys(keys - {m})
  }

  predicate StrLeq(a: string, b: string) {
    a == b || StrLess(a, b)
  }

  lemma StrLeqIsOrder()
    ensures Order(StrLeq)
  {
    forall a, b, c
      ensures StrLeq(a, b) || StrLeq(b, a)
      ensures StrLeq(a, b) && StrLeq(b, c) ==> StrLeq(a, c)
      ensures StrLeq(a, b) && StrLeq(b, a) ==> a == b
    {
      StrTotal(a, b);
      if StrLess(a, b) && StrLess(b, c) {
        StrTransitive(a, b, c);
      }
    }
  }

  // ----- sorting by an arbitrary key -----------------------------------------------------------

  /** Total and transitive: what comparing keys gives. */
  ghost predicate Preorder<T(!new)>(leq: (T, T) -> bool) {
    && (forall a, b :: leq(a, b) || leq(b, a))
    && (forall a, b, c :: leq(a, b) && leq(b, c) ==> leq(a, c))
  }

  /** The key determines the element. */
  ghost predicate Order<T(!new)>(leq: (T, T) -> bool) {
    Preorder(leq) && forall a, b :: leq(a, b) && leq(b, a) ==> a == b
  }

  /** The key determines the element among these elements. */
  predicate KeysDetermine<T(==)>(leq: (T, T) -> bool, s: seq<T>) {
    forall a, b :: a in s && b in s && leq(a, b) && leq(b, a) ==> a == b
  }

  predicate SortedBy<T>(leq: (T, T) -> bool, s: seq<T>) {
    forall i, j :: 0 <= i < j < |s| ==> leq(s[i], s[j])
  }

  /** `sorted(s)` under `leq`; elements with equal keys keep their order. */
  function Sort<T(==,!new)>(leq: (T, T) -> bool, s: seq<T>): (t: seq<T>)
    requires Preorder(leq)
    ensures multiset(t) == multiset(s) && SortedBy(leq, t)
    ensures |t| == |s| && (forall x :: x in t <==> x in s)
  {
    if s == [] then [] else
    assert s == [s[0]] + s[1..];
    Inserted(leq, s[0], Sort(leq, s[1..]))
  }

  function Inserted<T(==,!new)>(leq: (T, T) -> bool, x: T, s: seq<T>): (t: seq<T>)
    requires Preorder(leq) && SortedBy(leq, s)
    ensures multiset(t) == multiset(s) + multiset{x} && SortedBy(leq, t)
    ensures |t| == |s| + 1 && (forall y :: y in t <==> y == x || y in s)
  {
    if s == [] then [x] else
    assert s == [s[0]] + s[1..];
    if leq(x, s[0]) then [x] + s else
    var t := Inserted(leq, x, s[1..]);
    assert forall y :: y in t ==> leq(s[0], y);
    [s[0]] + t
  }

  lemma SameHead<T(!new)>(leq: (T, T) -> bool, s: seq<T>, t: seq<T>)
    requires Preorder(leq) && SortedBy(leq, s) && SortedBy(leq, t) && multiset(s) == multiset(t)
    requires s != [] && t != [] && KeysDetermine(leq, s)
    ensures s[0] == t[0]
  {
    assert s[0] in multiset(t) && t[0] in multiset(s);
    assert leq(t[0], s[0]) && leq(s[0], t[0]);
  }

  lemma SameTail<T>(s: seq<T>, t: seq<T>)
    requires multiset(s) == multiset(t) && s != [] && t != [] && s[0] == t[0]
    ensures multiset(s[1..]) == multiset(t[1..])
  {
    assert s == [s[0]] + s[1..] && t == [t[0]] + t[1..];
    assert multiset(s[1..]) == multiset(s) - multiset{s[0]};
    assert multiset(t[1..]) == multiset(t) - multiset{t[0]};
  }

  /** A list sorted by a key that determines its elements is determined by what it contains. */
  lemma {:induction false} SortedUnique<T(!new)>(leq: (T, T) -> bool, s: seq<T>, t: seq<T>)
    requires Preorder(leq) && SortedBy(leq, s) && SortedBy(leq, t) && multiset(s) == multiset(t)
    requires KeysDetermine(leq, s)
    ensures s == t
  {
    assert |multiset(s)| == |s| && |multiset(t)| == |t|;
    if s != [] {
      SameHead(leq, s, t);
      SameTail(s, t);
      SortedUnique(leq, s[1..], t[1..]);
      assert s == [s[0]] + s[1..] && t == [t[0]] + t[1..];
    }
  }

  /** The elements of a set, each once, in some order. */
  ghost function Listed<T>(elements: set<T>): (s: seq<T>)
    ensures multiset(s) == multiset(elements)
  {
    if elements == {} then [] else
    var x :| x in elements;
    assert elements == elements - {x} + {x};
    Listed(elements - {x}) + [x]
  }
}
