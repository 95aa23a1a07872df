/** Why a write of the index is one step for all other instances: it reads and replaces the file under the lifecycle
    lock (src/ingestion/storage/bm25_indexer.py, src/ingestion/storage/lifecycle_lock.py). */
module LockedIndex {
  import opened Outcomes
  import opened BM25Index
  import L = LifecycleLock

  /** The small steps of the instances: steps of their locks, reading the file, replacing it or failing to, and the
      refresh of a query, which takes no lock. Every instance has the lock of its own number. */
  datatype Small =
    | Locking(step: L.Step)
    | Load(who: nat)
    | Save(who: nat, change: Change, failure: Option<Failure>)
    | Look(who: nat)

  /** The locks, the file with what every instance holds, and what was read of the file under a lock. */
  datatype World = World(locks: L.State, shared: Shared, read: map<nat, Disk>)

  predicate Holds(w: World, who: nat) {
    L.Alive(w.locks, who) && w.locks.phases[who].Held?
  }

  /** Building replaces the file unread; everything else works on what was read. */
  predicate Enabled(w: World, e: Small) {
    match e
    case Locking(step) => L.Enabled(w.locks, step)
    case Load(who) => Holds(w, who) && who < |w.shared.memories|
    case Save(who, change, _) => Holds(w, who) && who < |w.shared.memories| && (change.Built? || who in w.read)
    case Look(who) => who < |w.shared.memories|
  }

  function After(w: World, e: Small): (w': World)
    requires Enabled(w, e)
    ensures |w'.shared.memories| == |w.shared.memories|
  {
    match e
    case Locking(step) =>
      World(L.After(w.locks, step), w.shared, if step.Write? then w.read - {step.lock} else w.read)
    case Load(who) => w.(read := w.read[who := w.shared.disk])
    case Save(who, change, failure) =>
      var seen := if change.Built? then w.shared.disk else w.read[who];
      var (disk, memory) := Written(seen, w.shared.memories[who], change, failure);
      var file := if disk == seen then w.shared.disk else disk;
      World(w.locks, Shared(file, w.shared.memories[who := memory]), w.read - {who})
    case Look(who) => w.(shared := Step(w.shared, Refresh(who)))
  }

  /** The locks keep their invariant, and whoever holds its lock has read what is in the file. */
  ghost predicate Inv(w: World) {
    L.Inv(w.locks) && forall who :: who in w.read && Holds(w, who) ==> w.read[who] == w.shared.disk
  }

  lemma OneHolder(w: World, a: nat, b: nat)
    requires Inv(w) && Holds(w, a) && Holds(w, b)
    ensures a == b
  {
  }

  /** A lock becomes held only by its last step of acquiring. */
  lemma HeldBefore(w: World, step: L.Step, who: nat)
    requires L.Inv(w.locks) && L.Enabled(w.locks, step)
    requires Holds(After(w, Locking(step)), who) && !(step.Write? && step.lock == who)
    ensures Holds(w, who)
  {
  }

  lemma StepKeepsInv(w: World, e: Small)
    requires Inv(w) && Enabled(w, e)
    ensures Inv(After(w, e))
  {
    var after := After(w, e);
    match e
    case Locking(step) =>
      L.StepKeepsInvariant(w.locks, step);
      forall who | who in after.read && Holds(after, who) ensures after.read[who] == after.shared.disk {
        HeldBefore(w, step, who);
      }
    case Load(_) =>
    case Save(who, _, _) =>
      forall other | Holds(w, other) ensures other == who {
        OneHolder(w, who, other);
      }
    case Look(_) =>
  }

  /** What a small step is for the others: a write as a whole, a refresh, or nothing. */
  function EventsOf(e: Small): seq<Event> {
    match e
    case Save(who, change, failure) => [Write(who, change, failure)]
    case Look(who) => [Refresh(who)]
    case _ => []
  }

  lemma SmallStepIsAtomic(w: World, e: Small)
    requires Inv(w) && Enabled(w, e)
    ensures Known(w.shared, EventsOf(e)) && After(w, e).shared == BM25Index.After(w.shared, EventsOf(e))
  {
    var events := EventsOf(e);
    if events != [] {
      assert events[..0] == [] && BM25Index.After(w.shared, []) == w.shared;
    }
  }

  // ----- whole runs ------------------------------------------------------------------------------------------------

  ghost predicate Possible(w: World, steps: seq<Small>)
    decreases |steps|
  {
    steps == [] || (Enabled(w, steps[0]) && Possible(After(w, steps[0]), steps[1..]))
  }

  function Final(w: World, steps: seq<Small>): World
    requires Possible(w, steps)
    decreases |steps|
  {
    if steps == [] then w else Final(After(w, steps[0]), steps[1..])
  }

  function AllEvents(steps: seq<Small>): seq<Event> {
    if steps == [] then [] else EventsOf(steps[0]) + AllEvents(steps[1..])
  }

  lemma {:induction false} AfterBoth(s: Shared, a: seq<Event>, b: seq<Event>)
    requires Known(s, a) && Known(BM25Index.After(s, a), b)
    ensures Known(s, a + b) && BM25Index.After(s, a + b) == BM25Index.After(BM25Index.After(s, a), b)
    decreases |b|
  {
    if b == [] {
      assert a + b == a;
    } else {
      var front, e := b[..|b| - 1], b[|b| - 1];
      AfterBoth(s, a, front);
      assert (a + b)[..|a + b| - 1] == a + front && (a + b)[|a + b| - 1] == e;
    }
  }

  /** However the small steps of all instances interleave, with locks that fail and processes that crash: the file and
      all memories are those of a run of whole writes. */
  lemma {:induction false} LockedRunIsAtomic(w: World, steps: seq<Small>)
    requires Inv(w) && Possible(w, steps)
    ensures Known(w.shared, AllEvents(steps))
    ensures Final(w, steps).shared == BM25Index.After(w.shared, AllEvents(steps))
    decreases |steps|
  {
    if steps != [] {
      StepKeepsInv(w, steps[0]);
      SmallStepIsAtomic(w, steps[0]);
      LockedRunIsAtomic(After(w, steps[0]), steps[1..]);
      AfterBoth(w.shared, EventsOf(steps[0]), AllEvents(steps[1..]));
    }
  }

  /** So the file holds what the successful writes make of it, in the order in which they replaced it. */
  lemma LockedFileIsAfterAll(w: World, steps: seq<Small>)
    requires L.Fresh(w.locks) && w.read == map[] && Possible(w, steps)
    ensures Final(w, steps).shared.disk.Documents() ==
      AfterAll(w.shared.disk.Documents(), Succeeded(AllEvents(steps)))
  {
    LockedRunIsAtomic(w, steps);
    FileIsAfterAll(w.shared, AllEvents(steps));
  }
}
