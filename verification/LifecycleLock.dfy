/** The lock file that serializes index and history changes across processes, step by step
    (src/ingestion/storage/lifecycle_lock.py). */
module LifecycleLock {
  import opened Outcomes

  /** A token names the process that wrote it and is used once. */
  datatype Token = Token(process: nat, unique: nat)

  /** Where a lock object stands between two system calls. */
  datatype Phase =
    | Idle
    | Trying(token: Token)
    | Created(token: Token, file: nat)
    | Held(token: Token, file: nat)
    | Releasing(token: Token, file: nat)
    | Removing(token: Token, file: nat)

  /** The file at the lock's path, what every file ever created holds (nothing until its token is written), the
      lock objects with the process each lives in, the processes that died, and the names not used yet. */
  datatype State = State(
    path: Option<nat>, contents: map<nat, Option<Token>>,
    phases: map<nat, Phase>, process: map<nat, nat>, dead: set<nat>, nextFile: nat, nextToken: nat)

  datatype Step =
    | Begin(lock: nat)          // a new token
    | Create(lock: nat)         // open with O_CREAT and O_EXCL
    | GiveUp(lock: nat)         // timeout, or the owner of the file is not alive
    | Write(lock: nat)          // the token, and fsync
    | WriteFails(lock: nat)     // close and unlink
    | Release(lock: nat)        // close
    | ReadOwner(lock: nat)      // whether the file is still ours
    | ReadFails(lock: nat)
    | Unlink(lock: nat)
    | Crash(process: nat)

  /** The lock is between creating its file and being done with it. */
  predicate Owning(p: Phase) {
    p.Created? || p.Held? || p.Releasing? || p.Removing?
  }

  predicate Alive(s: State, lock: nat) {
    lock in s.phases && lock in s.process && s.process[lock] !in s.dead
  }

  predicate Enabled(s: State, step: Step) {
    match step
    case Begin(lock) => Alive(s, lock) && s.phases[lock].Idle?
    case Create(lock) => Alive(s, lock) && s.phases[lock].Trying? && s.path == None
    case GiveUp(lock) => Alive(s, lock) && s.phases[lock].Trying? && s.path.Some?
    case Write(lock) => Alive(s, lock) && s.phases[lock].Created?
    case WriteFails(lock) => Alive(s, lock) && s.phases[lock].Created?
    case Release(lock) => Alive(s, lock) && s.phases[lock].Held?
    case ReadOwner(lock) => Alive(s, lock) && s.phases[lock].Releasing?
    case ReadFails(lock) => Alive(s, lock) && s.phases[lock].Releasing?
    case Unlink(lock) => Alive(s, lock) && s.phases[lock].Removing?
    case Crash(process) => true
  }

  /** The token in the file at the path. */
  function Owner(s: State): Option<Token> {
    if s.path.Some? && s.path.value in s.contents then s.contents[s.path.value] else None
  }

  function After(s: State, step: Step): State
    requires Enabled(s, step)
  {
    match step
    case Begin(lock) =>
      s.(phases := s.phases[lock := Trying(Token(s.process[lock], s.nextToken))], nextToken := s.nextToken + 1)
    case Create(lock) =>
      s.(path := Some(s.nextFile), contents := s.contents[s.nextFile := None],
         phases := s.phases[lock := Created(s.phases[lock].token, s.nextFile)], nextFile := s.nextFile + 1)
    case GiveUp(lock) => s.(phases := s.phases[lock := Idle])
    case Write(lock) =>
      var p := s.phases[lock];
      s.(contents := s.contents[p.file := Some(p.token)], phases := s.phases[lock := Held(p.token, p.file)])
    case WriteFails(lock) => s.(path := None, phases := s.phases[lock := Idle])
    case Release(lock) => s.(phases := s.phases[lock := Releasing(s.phases[lock].token, s.phases[lock].file)])
    case ReadOwner(lock) =>
      var p := s.phases[lock];
      s.(phases := s.phases[lock := if Owner(s) == Some(p.token) then Removing(p.token, p.file) else Idle])
    case ReadFails(lock) => s.(phases := s.phases[lock := Idle])
    case Unlink(lock) => s.(path := None, phases := s.phases[lock := Idle])
    case Crash(process) => s.(dead := s.dead + {process})
  }

  // ----- the invariant ---------------------------------------------------------------------------------

  /** What holds of a lock that owns a file, dead or alive. */
  predicate OwnsPath(s: State, lock: nat)
    requires lock in s.phases && Owning(s.phases[lock])
  {
    var p := s.phases[lock];
    && s.path == Some(p.file) && p.file in s.contents
    && s.contents[p.file] == if p.Created? then None else Some(p.token)
  }

  ghost predicate Inv(s: State) {
    && (forall f :: f in s.contents ==> f < s.nextFile)
    && (forall lock :: lock in s.phases && Owning(s.phases[lock]) ==> OwnsPath(s, lock))
    && (forall a, b :: a in s.phases && b in s.phases && Owning(s.phases[a]) && Owning(s.phases[b]) ==> a == b)
    && (s.path.Some? ==> s.path.value in s.contents)
  }

  /** Every step of every process keeps the invariant: a file is created only when nobody owns one. */
  lemma StepKeepsInvariant(s: State, step: Step)
    requires Inv(s) && Enabled(s, step)
    ensures Inv(After(s, step))
  {
    if step.Create? {
      assert forall lock :: lock in s.phases ==> !Owning(s.phases[lock]) || OwnsPath(s, lock);
    }
  }

  ghost predicate Possible(s: State, steps: seq<Step>)
    decreases |steps|
  {
    steps == [] || (Enabled(s, steps[0]) && Possible(After(s, steps[0]), steps[1..]))
  }

  function Final(s: State, steps: seq<Step>): State
    requires Possible(s, steps)
    decreases |steps|
  {
    if steps == [] then s else Final(After(s, steps[0]), steps[1..])
  }

  /** Before anybody tried to lock. */
  predicate Fresh(s: State) {
    s.path == None && s.contents == map[] && forall lock :: lock in s.phases ==> s.phases[lock].Idle?
  }

  lemma {:induction false} RunKeepsInvariant(s: State, steps: seq<Step>)
    requires Inv(s) && Possible(s, steps)
    ensures Inv(Final(s, steps))
    decreases |steps|
  {
    if steps != [] {
      StepKeepsInvariant(s, steps[0]);
      RunKeepsInvariant(After(s, steps[0]), steps[1..]);
    }
  }

  // ----- what the lock promises --------------------------------------------------------------------------

  /** However the steps of all processes interleave, with crashes and failures anywhere, at most one lock is held. */
  lemma MutualExclusion(s: State, steps: seq<Step>, a: nat, b: nat)
    requires Fresh(s) && Possible(s, steps)
    requires var e := Final(s, steps); a in e.phases && b in e.phases && Owning(e.phases[a]) && Owning(e.phases[b])
    ensures a == b
  {
    RunKeepsInvariant(s, steps);
  }

  /** Whatever a lock unlinks is the file it created itself, with its own token or still empty. */
  lemma RemovesOnlyItsOwn(s: State, steps: seq<Step>, step: Step)
    requires Fresh(s) && Possible(s, steps) && Enabled(Final(s, steps), step)
    requires Final(s, steps).path.Some? && After(Final(s, steps), step).path == None
    ensures var e := Final(s, steps);
      && (step.WriteFails? || step.Unlink?) && e.path == Some(e.phases[step.lock].file)
      && (Owner(e) == None || Owner(e) == Some(e.phases[step.lock].token))
      && forall other :: other in e.phases && other != step.lock ==> !Owning(e.phases[other])
  {
    RunKeepsInvariant(s, steps);
    var e := Final(s, steps);
    assert OwnsPath(e, step.lock);
  }

  /** Releasing always finds its own token, and goes on to remove it: the file is never another owner's by then. */
  lemma ReleaseFindsItself(s: State, steps: seq<Step>, lock: nat)
    requires Fresh(s) && Possible(s, steps) && lock in Final(s, steps).phases && Final(s, steps).phases[lock].Releasing?
    ensures Owner(Final(s, steps)) == Some(Final(s, steps).phases[lock].token)
    ensures Alive(Final(s, steps), lock) ==> After(Final(s, steps), ReadOwner(lock)).phases[lock].Removing?
  {
    RunKeepsInvariant(s, steps);
    assert OwnsPath(Final(s, steps), lock);
  }

  lemma OneFirst(s: State, step: Step, steps: seq<Step>)
    requires Enabled(s, step) && Possible(After(s, step), steps)
    ensures Possible(s, [step] + steps) && Final(s, [step] + steps) == Final(After(s, step), steps)
  {
    assert ([step] + steps)[1..] == steps;
  }

  /** A release that nothing disturbs lets the next one in. */
  lemma ReleaseLetsNextIn(s: State, steps: seq<Step>, lock: nat, next: nat)
    requires Fresh(s) && Possible(s, steps)
    requires var e := Final(s, steps);
      && Enabled(e, Release(lock)) && Alive(e, next) && e.phases[next].Trying?
    ensures var e := Final(s, steps);
      && !Enabled(e, Create(next))
      && var release := [Release(lock)] + ([ReadOwner(lock)] + ([Unlink(lock)] + ([Create(next)] + [])));
         && Possible(e, release)
         && next in Final(e, release).phases && Final(e, release).phases[next].Created?
  {
    RunKeepsInvariant(s, steps);
    var e := Final(s, steps);
    assert OwnsPath(e, lock);
    var a := After(e, Release(lock));
    var b := After(a, ReadOwner(lock));
    var c := After(b, Unlink(lock));
    assert b.phases[lock].Removing? && c.path == None && Enabled(c, Create(next));
    var d := After(c, Create(next));
    assert d.phases[next].Created? && Final(d, []) == d;
    OneFirst(c, Create(next), []);
    OneFirst(b, Unlink(lock), [Create(next)] + []);
    OneFirst(a, ReadOwner(lock), [Unlink(lock)] + ([Create(next)] + []));
    OneFirst(e, Release(lock), [ReadOwner(lock)] + ([Unlink(lock)] + ([Create(next)] + [])));
  }

  /** Once the process of an owner has died, its file stays, and nobody else ever gets the lock. */
  lemma {:induction false} CrashedLockIsNeverTaken(s: State, steps: seq<Step>, lock: nat)
    requires Inv(s) && Possible(s, steps)
    requires lock in s.phases && lock in s.process && s.process[lock] in s.dead && Owning(s.phases[lock])
    ensures var e := Final(s, steps);
      && e.path == s.path && lock in e.phases && e.phases[lock] == s.phases[lock]
      && forall other :: other in e.phases && Owning(e.phases[other]) ==> other == lock
    decreases |steps|
  {
    assert OwnsPath(s, lock);
    if steps != [] {
      var next := After(s, steps[0]);
      StepKeepsInvariant(s, steps[0]);
      DeadOwnerStays(s, steps[0], lock);
      CrashedLockIsNeverTaken(next, steps[1..], lock);
    }
  }

  lemma DeadOwnerStays(s: State, step: Step, lock: nat)
    requires Inv(s) && Enabled(s, step)
    requires lock in s.phases && lock in s.process && s.process[lock] in s.dead && Owning(s.phases[lock])
    ensures var n := After(s, step);
      && n.path == s.path && lock in n.phases && n.phases[lock] == s.phases[lock]
      && n.process == s.process && s.dead <= n.dead
  {
    assert OwnsPath(s, lock);
  }
}
