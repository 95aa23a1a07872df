/** What reaches an export: validation, review and export on top of the session repository
    (src/agents/services/solution_service.py, src/mcp_server/tools/configuration_sessions.py,
    src/agents/supervisor.py). */
module Governance {
  import opened Outcomes
  import opened Text
  import opened TaskPlanning
  import opened Validation
  import opened Supervisor
  import opened SupervisorSafety
  import opened CleanDrafts
  import opened SessionTables
  import opened SessionHistory
  import opened SessionRuns

  // ----- what the services write ---------------------------------------------------------------------

  /** `_persist_result`: the whole state of the graph becomes the next revision. */
  function PersistChange(t: Turn): Change
    requires t.Waiting? || t.Finished?
  {
    var s := t.state;
    NO_CHANGE.(status := Some(s.status), draft := Some(s.work.draft),
               conflicts := Some(s.work.report.conflicts), findings := Some(s.work.report.findings))
  }

  /** `ConfigurationSessionApplication.validate`. */
  function ValidationChange(settings: Settings, c: Content): Change {
    var report := settings.validate(c.draft);
    NO_CHANGE.(status := Some(if report.Blocking() then Paused else ReviewRequired),
               conflicts := Some(report.conflicts), findings := Some(report.findings))
  }

  /** `SolutionService.review`. */
  function ReviewChange(c: Content, d: Decision): Change {
    match d
    case Approve => NO_CHANGE.(status := Some(Approved))
    case Reject => NO_CHANGE.(status := Some(Rejected))
    case Revise =>
      NO_CHANGE.(status := Some(Planning), draft := Some(Revised(c.draft)), conflicts := Some({}), findings := Some({}))
  }

  /** Every task is invalidated, and all evidence is dropped. */
  function Revised(d: Draft): Draft {
    d.(evidence := [], bindings := [],
       invalidated := seq(|d.tasks|, i requires 0 <= i < |d.tasks| => d.tasks[i].taskId))
  }

  /** `SolutionService.compose` does not raise. */
  predicate Composable(c: Content) {
    (c.status == ReviewRequired || c.status == Approved) && c.conflicts == {} && c.findings == {}
  }

  // ----- the system ----------------------------------------------------------------------------------

  /** A revision that some caller has read and not yet acted upon. */
  datatype Reading = Reading(session: string, revision: nat, content: Content)

  /** The database, what is being worked on, and every session identifier that was ever given out. */
  datatype System = System(tables: Tables, readings: set<Reading>, used: set<string>)

  datatype Event =
    | Start(w: Workspace, session: string, goal: string, draft: Draft)
    | Read(w: Workspace, session: string, revision: nat)
    | Persist(w: Workspace, session: string, expected: nat, turn: Turn)
    | Validated(w: Workspace, reading: Reading)
    | Reviewed(w: Workspace, reading: Reading, decision: Decision, id: string)
    | Cancelling(w: Workspace, session: string, expected: nat)
    | Exported(w: Workspace, reading: Reading, format: Format, id: string)
    | Housekeeping(w: Workspace, op: Operation)

  /** When the services take a step: identifiers are fresh, turns come from the supervisor, reviews are of
      revisions that were read as review_required, exports of revisions that were read as approved. */
  predicate Enabled(settings: Settings, y: System, e: Event) {
    match e
    case Start(_, session, _, _) => session !in y.used
    case Read(w, session, revision) => Visible(y.tables, w, session, false) && (session, revision) in y.tables.revisions
    case Persist(_, _, _, turn) => Sound(settings, turn) && (turn.Waiting? || turn.Finished?)
    case Validated(_, reading) => reading in y.readings
    case Reviewed(_, reading, _, _) => reading in y.readings && reading.content.status == ReviewRequired
    case Cancelling(_, _, _) => true
    case Exported(_, reading, _, _) => reading in y.readings && reading.content.status == Approved
    case Housekeeping(_, op) => op.AddTurn? || op.DeleteSession? || op.RestoreSession? || op.PurgeSessions?
  }

  /** The repository operation of an event. */
  function OperationOf(settings: Settings, e: Event): Operation
    requires !e.Read?
    requires e.Persist? ==> e.turn.Waiting? || e.turn.Finished?
  {
    match e
    case Start(_, session, goal, draft) => CreateSession(session, goal, draft)
    case Persist(_, session, expected, turn) => UpdateRevision(session, expected, PersistChange(turn))
    case Validated(_, r) => UpdateRevision(r.session, r.revision, ValidationChange(settings, r.content))
    case Reviewed(_, r, d, id) => ReviewTransition(r.session, r.revision, d, ReviewChange(r.content, d), id)
    case Cancelling(_, session, expected) => UpdateRevision(session, expected, NO_CHANGE.(status := Some(Cancelled)))
    case Exported(_, r, f, id) => AddExport(r.session, r.revision, f, id)
    case Housekeeping(_, op) => op
  }

  function After(settings: Settings, y: System, e: Event): System
    requires Enabled(settings, y, e)
  {
    if e.Read? then
      y.(readings := y.readings + {Reading(e.session, e.revision, y.tables.revisions[(e.session, e.revision)])})
    else
      System(Apply(y.tables, e.w, OperationOf(settings, e)), y.readings,
             if e.Start? then y.used + {e.session} else y.used)
  }

  // ----- the invariant -------------------------------------------------------------------------------

  /** Validating the content again finds nothing, and it says so itself. */
  predicate Clean(settings: Settings, c: Content) {
    && c.conflicts == {} && c.findings == {}
    && settings.validate(c.draft).conflicts == {} && settings.validate(c.draft).findings == {}
  }

  ghost predicate DecidedAt(t: Tables, s: string, r: nat, d: Decision) {
    exists a :: a in Of(t.approvals, s) && a.revision == r && a.value == d
  }

  ghost predicate ApprovedAt(t: Tables, s: string, r: nat) {
    DecidedAt(t, s, r, Approve)
  }

  /** What a decision makes of a revision: approving and rejecting change the status alone; a draft to be revised keeps
      its plan, of which every task is invalid, and none of its evidence. */
  predicate Decided(c: Content, next: Content, d: Decision) {
    match d
    case Approve => next == c.(status := Approved)
    case Reject => next == c.(status := Rejected)
    case Revise =>
      && next.status == Planning && next.goal == c.goal && next.conflicts == {} && next.findings == {}
      && next.draft.tasks == c.draft.tasks && next.draft.edges == c.draft.edges && next.draft.context == c.draft.context
      && next.draft.evidence == [] && next.draft.bindings == []
      && forall task :: task in c.draft.tasks ==> task.taskId in next.draft.invalidated
  }

  /** A recorded decision was made on a revision under review, and the next revision is what it made of that one. */
  ghost predicate Followed(t: Tables, a: Logged<Decision>) {
    && (a.session, a.revision) in t.revisions && (a.session, a.revision + 1) in t.revisions
    && t.revisions[(a.session, a.revision)].status == ReviewRequired
    && Decided(t.revisions[(a.session, a.revision)], t.revisions[(a.session, a.revision + 1)], a.value)
  }

  ghost predicate AllFollowed(t: Tables, s: string) {
    forall a :: a in Of(t.approvals, s) ==> Followed(t, a)
  }

  /** An approved revision follows a clean revision under review, with the same draft and an approval of it. */
  ghost predicate Governed(settings: Settings, t: Tables, s: string, r: nat)
    requires (s, r) in t.revisions
  {
    var c := t.revisions[(s, r)];
    && (c.status == ReviewRequired ==> Clean(settings, c))
    && (c.status == Approved ==>
          && Clean(settings, c) && r > 1 && (s, r - 1) in t.revisions
          && t.revisions[(s, r - 1)].status == ReviewRequired && t.revisions[(s, r - 1)].draft == c.draft
          && ApprovedAt(t, s, r - 1))
    && (c.status == Rejected ==> r > 1 && DecidedAt(t, s, r - 1, Reject))
  }

  ghost predicate ExportsApproved(t: Tables, s: string) {
    forall x :: x in Of(t.exports, s) ==>
      (s, x.revision) in t.revisions && t.revisions[(s, x.revision)].status == Approved
  }

  ghost predicate ReadingHolds(t: Tables, r: Reading) {
    r.session in t.sessions ==>
      (r.session, r.revision) in t.revisions && t.revisions[(r.session, r.revision)] == r.content
  }

  /** What a reader saw stays true even when the session is purged. */
  predicate ReadingClean(settings: Settings, r: Reading) {
    r.content.status == ReviewRequired || r.content.status == Approved ==> Clean(settings, r.content)
  }

  ghost predicate Inv(settings: Settings, y: System) {
    && Consistent(y.tables)
    && (forall s, r :: (s, r) in y.tables.revisions ==> Governed(settings, y.tables, s, r))
    && (forall s :: s in y.tables.sessions ==> ExportsApproved(y.tables, s))
    && (forall s :: s in y.tables.sessions ==> AllFollowed(y.tables, s))
    && (forall r :: r in y.readings ==> r.session in y.used && ReadingHolds(y.tables, r) && ReadingClean(settings, r))
    && y.tables.sessions.Keys <= y.used
  }

  // ----- every event keeps it --------------------------------------------------------------------------

  /** A revision of a session that is still there is still there. */
  lemma StaysThere(t: Tables, w: Workspace, op: Operation, s: string, r: nat)
    requires Consistent(t) && (s, r) in t.revisions && s in Apply(t, w, op).sessions
    ensures (s, r) in Apply(t, w, op).revisions && Apply(t, w, op).revisions[(s, r)] == t.revisions[(s, r)]
  {
    if Purges(op, s) {
      assert Apply(t, w, op) == t;
    } else {
      ApplyTouches(t, w, op, s);
      OldRevision(t, Apply(t, w, op), s, r);
    }
  }

  /** And it is still governed. */
  lemma StaysGoverned(settings: Settings, t: Tables, w: Workspace, op: Operation, s: string, r: nat)
    requires Consistent(t) && (s, r) in t.revisions && Governed(settings, t, s, r)
    requires s in Apply(t, w, op).sessions
    ensures (s, r) in Apply(t, w, op).revisions && Apply(t, w, op).revisions[(s, r)] == t.revisions[(s, r)]
    ensures Governed(settings, Apply(t, w, op), s, r)
  {
    var after := Apply(t, w, op);
    if Purges(op, s) {
      assert after == t;
    } else {
      ApplyTouches(t, w, op, s);
      OldRevision(t, after, s, r);
      if r > 1 {
        OldRevision(t, after, s, r - 1);
      }
      assert Of(t.approvals, s) <= Of(after.approvals, s);
    }
  }

  lemma OldRevision(t: Tables, after: Tables, s: string, r: nat)
    requires Consistent(t) && Consistent(after) && s in t.sessions && s in after.sessions
    requires Grown(RecordOf(t, s), RecordOf(after, s)) && 1 <= r <= t.sessions[s].current
    ensures (s, r) in t.revisions && (s, r) in after.revisions && after.revisions[(s, r)] == t.revisions[(s, r)]
  {
    assert RecordOf(t, s).history[r - 1] == RecordOf(after, s).history[r - 1];
    assert RecordOf(t, s).history[r - 1] == At(t, s, r) && RecordOf(after, s).history[r - 1] == At(after, s, r);
  }

  /** The one revision an operation may add. */
  lemma NewRevision(t: Tables, w: Workspace, op: Operation, s: string, r: nat)
    requires Consistent(t) && (s, r) in Apply(t, w, op).revisions && (s, r) !in t.revisions
    ensures op.CreateSession? || op.UpdateRevision? || op.ReviewTransition?
    ensures s == op.session
    ensures op.CreateSession? ==> r == 1 && Apply(t, w, op).revisions[(s, r)].status == Created
    ensures !op.CreateSession? ==>
      && r == op.expected + 1 && (s, op.expected) in t.revisions
      && s in t.sessions && t.sessions[s].current == op.expected
      && Apply(t, w, op).revisions[(s, r)] == Merge(t.revisions[(s, op.expected)], op.change)
    ensures op.ReviewTransition? ==>
      Apply(t, w, op).approvals == t.approvals + [Logged(op.id, s, op.expected, op.decision)]
  {
  }

  lemma PersistedIsGoverned(settings: Settings, turn: Turn, c: Content)
    requires Sound(settings, turn) && (turn.Waiting? || turn.Finished?)
    ensures var next := Merge(c, PersistChange(turn));
      next.status != Approved && next.status != Rejected && (next.status == ReviewRequired ==> Clean(settings, next))
  {
  }

  lemma NewPersisted(settings: Settings, y: System, e: Event, s: string, r: nat)
    requires Inv(settings, y) && Enabled(settings, y, e) && e.Persist?
    requires (s, r) in After(settings, y, e).tables.revisions && (s, r) !in y.tables.revisions
    ensures Governed(settings, After(settings, y, e).tables, s, r)
  {
    NewRevision(y.tables, e.w, OperationOf(settings, e), s, r);
    PersistedIsGoverned(settings, e.turn, y.tables.revisions[(s, r - 1)]);
  }

  lemma NewValidated(settings: Settings, y: System, e: Event, s: string, r: nat)
    requires Inv(settings, y) && Enabled(settings, y, e) && e.Validated?
    requires (s, r) in After(settings, y, e).tables.revisions && (s, r) !in y.tables.revisions
    ensures Governed(settings, After(settings, y, e).tables, s, r)
  {
    NewRevision(y.tables, e.w, OperationOf(settings, e), s, r);
    assert ReadingHolds(y.tables, e.reading);
  }

  lemma NewReviewed(settings: Settings, y: System, e: Event, s: string, r: nat)
    requires Inv(settings, y) && Enabled(settings, y, e) && e.Reviewed?
    requires (s, r) in After(settings, y, e).tables.revisions && (s, r) !in y.tables.revisions
    ensures Governed(settings, After(settings, y, e).tables, s, r)
  {
    NewRevision(y.tables, e.w, OperationOf(settings, e), s, r);
    assert ReadingHolds(y.tables, e.reading);
    assert Governed(settings, y.tables, s, r - 1);
    ApprovalAdded(settings, y, e, s, r);
  }

  /** The revision a step adds is governed. */
  lemma NewIsGoverned(settings: Settings, y: System, e: Event, s: string, r: nat)
    requires Inv(settings, y) && Enabled(settings, y, e) && !e.Read?
    requires (s, r) in After(settings, y, e).tables.revisions && (s, r) !in y.tables.revisions
    ensures Governed(settings, After(settings, y, e).tables, s, r)
  {
    if e.Persist? {
      NewPersisted(settings, y, e, s, r);
    } else if e.Validated? {
      NewValidated(settings, y, e, s, r);
    } else if e.Reviewed? {
      NewReviewed(settings, y, e, s, r);
    } else {
      NewRevision(y.tables, e.w, OperationOf(settings, e), s, r);
    }
  }

  lemma ApprovalAdded(settings: Settings, y: System, e: Event, s: string, r: nat)
    requires Inv(settings, y) && Enabled(settings, y, e) && e.Reviewed?
    requires (s, r) in After(settings, y, e).tables.revisions && (s, r) !in y.tables.revisions
    ensures var after := After(settings, y, e).tables;
      && s == e.reading.session && r == e.reading.revision + 1
      && (s, r - 1) in after.revisions && after.revisions[(s, r - 1)] == y.tables.revisions[(s, r - 1)]
      && DecidedAt(after, s, r - 1, e.decision)
  {
    DecisionAdded(y.tables, e.w, OperationOf(settings, e), s, r);
  }

  lemma DecisionAdded(t: Tables, w: Workspace, op: Operation, s: string, r: nat)
    requires Consistent(t) && op.ReviewTransition? && (s, r) in Apply(t, w, op).revisions && (s, r) !in t.revisions
    ensures var after := Apply(t, w, op);
      && s == op.session && r == op.expected + 1 && (s, r - 1) in t.revisions
      && (s, r - 1) in after.revisions && after.revisions[(s, r - 1)] == t.revisions[(s, r - 1)]
      && DecidedAt(after, s, r - 1, op.decision)
  {
    NewRevision(t, w, op, s, r);
    var row := Logged(op.id, s, op.expected, op.decision);
    OfOneMore(t.approvals, row, s);
    var log := Of(t.approvals + [row], s);
    assert log[|log| - 1] == row;
  }

  lemma ExportsOf(t: Tables, w: Workspace, op: Operation, s: string)
    requires s in Apply(t, w, op).sessions
    ensures Of(Apply(t, w, op).exports, s) ==
      Of(t.exports, s) + if op.AddExport? && op.session == s && RecordExport(t, w, s, op.expected, op.format, op.id).Ok?
                         then [Logged(op.id, s, op.expected, op.format)] else []
  {
    match op
    case AddExport(session, expected, f, id) => ExportAdded(t, w, op, s);
    case PurgeSessions(selected) => OfWithout(t.exports, selected.Keys, s);
    case _ => ExportsUntouched(t, w, op);
  }

  lemma ExportAdded(t: Tables, w: Workspace, op: Operation, s: string)
    requires op.AddExport?
    ensures Of(Apply(t, w, op).exports, s) ==
      Of(t.exports, s) + if op.session == s && RecordExport(t, w, s, op.expected, op.format, op.id).Ok?
                         then [Logged(op.id, s, op.expected, op.format)] else []
  {
    if RecordExport(t, w, op.session, op.expected, op.format, op.id).Ok? {
      OfOneMore(t.exports, Logged(op.id, op.session, op.expected, op.format), s);
    }
  }

  lemma ExportsUntouched(t: Tables, w: Workspace, op: Operation)
    requires !op.AddExport? && !op.PurgeSessions?
    ensures Apply(t, w, op).exports == t.exports
  {
  }

  lemma ExportIsApproved(settings: Settings, y: System, e: Event, s: string, revision: nat)
    requires Inv(settings, y) && Enabled(settings, y, e) && !e.Read?
    requires s in After(settings, y, e).tables.sessions && s in y.tables.sessions
    requires e.Exported? && e.reading.session == s && e.reading.revision == revision
    ensures var after := After(settings, y, e).tables;
      (s, revision) in after.revisions && after.revisions[(s, revision)].status == Approved
  {
    assert ReadingHolds(y.tables, e.reading);
    assert Governed(settings, y.tables, s, revision);
    StaysGoverned(settings, y.tables, e.w, OperationOf(settings, e), s, revision);
  }

  lemma OldExportIsApproved(settings: Settings, y: System, e: Event, s: string, x: Logged<Format>)
    requires Inv(settings, y) && Enabled(settings, y, e) && !e.Read?
    requires s in After(settings, y, e).tables.sessions && s in y.tables.sessions
    requires x in Of(y.tables.exports, s)
    ensures var after := After(settings, y, e).tables;
      (s, x.revision) in after.revisions && after.revisions[(s, x.revision)].status == Approved
  {
    assert ExportsApproved(y.tables, s);
    assert Governed(settings, y.tables, s, x.revision);
    StaysGoverned(settings, y.tables, e.w, OperationOf(settings, e), s, x.revision);
  }

  /** Whatever a step exports was approved when it was read, and is still approved. */
  lemma ExportsStayApproved(settings: Settings, y: System, e: Event, s: string)
    requires Inv(settings, y) && Enabled(settings, y, e) && !e.Read?
    requires s in After(settings, y, e).tables.sessions
    ensures ExportsApproved(After(settings, y, e).tables, s)
  {
    var op, after := OperationOf(settings, e), After(settings, y, e).tables;
    ExportsOf(y.tables, e.w, op, s);
    if s in y.tables.sessions {
      forall x | x in Of(after.exports, s)
        ensures (s, x.revision) in after.revisions && after.revisions[(s, x.revision)].status == Approved
      {
        if x in Of(y.tables.exports, s) {
          OldExportIsApproved(settings, y, e, s, x);
        } else {
          ExportIsApproved(settings, y, e, s, x.revision);
        }
      }
    } else {
      NothingLogged(y.tables, s);
    }
  }

  lemma NothingLogged(t: Tables, s: string)
    requires Consistent(t) && s !in t.sessions
    ensures Of(t.exports, s) == []
  {
    assert LogsFit(t, s);
    if Of(t.exports, s) != [] {
      SomethingToReferTo(Of(t.exports, s), 0);
    }
  }

  lemma SomethingToReferTo<T>(rows: seq<Logged<T>>, current: nat)
    requires Ordered(rows, current) && rows != []
    ensures current >= 1
  {
    assert 1 <= rows[0].revision <= current;
  }

  // ----- every decision is followed --------------------------------------------------------------------

  lemma ApprovalsOf(t: Tables, w: Workspace, op: Operation, s: string)
    requires s in Apply(t, w, op).sessions && !op.RecordApproval?
    ensures Of(Apply(t, w, op).approvals, s) == Of(t.approvals, s) +
      if op.ReviewTransition? && op.session == s && Review(t, w, s, op.expected, op.decision, op.change, op.id).Ok?
      then [Logged(op.id, s, op.expected, op.decision)] else []
  {
    match op
    case ReviewTransition(_, _, _, _, _) => DecisionLogged(t, w, op, s);
    case PurgeSessions(selected) => OfWithout(t.approvals, selected.Keys, s);
    case _ => ApprovalsUntouched(t, w, op);
  }

  lemma DecisionLogged(t: Tables, w: Workspace, op: Operation, s: string)
    requires op.ReviewTransition?
    ensures Of(Apply(t, w, op).approvals, s) == Of(t.approvals, s) +
      if op.session == s && Review(t, w, s, op.expected, op.decision, op.change, op.id).Ok?
      then [Logged(op.id, s, op.expected, op.decision)] else []
  {
    if Review(t, w, op.session, op.expected, op.decision, op.change, op.id).Ok? {
      OfOneMore(t.approvals, Logged(op.id, op.session, op.expected, op.decision), s);
    }
  }

  lemma ApprovalsUntouched(t: Tables, w: Workspace, op: Operation)
    requires !op.ReviewTransition? && !op.RecordApproval? && !op.PurgeSessions?
    ensures Apply(t, w, op).approvals == t.approvals
  {
  }

  lemma ReviewIsDecided(c: Content, d: Decision)
    ensures Decided(c, Merge(c, ReviewChange(c, d)), d)
  {
    var next := Merge(c, ReviewChange(c, d));
    if d == Revise {
      forall task | task in c.draft.tasks ensures task.taskId in next.draft.invalidated {
        var i :| 0 <= i < |c.draft.tasks| && c.draft.tasks[i] == task;
        assert next.draft.invalidated[i] == task.taskId;
      }
    }
  }

  lemma OldDecisionIsFollowed(t: Tables, w: Workspace, op: Operation, a: Logged<Decision>)
    requires Consistent(t) && a.session in Apply(t, w, op).sessions && Followed(t, a)
    ensures Followed(Apply(t, w, op), a)
  {
    StaysThere(t, w, op, a.session, a.revision);
    StaysThere(t, w, op, a.session, a.revision + 1);
  }

  lemma NewDecisionIsFollowed(t: Tables, w: Workspace, s: string, r: nat, d: Decision, id: string)
    requires (s, r) in t.revisions && t.revisions[(s, r)].status == ReviewRequired
    requires Review(t, w, s, r, d, ReviewChange(t.revisions[(s, r)], d), id).Ok?
    ensures Followed(Review(t, w, s, r, d, ReviewChange(t.revisions[(s, r)], d), id).value, Logged(id, s, r, d))
  {
    ReviewIsDecided(t.revisions[(s, r)], d);
  }

  /** Whatever was decided before a step, and in it, has its revision after it. */
  lemma DecisionsStayFollowed(settings: Settings, y: System, e: Event, s: string)
    requires Inv(settings, y) && Enabled(settings, y, e) && !e.Read?
    requires s in After(settings, y, e).tables.sessions
    ensures AllFollowed(After(settings, y, e).tables, s)
  {
    var op, after := OperationOf(settings, e), After(settings, y, e).tables;
    ApprovalsOf(y.tables, e.w, op, s);
    if s !in y.tables.sessions {
      NothingDecided(y.tables, s);
      return;
    }
    forall a | a in Of(after.approvals, s) ensures Followed(after, a) {
      if a in Of(y.tables.approvals, s) {
        OfMembers(y.tables.approvals, s, a);
        OldDecisionIsFollowed(y.tables, e.w, op, a);
      } else {
        assert ReadingHolds(y.tables, e.reading);
        NewDecisionIsFollowed(y.tables, e.w, s, e.reading.revision, e.decision, e.id);
      }
    }
  }

  lemma {:induction false} OfMembers<T>(rows: seq<Logged<T>>, s: string, a: Logged<T>)
    requires a in Of(rows, s)
    ensures a.session == s && a in rows
  {
    var front := rows[..|rows| - 1];
    if a in Of(front, s) {
      OfMembers(front, s, a);
    }
  }

  lemma NothingDecided(t: Tables, s: string)
    requires Consistent(t) && s !in t.sessions
    ensures Of(t.approvals, s) == []
  {
    assert LogsFit(t, s);
    if Of(t.approvals, s) != [] {
      SomethingToReferTo(Of(t.approvals, s), 0);
    }
  }

  lemma ReadingsStay(settings: Settings, y: System, e: Event, r: Reading)
    requires Inv(settings, y) && Enabled(settings, y, e) && !e.Read? && r in y.readings
    ensures ReadingHolds(After(settings, y, e).tables, r)
  {
    UsedSessions(y.tables, e.w, OperationOf(settings, e));
    ReadingStays(y.tables, e.w, OperationOf(settings, e), r);
  }

  lemma ReadingStays(t: Tables, w: Workspace, op: Operation, r: Reading)
    requires Consistent(t) && ReadingHolds(t, r) && (r.session in Apply(t, w, op).sessions ==> r.session in t.sessions)
    ensures ReadingHolds(Apply(t, w, op), r)
  {
    if r.session in Apply(t, w, op).sessions {
      StaysThere(t, w, op, r.session, r.revision);
    }
  }

  lemma StepKeepsGovernance(settings: Settings, y: System, e: Event)
    requires Inv(settings, y) && Enabled(settings, y, e)
    ensures Inv(settings, After(settings, y, e))
  {
    var next := After(settings, y, e);
    if !e.Read? {
      var op := OperationOf(settings, e);
      ApplyKeepsConsistent(y.tables, e.w, op);
      forall s, r | (s, r) in next.tables.revisions ensures Governed(settings, next.tables, s, r) {
        if (s, r) in y.tables.revisions {
          StaysGoverned(settings, y.tables, e.w, op, s, r);
        } else {
          NewIsGoverned(settings, y, e, s, r);
        }
      }
      forall s | s in next.tables.sessions ensures ExportsApproved(next.tables, s) && AllFollowed(next.tables, s) {
        ExportsStayApproved(settings, y, e, s);
        DecisionsStayFollowed(settings, y, e, s);
      }
      forall r | r in next.readings
        ensures r.session in next.used && ReadingHolds(next.tables, r) && ReadingClean(settings, r)
      {
        ReadingsStay(settings, y, e, r);
      }
      UsedSessions(y.tables, e.w, op);
    } else {
      assert Governed(settings, y.tables, e.session, e.revision);
    }
  }

  lemma UsedSessions(t: Tables, w: Workspace, op: Operation)
    ensures Apply(t, w, op).sessions.Keys <= t.sessions.Keys + if op.CreateSession? then {op.session} else {}
  {
  }

  // ----- whole runs ------------------------------------------------------------------------------------

  const EMPTY := System(Tables(map[], map[], {}, [], [], []), {}, {})

  predicate Possible(settings: Settings, y: System, events: seq<Event>)
    decreases |events|
  {
    events == [] || (Enabled(settings, y, events[0]) && Possible(settings, After(settings, y, events[0]), events[1..]))
  }

  function Outcome(settings: Settings, y: System, events: seq<Event>): System
    requires Possible(settings, y, events)
    decreases |events|
  {
    if events == [] then y else Outcome(settings, After(settings, y, events[0]), events[1..])
  }

  lemma {:induction false} RunKeepsGovernance(settings: Settings, y: System, events: seq<Event>)
    requires Inv(settings, y) && Possible(settings, y, events)
    ensures Inv(settings, Outcome(settings, y, events))
    decreases |events|
  {
    if events != [] {
      StepKeepsGovernance(settings, y, events[0]);
      RunKeepsGovernance(settings, After(settings, y, events[0]), events[1..]);
    }
  }

  /** In every run of the services, whatever was read before and written later: every approved revision follows
      a revision under review that was approved, with the same draft, and validates without a conflict or a
      finding. */
  lemma ApprovedMeansReviewed(settings: Settings, events: seq<Event>, s: string, r: nat)
    requires Possible(settings, EMPTY, events)
    requires var t := Outcome(settings, EMPTY, events).tables;
      (s, r) in t.revisions && t.revisions[(s, r)].status == Approved
    ensures var t := Outcome(settings, EMPTY, events).tables;
      && r > 1 && (s, r - 1) in t.revisions && t.revisions[(s, r - 1)].status == ReviewRequired
      && t.revisions[(s, r - 1)].draft == t.revisions[(s, r)].draft
      && ApprovedAt(t, s, r - 1)
      && Clean(settings, t.revisions[(s, r)]) && Composable(t.revisions[(s, r)])
  {
    RunKeepsGovernance(settings, EMPTY, events);
    var t := Outcome(settings, EMPTY, events).tables;
    assert Governed(settings, t, s, r);
  }

  /** Every decision in the log was made on a revision under review, and the revision after it is what the decision
      makes of that one: approved, rejected, or to be planned again. */
  lemma DecisionsAreFollowed(settings: Settings, events: seq<Event>, i: nat)
    requires Possible(settings, EMPTY, events)
    requires i < |Outcome(settings, EMPTY, events).tables.approvals|
    ensures var t := Outcome(settings, EMPTY, events).tables;
      Followed(t, t.approvals[i])
  {
    RunKeepsGovernance(settings, EMPTY, events);
    var t := Outcome(settings, EMPTY, events).tables;
    OfContains(t.approvals, i);
    assert LogsFit(t, t.approvals[i].session);
    assert AllFollowed(t, t.approvals[i].session);
  }

  /** A rejected draft is approved only after another revision came under review: the approved one follows it, and it
      validates without a conflict or a finding. */
  lemma RejectedIsReworked(settings: Settings, events: seq<Event>, i: nat, q: nat)
    requires Possible(settings, EMPTY, events)
    requires var t := Outcome(settings, EMPTY, events).tables;
      && i < |t.approvals| && t.approvals[i].value == Reject && t.approvals[i].revision < q
      && (t.approvals[i].session, q) in t.revisions && t.revisions[(t.approvals[i].session, q)].status == Approved
    ensures var t := Outcome(settings, EMPTY, events).tables;
      var s, r := t.approvals[i].session, t.approvals[i].revision;
      && (s, r + 1) in t.revisions && t.revisions[(s, r + 1)].status == Rejected
      && r + 1 < q - 1 && (s, q - 1) in t.revisions && t.revisions[(s, q - 1)].status == ReviewRequired
      && Clean(settings, t.revisions[(s, q - 1)])
  {
    DecisionsAreFollowed(settings, events, i);
    var t := Outcome(settings, EMPTY, events).tables;
    var s, r := t.approvals[i].session, t.approvals[i].revision;
    ApprovedMeansReviewed(settings, events, s, q);
    ReviewedIsClean(settings, events, s, q - 1);
    assert t.revisions[(s, r + 1)].status == Rejected;
  }

  lemma ReviewedIsClean(settings: Settings, events: seq<Event>, s: string, r: nat)
    requires Possible(settings, EMPTY, events)
    requires var t := Outcome(settings, EMPTY, events).tables;
      (s, r) in t.revisions && t.revisions[(s, r)].status == ReviewRequired
    ensures Clean(settings, Outcome(settings, EMPTY, events).tables.revisions[(s, r)])
  {
    RunKeepsGovernance(settings, EMPTY, events);
    assert Governed(settings, Outcome(settings, EMPTY, events).tables, s, r);
  }

  /** The revision this event asks for. */
  function Target(e: Event): Option<(string, nat)> {
    match e
    case Persist(_, s, expected, _) => Some((s, expected + 1))
    case Validated(_, r) => Some((r.session, r.revision + 1))
    case _ => None
  }

  /** A draft comes under review only by a turn of the supervisor or by a validation. */
  lemma ReviewComesFrom(settings: Settings, y: System, e: Event, s: string, q: nat)
    requires Consistent(y.tables) && Enabled(settings, y, e) && (s, q) !in y.tables.revisions
    requires var t := After(settings, y, e).tables;
      (s, q) in t.revisions && t.revisions[(s, q)].status == ReviewRequired
    ensures Target(e) == Some((s, q))
  {
    if e.Read? {
      return;
    }
    var op := OperationOf(settings, e);
    NewRevision(y.tables, e.w, op, s, q);
    if op.CreateSession? {
      return;
    }
    WritesUnderReview(settings, y, e, y.tables.revisions[(s, op.expected)]);
  }

  lemma WritesUnderReview(settings: Settings, y: System, e: Event, c: Content)
    requires Enabled(settings, y, e) && !e.Read? && !e.Start? && !e.Exported? && !e.Housekeeping?
    requires Merge(c, OperationOf(settings, e).change).status == ReviewRequired
    ensures Target(e) == Some((OperationOf(settings, e).session, OperationOf(settings, e).expected + 1))
  {
    if e.Reviewed? {
      ReviewIsDecided(e.reading.content, e.decision);
    }
  }

  /** A session that is gone does not come back, and a revision that is there at the end of a run has not changed. */
  lemma {:induction false} RevisionStays(settings: Settings, y: System, events: seq<Event>, s: string, q: nat)
    requires Inv(settings, y) && Possible(settings, y, events) && s in y.used
    requires (s, q) in Outcome(settings, y, events).tables.revisions
    requires (s, q) in y.tables.revisions || s !in y.tables.sessions
    ensures (s, q) in y.tables.revisions
    ensures Outcome(settings, y, events).tables.revisions[(s, q)] == y.tables.revisions[(s, q)]
    decreases |events|
  {
    if events != [] {
      var e, next := events[0], After(settings, y, events[0]);
      StepKeepsGovernance(settings, y, e);
      if !e.Read? {
        UsedSessions(y.tables, e.w, OperationOf(settings, e));
        if s in next.tables.sessions {
          StaysThere(y.tables, e.w, OperationOf(settings, e), s, q);
        }
      }
      RevisionStays(settings, next, events[1..], s, q);
    }
  }

  /** In a run, every revision that is under review was put there by a turn or a validation of that run. */
  lemma {:induction false} ReviewWasWritten(settings: Settings, y: System, events: seq<Event>, s: string, q: nat)
    returns (i: nat)
    requires Inv(settings, y) && Possible(settings, y, events) && (s, q) !in y.tables.revisions
    requires var t := Outcome(settings, y, events).tables;
      (s, q) in t.revisions && t.revisions[(s, q)].status == ReviewRequired
    ensures i < |events| && Target(events[i]) == Some((s, q))
    decreases |events|
  {
    var next := After(settings, y, events[0]);
    StepKeepsGovernance(settings, y, events[0]);
    if (s, q) in next.tables.revisions {
      RevisionStays(settings, next, events[1..], s, q);
      ReviewComesFrom(settings, y, events[0], s, q);
      return 0;
    }
    var j := ReviewWasWritten(settings, next, events[1..], s, q);
    return j + 1;
  }

  /** Every export row points at an approved revision, which can be composed. */
  lemma ExportedMeansApproved(settings: Settings, events: seq<Event>, i: nat)
    requires Possible(settings, EMPTY, events)
    requires i < |Outcome(settings, EMPTY, events).tables.exports|
    ensures var t := Outcome(settings, EMPTY, events).tables; var x := t.exports[i];
      && (x.session, x.revision) in t.revisions && t.revisions[(x.session, x.revision)].status == Approved
      && Composable(t.revisions[(x.session, x.revision)])
  {
    RunKeepsGovernance(settings, EMPTY, events);
    var t := Outcome(settings, EMPTY, events).tables;
    var x := t.exports[i];
    OfContains(t.exports, i);
    assert LogsFit(t, x.session);
    assert ExportsApproved(t, x.session);
    assert Governed(settings, t, x.session, x.revision);
  }

  /** `compose` never refuses an export the services let through. */
  lemma ComposeNeverRefuses(settings: Settings, events: seq<Event>, e: Event)
    requires Possible(settings, EMPTY, events) && e.Exported?
    requires Enabled(settings, Outcome(settings, EMPTY, events), e)
    ensures Composable(e.reading.content)
  {
    RunKeepsGovernance(settings, EMPTY, events);
    assert ReadingClean(settings, e.reading);
  }

  // ----- with the rules of the validation service --------------------------------------------------------

  /** Every approved revision holds a draft whose tasks are complete and supported by evidence in the registry,
      whose edges are those of its tasks and have no cycle, and whose evidence agrees in scope. */
  lemma ApprovedDraftsAreSound(settings: Settings, isCommand: string -> bool, events: seq<Event>, s: string, r: nat)
    requires forall d :: settings.validate(d) == ReportOf(d, isCommand)
    requires Possible(settings, EMPTY, events)
    requires var t := Outcome(settings, EMPTY, events).tables;
      (s, r) in t.revisions && t.revisions[(s, r)].status == Approved
    ensures var d := Outcome(settings, EMPTY, events).tables.revisions[(s, r)].draft;
      CleanDraft(d) && forall id :: id in TasksById(d.tasks) ==> TaskAgrees(d, id)
  {
    ApprovedMeansReviewed(settings, events, s, r);
    var d := Outcome(settings, EMPTY, events).tables.revisions[(s, r)].draft;
    assert settings.validate(d) == ReportOf(d, isCommand);
    FindingsEmptyIff(d, isCommand);
    ConflictsEmptyIff(d);
  }

  /** A draft that was sent back for revision stays blocked until it is planned again: validating it as it is
      always pauses. */
  lemma RevisedDraftIsBlocked(settings: Settings, isCommand: string -> bool, c: Content)
    requires forall d :: settings.validate(d) == ReportOf(d, isCommand)
    requires c.draft.tasks != []
    ensures ValidationChange(settings, c.(draft := Revised(c.draft))).status == Some(Paused)
  {
    var d := Revised(c.draft);
    assert settings.validate(d) == ReportOf(d, isCommand);
    assert |d.invalidated| == |c.draft.tasks|;
    FindingsEmptyIff(d, isCommand);
  }

  /** A draft without tasks passes validation, and so can be approved and exported. */
  lemma EmptyDraftCanBeApproved(settings: Settings, isCommand: string -> bool, c: Content)
    requires forall d :: settings.validate(d) == ReportOf(d, isCommand)
    requires c.draft.tasks == [] && c.draft.invalidated == []
    ensures var validated := Merge(c, ValidationChange(settings, c));
      validated.status == ReviewRequired && Composable(Merge(validated, ReviewChange(validated, Approve)))
  {
    assert settings.validate(c.draft) == ReportOf(c.draft, isCommand);
    EmptyDraftIsClean(c.draft, isCommand);
  }

  // ----- an export is reached ----------------------------------------------------------------------------

  lemma OneMoreEvent(settings: Settings, y: System, events: seq<Event>, e: Event)
    requires Possible(settings, y, events) && Enabled(settings, Outcome(settings, y, events), e)
    ensures Possible(settings, y, events + [e])
    ensures Outcome(settings, y, events + [e]) == After(settings, Outcome(settings, y, events), e)
    decreases |events|
  {
    if events == [] {
      assert [e][1..] == [];
      assert events + [e] == [e];
    } else {
      OneMoreEvent(settings, After(settings, y, events[0]), events[1..], e);
      assert (events + [e])[0] == events[0] && (events + [e])[1..] == events[1..] + [e];
    }
  }

  lemma SessionIsStarted(settings: Settings, w: Workspace, draft: Draft) returns (events: seq<Event>)
    requires w.permits(draft)
    ensures Possible(settings, EMPTY, events)
    ensures var c := Content(Created, "g", draft, {}, {});
      Outcome(settings, EMPTY, events) ==
        System(Tables(map["s" := SessionRow(w.id, Created, "g", 1)], map[("s", 1) := c], {}, [], [], []),
               {Reading("s", 1, c)}, {"s"})
  {
    var start, read := Start(w, "s", "g", draft), Read(w, "s", 1);
    assert Strip("g") == "g" by { assert !IsSpace("g"[0]); }
    OneMoreEvent(settings, EMPTY, [], start);
    events := [] + [start];
    OneMoreEvent(settings, EMPTY, events, read);
    events := events + [read];
  }

  /** A run that starts a session, validates its draft and puts it under review. */
  lemma ReviewIsReached(settings: Settings, w: Workspace, draft: Draft) returns (events: seq<Event>)
    requires w.permits(draft) && !settings.validate(draft).Blocking()
    ensures Possible(settings, EMPTY, events)
    ensures var t := Outcome(settings, EMPTY, events).tables;
      && t.sessions.Keys == {"s"} && t.sessions["s"].current == 2 && t.sessions["s"].workspace == w.id
      && t.sessions["s"].status == ReviewRequired && t.deleted == {} && t.approvals == [] && t.exports == []
      && t.revisions.Keys == {("s", 1), ("s", 2)}
      && t.revisions[("s", 2)].status == ReviewRequired && t.revisions[("s", 2)].draft == draft
      && !Blank(t.revisions[("s", 2)].goal)
  {
    events := SessionIsStarted(settings, w, draft);
    assert !Blank("g") by { assert !IsSpace("g"[0]); }
    var validated := Validated(w, Reading("s", 1, Content(Created, "g", draft, {}, {})));
    ValidationStep(settings, w, Outcome(settings, EMPTY, events), draft);
    OneMoreEvent(settings, EMPTY, events, validated);
    events := events + [validated];
  }

  /** Validating the first revision, once it was read. */
  lemma ValidationStep(settings: Settings, w: Workspace, y: System, draft: Draft)
    requires w.permits(draft) && !settings.validate(draft).Blocking() && !Blank("g")
    requires var c := Content(Created, "g", draft, {}, {});
      && y.tables == Tables(map["s" := SessionRow(w.id, Created, "g", 1)], map[("s", 1) := c], {}, [], [], [])
      && Reading("s", 1, c) in y.readings
    ensures var validated := Validated(w, Reading("s", 1, Content(Created, "g", draft, {}, {})));
      && Enabled(settings, y, validated)
      && var t := After(settings, y, validated).tables;
      && t.sessions.Keys == {"s"} && t.sessions["s"].current == 2 && t.sessions["s"].workspace == w.id
      && t.sessions["s"].status == ReviewRequired && t.deleted == {} && t.approvals == [] && t.exports == []
      && t.revisions.Keys == {("s", 1), ("s", 2)}
      && t.revisions[("s", 2)].status == ReviewRequired && t.revisions[("s", 2)].draft == draft
      && !Blank(t.revisions[("s", 2)].goal)
  {
  }

  lemma ApprovalIsReached(settings: Settings, w: Workspace, draft: Draft) returns (events: seq<Event>)
    requires w.permits(draft) && !settings.validate(draft).Blocking()
    ensures Possible(settings, EMPTY, events)
    ensures var t := Outcome(settings, EMPTY, events).tables;
      && t.sessions.Keys == {"s"} && t.sessions["s"].current == 3 && t.sessions["s"].workspace == w.id
      && t.sessions["s"].status == Approved && t.deleted == {} && t.exports == []
      && ("s", 3) in t.revisions && t.revisions[("s", 3)].status == Approved
  {
    var before := ReviewIsReached(settings, w, draft);
    var read := Read(w, "s", 2);
    OneMoreEvent(settings, EMPTY, before, read);
    var t := Outcome(settings, EMPTY, before).tables;
    var reviewed := Reviewed(w, Reading("s", 2, t.revisions[("s", 2)]), Approve, "a");
    ApprovalStep(settings, w, Outcome(settings, EMPTY, before + [read]));
    OneMoreEvent(settings, EMPTY, before + [read], reviewed);
    events := before + [read] + [reviewed];
  }

  /** Approving the second revision, once it was read under review. */
  lemma ApprovalStep(settings: Settings, w: Workspace, y: System)
    requires var t := y.tables;
      && t.sessions.Keys == {"s"} && t.sessions["s"].current == 2 && t.sessions["s"].workspace == w.id
      && t.sessions["s"].status == ReviewRequired && t.deleted == {} && t.approvals == [] && t.exports == []
      && t.revisions.Keys == {("s", 1), ("s", 2)} && w.permits(t.revisions[("s", 2)].draft)
      && t.revisions[("s", 2)].status == ReviewRequired && !Blank(t.revisions[("s", 2)].goal)
      && Reading("s", 2, t.revisions[("s", 2)]) in y.readings
    ensures var reviewed := Reviewed(w, Reading("s", 2, y.tables.revisions[("s", 2)]), Approve, "a");
      && Enabled(settings, y, reviewed)
      && var t := After(settings, y, reviewed).tables;
         && t.sessions.Keys == {"s"} && t.sessions["s"].current == 3 && t.sessions["s"].workspace == w.id
         && t.sessions["s"].status == Approved && t.deleted == {} && t.exports == []
         && ("s", 3) in t.revisions && t.revisions[("s", 3)].status == Approved
  {
  }

  /** From there to an export row of the approved revision. */
  lemma ExportIsReached(settings: Settings, w: Workspace, draft: Draft) returns (events: seq<Event>)
    requires w.permits(draft) && !settings.validate(draft).Blocking()
    ensures Possible(settings, EMPTY, events)
    ensures Outcome(settings, EMPTY, events).tables.exports == [Logged("e", "s", 3, Json)]
  {
    var before := ApprovalIsReached(settings, w, draft);
    var read := Read(w, "s", 3);
    OneMoreEvent(settings, EMPTY, before, read);
    var t := Outcome(settings, EMPTY, before).tables;
    var exported := Exported(w, Reading("s", 3, t.revisions[("s", 3)]), Json, "e");
    ExportStep(settings, w, Outcome(settings, EMPTY, before + [read]));
    OneMoreEvent(settings, EMPTY, before + [read], exported);
    events := before + [read] + [exported];
  }

  /** Exporting the third revision, once it was read as approved. */
  lemma ExportStep(settings: Settings, w: Workspace, y: System)
    requires var t := y.tables;
      && t.sessions.Keys == {"s"} && t.sessions["s"].current == 3 && t.sessions["s"].workspace == w.id
      && t.sessions["s"].status == Approved && t.deleted == {} && t.exports == []
      && ("s", 3) in t.revisions && t.revisions[("s", 3)].status == Approved
      && Reading("s", 3, t.revisions[("s", 3)]) in y.readings
    ensures var exported := Exported(w, Reading("s", 3, y.tables.revisions[("s", 3)]), Json, "e");
      && Enabled(settings, y, exported)
      && After(settings, y, exported).tables.exports == [Logged("e", "s", 3, Json)]
  {
  }
}
