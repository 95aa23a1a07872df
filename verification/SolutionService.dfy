/** The services that write the session database (src/agents/services/solution_service.py,
    src/mcp_server/tools/configuration_sessions.py, src/agents/supervisor.py). */
module SolutionServices {
  import opened Outcomes
  import opened Text
  import opened Validation
  import opened Supervisor
  import SupervisorSafety
  import opened SessionTables
  import opened SessionRepositories
  import opened Governance
  import opened ExternalCalls

  datatype Failure = InRepository(error: Error) | NotUnderReview | NotApproved | NotComposable | NotWritten

  function Wrap(e: Option<Error>): Option<Failure> {
    if e.Some? then Some(InRepository(e.value)) else None
  }

  predicate Readable(t: Tables, w: Workspace, session: string, revision: nat) {
    Visible(t, w, session, false) && (session, revision) in t.revisions
  }

  // ----- the operations are events of the governed system ---------------------------------------------------

  /** The tables are those of some governed system. */
  ghost predicate InGovernance(settings: Settings, t: Tables) {
    exists y: System :: y.tables == t && Inv(settings, y)
  }

  /** Reading a revision and writing what was made of it, as two events. */
  lemma ReadThenWrite(settings: Settings, y: System, w: Workspace, session: string, revision: nat, write: Event)
    requires Readable(y.tables, w, session, revision) && !write.Read?
    requires Enabled(settings, After(settings, y, Read(w, session, revision)), write)
    ensures var events := [Read(w, session, revision), write];
      && Possible(settings, y, events)
      && Outcome(settings, y, events).tables == Apply(y.tables, write.w, OperationOf(settings, write))
  {
    var first := [Read(w, session, revision)];
    assert first[1..] == [];
    assert Outcome(settings, y, first) == After(settings, y, first[0]);
    OneMoreEvent(settings, y, first, write);
    assert first + [write] == [Read(w, session, revision), write];
  }

  /** `review` reads the revision and writes the decision. */
  lemma ReviewIsEvents(settings: Settings, y: System, w: Workspace, session: string, expected: nat, d: Decision,
                       id: string)
    requires Readable(y.tables, w, session, expected)
    requires y.tables.revisions[(session, expected)].status == ReviewRequired
    ensures var content := y.tables.revisions[(session, expected)];
      var events := [Read(w, session, expected), Reviewed(w, Reading(session, expected, content), d, id)];
      && Possible(settings, y, events)
      && Outcome(settings, y, events).tables ==
           Kept(y.tables, SessionTables.Review(y.tables, w, session, expected, d, ReviewChange(content, d), id))
  {
    var content := y.tables.revisions[(session, expected)];
    ReadThenWrite(settings, y, w, session, expected, Reviewed(w, Reading(session, expected, content), d, id));
  }

  /** `export` reads the revision and records the row. */
  lemma ExportIsEvents(settings: Settings, y: System, w: Workspace, session: string, expected: nat, f: Format,
                       id: string)
    requires Readable(y.tables, w, session, expected)
    requires y.tables.revisions[(session, expected)].status == Approved
    ensures var content := y.tables.revisions[(session, expected)];
      var events := [Read(w, session, expected), Exported(w, Reading(session, expected, content), f, id)];
      && Possible(settings, y, events)
      && Outcome(settings, y, events).tables ==
           Kept(y.tables, SessionTables.RecordExport(y.tables, w, session, expected, f, id))
  {
    var content := y.tables.revisions[(session, expected)];
    ReadThenWrite(settings, y, w, session, expected, Exported(w, Reading(session, expected, content), f, id));
  }

  /** `validate` reads the revision and writes the report. */
  lemma ValidationIsEvents(settings: Settings, y: System, w: Workspace, session: string, expected: nat)
    requires Readable(y.tables, w, session, expected)
    ensures var content := y.tables.revisions[(session, expected)];
      var events := [Read(w, session, expected), Validated(w, Reading(session, expected, content))];
      && Possible(settings, y, events)
      && Outcome(settings, y, events).tables ==
           Kept(y.tables, Update(y.tables, w, session, expected, ValidationChange(settings, content)))
  {
    var content := y.tables.revisions[(session, expected)];
    ReadThenWrite(settings, y, w, session, expected, Validated(w, Reading(session, expected, content)));
  }

  /** What the supervisor leaves is written by one event. */
  lemma PersistIsEvent(settings: Settings, y: System, w: Workspace, session: string, expected: nat, turn: Turn)
    requires SupervisorSafety.Sound(settings, turn) && (turn.Waiting? || turn.Finished?)
    ensures var events := [Persist(w, session, expected, turn)];
      && Possible(settings, y, events)
      && Outcome(settings, y, events).tables ==
           Kept(y.tables, Update(y.tables, w, session, expected, PersistChange(turn)))
  {
    var events := [Persist(w, session, expected, turn)];
    assert events[1..] == [];
  }

  /** Every run of events stays in governance. */
  lemma EventsStayInGovernance(settings: Settings, y: System, events: seq<Event>)
    requires Inv(settings, y) && Possible(settings, y, events)
    ensures InGovernance(settings, Outcome(settings, y, events).tables)
  {
    RunKeepsGovernance(settings, y, events);
  }

  lemma ReviewStays(settings: Settings, t: Tables, w: Workspace, session: string, expected: nat, d: Decision,
                    id: string)
    requires InGovernance(settings, t) && Readable(t, w, session, expected)
    requires t.revisions[(session, expected)].status == ReviewRequired
    ensures var change := ReviewChange(t.revisions[(session, expected)], d);
      InGovernance(settings, Kept(t, SessionTables.Review(t, w, session, expected, d, change, id)))
  {
    var y: System :| y.tables == t && Inv(settings, y);
    var reading := Reading(session, expected, t.revisions[(session, expected)]);
    ReviewIsEvents(settings, y, w, session, expected, d, id);
    EventsStayInGovernance(settings, y, [Read(w, session, expected), Reviewed(w, reading, d, id)]);
  }

  lemma ExportStays(settings: Settings, t: Tables, w: Workspace, session: string, expected: nat, f: Format, id: string)
    requires InGovernance(settings, t) && Readable(t, w, session, expected)
    requires t.revisions[(session, expected)].status == Approved
    ensures InGovernance(settings, Kept(t, SessionTables.RecordExport(t, w, session, expected, f, id)))
  {
    var y: System :| y.tables == t && Inv(settings, y);
    var reading := Reading(session, expected, t.revisions[(session, expected)]);
    ExportIsEvents(settings, y, w, session, expected, f, id);
    EventsStayInGovernance(settings, y, [Read(w, session, expected), Exported(w, reading, f, id)]);
  }

  lemma ValidationStays(settings: Settings, t: Tables, w: Workspace, session: string, expected: nat)
    requires InGovernance(settings, t) && Readable(t, w, session, expected)
    ensures var change := ValidationChange(settings, t.revisions[(session, expected)]);
      InGovernance(settings, Kept(t, Update(t, w, session, expected, change)))
  {
    var y: System :| y.tables == t && Inv(settings, y);
    var reading := Reading(session, expected, t.revisions[(session, expected)]);
    ValidationIsEvents(settings, y, w, session, expected);
    EventsStayInGovernance(settings, y, [Read(w, session, expected), Validated(w, reading)]);
  }

  lemma PersistStays(settings: Settings, t: Tables, w: Workspace, session: string, expected: nat, turn: Turn)
    requires InGovernance(settings, t) && SupervisorSafety.Sound(settings, turn) && (turn.Waiting? || turn.Finished?)
    ensures InGovernance(settings, Kept(t, Update(t, w, session, expected, PersistChange(turn))))
  {
    var y: System :| y.tables == t && Inv(settings, y);
    PersistIsEvent(settings, y, w, session, expected, turn);
    EventsStayInGovernance(settings, y, [Persist(w, session, expected, turn)]);
  }

  /** In governed tables every approved revision follows a clean revision under review that was approved. */
  lemma GovernedMeansReviewed(settings: Settings, t: Tables, s: string, r: nat)
    requires InGovernance(settings, t) && (s, r) in t.revisions && t.revisions[(s, r)].status == Approved
    ensures r > 1 && (s, r - 1) in t.revisions && t.revisions[(s, r - 1)].status == ReviewRequired
    ensures t.revisions[(s, r - 1)].draft == t.revisions[(s, r)].draft && ApprovedAt(t, s, r - 1)
    ensures Clean(settings, t.revisions[(s, r)])
  {
    var y: System :| y.tables == t && Inv(settings, y);
    assert Governed(settings, y.tables, s, r);
  }

  class SolutionService {
    const repository: SessionRepository
    /** The revision every exported file was written from. */
    var exported: map<(string, nat, Format), Content>
    const settings: Settings
    const calls: Calls
    /** The stable identifiers of approvals and of exports. */
    const approvalId: (string, nat, Decision) -> string
    const exportId: (string, nat, Format) -> string

    constructor (repository: SessionRepository, settings: Settings, calls: Calls,
                 approvalId: (string, nat, Decision) -> string, exportId: (string, nat, Format) -> string)
      ensures this.repository == repository && this.settings == settings && this.calls == calls
      ensures this.approvalId == approvalId && this.exportId == exportId && exported == map[]
    {
      this.repository, this.settings, this.calls := repository, settings, calls;
      this.approvalId, this.exportId := approvalId, exportId;
      exported := map[];
    }

    method GetRevision(session: string, revision: nat) returns (r: Option<Content>)
      ensures r == if Readable(repository.database.tables, repository.workspace, session, revision)
                   then Some(repository.database.tables.revisions[(session, revision)]) else None
    {
      var t := repository.database.tables;
      r := if Readable(t, repository.workspace, session, revision)
           then Some(t.revisions[(session, revision)]) else None;
    }

    /** Where a session stands after a revision was added to it. */
    predicate MovedOn(t: Tables, before: Tables, session: string, expected: nat) {
      && session in before.sessions && (session, expected) in before.revisions && (session, expected + 1) in t.revisions
      && var next := t.revisions[(session, expected + 1)];
      && t.revisions == before.revisions[(session, expected + 1) := next]
      && t.sessions == before.sessions[session := before.sessions[session].(
           status := next.status, goal := Strip(next.goal), current := expected + 1)]
    }

    lemma DecisionMovesOn(t: Tables, session: string, expected: nat, d: Decision, change: Change, id: string)
      requires SessionTables.Review(t, repository.workspace, session, expected, d, change, id).Ok?
      ensures var now := SessionTables.Review(t, repository.workspace, session, expected, d, change, id).value;
        && MovedOn(now, t, session, expected) && now.approvals == t.approvals + [Logged(id, session, expected, d)]
        && now.revisions[(session, expected + 1)] == Merge(t.revisions[(session, expected)], change)
    {
    }

    /** A decision on a revision under review: the approval and the new revision, or nothing. */
    method Review(session: string, expected: nat, d: Decision) returns (failure: Option<Failure>)
      modifies repository.database
      ensures failure.None? ==>
        var t, now := old(repository.database.tables), repository.database.tables;
        && MovedOn(now, t, session, expected)
        && Decided(t.revisions[(session, expected)], now.revisions[(session, expected + 1)], d)
        && now.approvals == t.approvals + [Logged(approvalId(session, expected, d), session, expected, d)]
      ensures var t, w := old(repository.database.tables), repository.workspace;
        if !Readable(t, w, session, expected) then
          failure == Some(InRepository(NotFound)) && repository.database.tables == t
        else if t.revisions[(session, expected)].status != ReviewRequired then
          failure == Some(NotUnderReview) && repository.database.tables == t
        else
          var change := ReviewChange(t.revisions[(session, expected)], d);
          var result := SessionTables.Review(t, w, session, expected, d, change, approvalId(session, expected, d));
          && repository.database.tables == Kept(t, result)
          && failure == if result.Err? then Some(InRepository(result.error)) else None
      ensures old(InGovernance(settings, repository.database.tables)) ==>
        InGovernance(settings, repository.database.tables)
    {
      var content := GetRevision(session, expected);
      if content.None? {
        return Some(InRepository(NotFound));
      }
      if content.value.status != ReviewRequired {
        return Some(NotUnderReview);
      }
      if InGovernance(settings, repository.database.tables) {
        ReviewStays(settings, repository.database.tables, repository.workspace, session, expected, d,
                    approvalId(session, expected, d));
      }
      var change := ReviewChange(content.value, d);
      ghost var t := repository.database.tables;
      var error := repository.ApplyReviewTransition(session, expected, d, change, approvalId(session, expected, d));
      if error.Some? {
        return Wrap(error);
      }
      ReviewIsDecided(content.value, d);
      DecisionMovesOn(t, session, expected, d, change, approvalId(session, expected, d));
      return None;
    }

    /** The revision can be exported. */
    predicate Exportable(t: Tables, session: string, revision: nat) {
      && Readable(t, repository.workspace, session, revision)
      && t.revisions[(session, revision)].status == Approved && Composable(t.revisions[(session, revision)])
    }

    /** An export of an approved revision: first the file, then its row. A repeated export writes the file again and
        records nothing new, whatever the session has become. */
    method Export(session: string, expected: nat, f: Format) returns (failure: Option<Failure>)
      modifies repository.database, `exported, calls`failed
      ensures calls.failed == old(calls.failed) + if failure == Some(NotWritten) then 1 else 0
      ensures exported ==
        if Exportable(old(repository.database.tables), session, expected) && failure != Some(NotWritten)
        then old(exported)[(session, expected, f) := old(repository.database.tables).revisions[(session, expected)]]
        else old(exported)
      ensures var t, w, id := old(repository.database.tables), repository.workspace, exportId(session, expected, f);
        if !Readable(t, w, session, expected) then
          failure == Some(InRepository(NotFound)) && repository.database.tables == t
        else if t.revisions[(session, expected)].status != Approved then
          failure == Some(NotApproved) && repository.database.tables == t
        else if !Composable(t.revisions[(session, expected)]) then
          failure == Some(NotComposable) && repository.database.tables == t
        else if failure == Some(NotWritten) then repository.database.tables == t
        else if HasId(Of(t.exports, session), id) then
          failure == None && repository.database.tables == t
        else
          var result := SessionTables.RecordExport(t, w, session, expected, f, id);
          && repository.database.tables == Kept(t, result)
          && failure == if result.Err? then Some(InRepository(result.error)) else None
      ensures old(InGovernance(settings, repository.database.tables)) ==>
        InGovernance(settings, repository.database.tables)
    {
      var content := GetRevision(session, expected);
      if content.None? {
        return Some(InRepository(NotFound));
      }
      if content.value.status != Approved {
        return Some(NotApproved);
      }
      if content.value.conflicts != {} || content.value.findings != {} {
        return Some(NotComposable);
      }
      var written := calls.Forward();
      if !written {
        return Some(NotWritten);
      }
      exported := exported[(session, expected, f) := content.value];
      var id := exportId(session, expected, f);
      if HasId(Of(repository.database.tables.exports, session), id) {
        return None;
      }
      if InGovernance(settings, repository.database.tables) {
        ExportStays(settings, repository.database.tables, repository.workspace, session, expected, f, id);
      }
      var error := repository.RecordExport(session, expected, f, id);
      failure := Wrap(error);
    }

    /** `ConfigurationSessionApplication.validate`: the report of the current draft becomes the next revision. */
    method Validate(session: string, expected: nat) returns (failure: Option<Failure>)
      modifies repository.database
      ensures failure.None? ==>
        var t, now := old(repository.database.tables), repository.database.tables;
        && MovedOn(now, t, session, expected)
        && var c, report := t.revisions[(session, expected)], settings.validate(t.revisions[(session, expected)].draft);
        now.revisions[(session, expected + 1)] == c.(
          status := if report.Blocking() then Paused else ReviewRequired,
          conflicts := report.conflicts, findings := report.findings)
      ensures var t, w := old(repository.database.tables), repository.workspace;
        if !Visible(t, w, session, false) then
          failure == Some(InRepository(NotFound)) && repository.database.tables == t
        else if t.sessions[session].current != expected then
          && failure == Some(InRepository(RevisionConflict(expected, t.sessions[session].current)))
          && repository.database.tables == t
        else if (session, expected) !in t.revisions then
          failure == Some(InRepository(NotFound)) && repository.database.tables == t
        else
          var result := Update(t, w, session, expected, ValidationChange(settings, t.revisions[(session, expected)]));
          && repository.database.tables == Kept(t, result)
          && failure == if result.Err? then Some(InRepository(result.error)) else None
      ensures old(InGovernance(settings, repository.database.tables)) ==>
        InGovernance(settings, repository.database.tables)
    {
      var t := repository.database.tables;
      if !Visible(t, repository.workspace, session, false) {
        return Some(InRepository(NotFound));
      }
      if t.sessions[session].current != expected {
        return Some(InRepository(RevisionConflict(expected, t.sessions[session].current)));
      }
      var content := GetRevision(session, expected);
      if content.None? {
        return Some(InRepository(NotFound));
      }
      if InGovernance(settings, repository.database.tables) {
        ValidationStays(settings, repository.database.tables, repository.workspace, session, expected);
      }
      var report := settings.validate(content.value.draft);
      var change := NO_CHANGE.(status := Some(if report.Blocking() then Paused else ReviewRequired),
                               conflicts := Some(report.conflicts), findings := Some(report.findings));
      var error := repository.UpdateRevision(session, expected, change);
      failure := Wrap(error);
    }

    /** `_persist_result`: what the supervisor's turn left becomes the next revision. */
    method PersistResult(session: string, expected: nat, turn: Turn) returns (failure: Option<Failure>)
      requires turn.Waiting? || turn.Finished?
      modifies repository.database
      ensures failure.None? ==>
        var t, now, s := old(repository.database.tables), repository.database.tables, turn.state;
        && MovedOn(now, t, session, expected)
        && now.revisions[(session, expected + 1)] == t.revisions[(session, expected)].(
             status := s.status, draft := s.work.draft,
             conflicts := s.work.report.conflicts, findings := s.work.report.findings)
      ensures var t := old(repository.database.tables);
        var result := Update(t, repository.workspace, session, expected, PersistChange(turn));
        && repository.database.tables == Kept(t, result)
        && failure == if result.Err? then Some(InRepository(result.error)) else None
      ensures SupervisorSafety.Sound(settings, turn) && old(InGovernance(settings, repository.database.tables)) ==>
        InGovernance(settings, repository.database.tables)
    {
      if SupervisorSafety.Sound(settings, turn) && InGovernance(settings, repository.database.tables) {
        PersistStays(settings, repository.database.tables, repository.workspace, session, expected, turn);
      }
      var error := repository.UpdateRevision(session, expected, PersistChange(turn));
      failure := Wrap(error);
    }
  }
}
