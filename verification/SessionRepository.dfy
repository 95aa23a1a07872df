/** The session repository: every operation is one transaction that commits as a whole or leaves the
    database as it found it. */
module SessionRepositories {
  import opened Outcomes
  import opened Text
  import opened Validation
  import opened Supervisor
  import opened SessionTables

  class Database {
    var tables: Tables

    constructor ()
      ensures tables == Tables(map[], map[], {}, [], [], [])
    {
      tables := Tables(map[], map[], {}, [], [], []);
    }
  }

  /** The database of checkpoints: missing or empty, with tables of another kind, or with the threads it has rows of. */
  datatype Checkpoints = NoTables | OtherTables | Threads(threads: set<string>)

  class CheckpointFile {
    var content: Checkpoints

    constructor (content: Checkpoints)
      ensures this.content == content
    {
      this.content := content;
    }
  }

  function WithoutThreads(c: Checkpoints, gone: set<string>): Checkpoints {
    if c.Threads? then Threads(c.threads - gone) else c
  }

  /** What every write promises: the tables of the transaction, or its error and the tables there were. */
  predicate Committed(before: Tables, after: Tables, expected: Result<Tables, Error>, error: Option<Error>) {
    match expected
    case Ok(t) => error == None && after == t
    case Err(e) => error == Some(e) && after == before
  }

  /** A repository of one workspace; several of them share a database. */
  class SessionRepository {
    const database: Database
    const workspace: Workspace

    constructor (database: Database, workspace: Workspace)
      ensures this.database == database && this.workspace == workspace
    {
      this.database, this.workspace := database, workspace;
    }

    method CreateSession(session: string, goal: string, draft: Draft) returns (error: Option<Error>)
      modifies database
      ensures Committed(old(database.tables), database.tables,
                        Create(old(database.tables), workspace, session, goal, draft), error)
    {
      if Blank(goal) {
        return Some(EmptyText);
      }
      if !workspace.permits(draft) {
        return Some(OutOfScope);
      }
      var begin := database.tables;
      if session in database.tables.sessions {
        return Some(AlreadyExists);
      }
      database.tables := database.tables.(sessions := database.tables.sessions[
        session := SessionRow(workspace.id, Created, Strip(goal), 1)]);
      if (session, 1) in database.tables.revisions {
        database.tables := begin;
        return Some(AlreadyExists);
      }
      database.tables := database.tables.(revisions := database.tables.revisions[
        (session, 1) := Content(Created, Strip(goal), draft, {}, {})]);
      error := None;
    }

    method RequireExpectedRevision(session: string, expected: nat) returns (error: Option<Error>)
      ensures error == Refusal(database.tables, workspace, session, expected)
    {
      if !Visible(database.tables, workspace, session, false) {
        return Some(NotFound);
      }
      var row := database.tables.sessions[session];
      if row.current != expected {
        return Some(RevisionConflict(expected, row.current));
      }
      error := if row.status == Cancelled then Some(TerminalSession) else None;
    }

    method AppendTurn(session: string, expected: nat, id: string, text: string) returns (error: Option<Error>)
      modifies database
      ensures Committed(old(database.tables), database.tables,
                        SessionTables.AppendTurn(old(database.tables), workspace, session, expected, id, text), error)
    {
      if Blank(text) {
        return Some(EmptyText);
      }
      error := RequireExpectedRevision(session, expected);
      if error.Some? {
        return;
      }
      if HasId(database.tables.turns, id) {
        return Some(AlreadyExists);
      }
      var sequence := LastSequence(database.tables.turns, session) + 1;
      database.tables := database.tables.(
        turns := database.tables.turns + [Logged(id, session, expected, Message(sequence, Strip(text)))]);
    }

    /** The merged state of the next revision, or why there cannot be one. */
    method NextState(session: string, expected: nat, u: Change) returns (next: Result<Content, Error>)
      ensures var t := database.tables;
        next == if Refusal(t, workspace, session, expected).Some?
                then Err(Refusal(t, workspace, session, expected).value)
                else if (session, expected) !in t.revisions then Err(NotFound)
                else
                  var c := Merge(t.revisions[(session, expected)], u);
                  if !InScope(workspace, u, c) then Err(OutOfScope) else if Blank(c.goal) then Err(EmptyText) else Ok(c)
    {
      var refused := RequireExpectedRevision(session, expected);
      if refused.Some? {
        return Err(refused.value);
      }
      if (session, expected) !in database.tables.revisions {
        return Err(NotFound);
      }
      var content := Merge(database.tables.revisions[(session, expected)], u);
      if !InScope(workspace, u, content) {
        return Err(OutOfScope);
      }
      if Blank(content.goal) {
        return Err(EmptyText);
      }
      next := Ok(content);
    }

    /** Inserts the revision and moves the session row, if that row is still at `expected`. */
    method InsertRevision(session: string, expected: nat, next: Content) returns (error: Option<Error>)
      requires session in database.tables.sessions && database.tables.sessions[session].current == expected
      modifies database
      ensures error == if (session, expected + 1) in old(database.tables.revisions) then Some(AlreadyExists) else None
      ensures error == None ==> database.tables == Advance(old(database.tables), session, expected, next)
    {
      if (session, expected + 1) in database.tables.revisions {
        return Some(AlreadyExists);
      }
      database.tables := database.tables.(revisions := database.tables.revisions[(session, expected + 1) := next]);
      var row := database.tables.sessions[session];
      if row.current == expected {
        database.tables := database.tables.(sessions := database.tables.sessions[
          session := row.(goal := Strip(next.goal), status := next.status, current := expected + 1)]);
        error := None;
      } else {
        error := Some(RevisionConflict(expected, row.current));
      }
    }

    method UpdateRevision(session: string, expected: nat, u: Change) returns (error: Option<Error>)
      modifies database
      ensures Committed(old(database.tables), database.tables,
                        Update(old(database.tables), workspace, session, expected, u), error)
    {
      var begin := database.tables;
      var next := NextState(session, expected, u);
      if next.Err? {
        return Some(next.error);
      }
      error := InsertRevision(session, expected, next.value);
      if error.Some? {
        database.tables := begin;
      }
    }

    method CancelSession(session: string, expected: nat) returns (error: Option<Error>)
      modifies database
      ensures Committed(old(database.tables), database.tables,
                        Update(old(database.tables), workspace, session, expected,
                               NO_CHANGE.(status := Some(Cancelled))), error)
    {
      error := UpdateRevision(session, expected, NO_CHANGE.(status := Some(Cancelled)));
    }

    method RecordApproval(session: string, expected: nat, d: Decision, id: string) returns (error: Option<Error>)
      modifies database
      ensures Committed(old(database.tables), database.tables,
                        Decide(old(database.tables), workspace, session, expected, d, id), error)
    {
      error := RequireExpectedRevision(session, expected);
      if error.Some? {
        return;
      }
      if HasId(database.tables.approvals, id) {
        return Some(AlreadyExists);
      }
      database.tables := database.tables.(approvals := database.tables.approvals + [Logged(id, session, expected, d)]);
    }

    method RecordExport(session: string, expected: nat, f: Format, id: string) returns (error: Option<Error>)
      modifies database
      ensures Committed(old(database.tables), database.tables,
                        SessionTables.RecordExport(old(database.tables), workspace, session, expected, f, id), error)
    {
      error := RequireExpectedRevision(session, expected);
      if error.Some? {
        return;
      }
      if HasId(database.tables.exports, id) {
        return Some(AlreadyExists);
      }
      database.tables := database.tables.(exports := database.tables.exports + [Logged(id, session, expected, f)]);
    }

    method ApplyReviewTransition(session: string, expected: nat, d: Decision, u: Change, id: string)
      returns (error: Option<Error>)
      modifies database
      ensures Committed(old(database.tables), database.tables,
                        Review(old(database.tables), workspace, session, expected, d, u, id), error)
    {
      var begin := database.tables;
      var next := NextState(session, expected, u);
      if next.Err? {
        return Some(next.error);
      }
      if HasId(database.tables.approvals, id) {
        return Some(AlreadyExists);
      }
      database.tables := database.tables.(approvals := database.tables.approvals + [Logged(id, session, expected, d)]);
      error := InsertRevision(session, expected, next.value);
      if error.Some? {
        database.tables := begin;
      }
    }

    method DeleteSession(session: string) returns (error: Option<Error>)
      modifies database
      ensures Committed(old(database.tables), database.tables,
                        Delete(old(database.tables), workspace, session), error)
    {
      if !Visible(database.tables, workspace, session, true) {
        return Some(NotFound);
      }
      database.tables := database.tables.(deleted := database.tables.deleted + {session});
      error := None;
    }

    method RestoreSession(session: string) returns (error: Option<Error>)
      modifies database
      ensures Committed(old(database.tables), database.tables,
                        Restore(old(database.tables), workspace, session), error)
    {
      if !Visible(database.tables, workspace, session, true) {
        return Some(NotFound);
      }
      database.tables := database.tables.(deleted := database.tables.deleted - {session});
      error := None;
    }

    /** Checks every selected conversation before it removes any of them, with the checkpoints of their threads. */
    method PurgeDeletedSessions(selected: map<string, nat>, checkpoints: CheckpointFile, threadOf: string -> string)
      returns (error: Option<Error>)
      modifies database, checkpoints
      ensures error == None <==>
        Purgeable(old(database.tables), workspace, selected) && old(checkpoints.content) != OtherTables
      ensures error == None ==> database.tables == Remove(old(database.tables), selected.Keys)
      ensures error == None ==>
        checkpoints.content == WithoutThreads(old(checkpoints.content), set s | s in selected :: threadOf(s))
      ensures error != None ==>
        database.tables == old(database.tables) && checkpoints.content == old(checkpoints.content)
      ensures error == Some(UnsupportedSchema) ==> Purgeable(old(database.tables), workspace, selected)
      ensures error != None && error != Some(UnsupportedSchema) && selected != map[] ==>
        exists s :: s in selected && PurgeRefusal(old(database.tables), workspace, s, selected[s]) == error
    {
      if selected == map[] {
        return Some(NothingSelected);
      }
      var todo := selected.Keys;
      while todo != {}
        invariant todo <= selected.Keys
        invariant forall s :: s in selected.Keys - todo ==>
          PurgeRefusal(database.tables, workspace, s, selected[s]) == None
        decreases |todo|
      {
        var session :| session in todo;
        error := PurgeRefusal(database.tables, workspace, session, selected[session]);
        if error.Some? {
          return;
        }
        todo := todo - {session};
      }
      assert forall s :: s in selected ==> s in selected.Keys - todo;
      if checkpoints.content == OtherTables {
        return Some(UnsupportedSchema);
      }
      checkpoints.content := WithoutThreads(checkpoints.content, set s | s in selected :: threadOf(s));
      database.tables := Remove(database.tables, selected.Keys);
      error := None;
    }
  }
}
