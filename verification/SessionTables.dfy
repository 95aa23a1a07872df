/** The tables of the session database, and what one transaction of a repository does to them
    (src/agents/repositories/session_repository.py). */
module SessionTables {
  import opened Outcomes
  import opened Text
  import opened Validation
  import opened Supervisor

  // ----- rows --------------------------------------------------------------------------------------

  /** The part of a saved state that validation, review and export read. */
  datatype Content = Content(status: Status, goal: string, draft: Draft, conflicts: set<Conflict>,
                             findings: set<Finding>)

  /** A partial state: the keys that are present replace the saved ones. */
  datatype Change = Change(
    status: Option<Status>, goal: Option<string>, draft: Option<Draft>,
    conflicts: Option<set<Conflict>>, findings: Option<set<Finding>>, workspace: Option<string>)

  datatype SessionRow = SessionRow(workspace: string, status: Status, goal: string, current: nat)

  datatype Decision = Approve | Reject | Revise
  datatype Format = Json | Markdown
  datatype Message = Message(sequence: nat, text: string)

  /** A row that refers to one revision of a session. */
  datatype Logged<T> = Logged(id: string, session: string, revision: nat, value: T)

  datatype Tables = Tables(
    sessions: map<string, SessionRow>,
    revisions: map<(string, nat), Content>,
    deleted: set<string>,
    turns: seq<Logged<Message>>,
    approvals: seq<Logged<Decision>>,
    exports: seq<Logged<Format>>)

  /** A workspace and the drafts its policy allows. */
  datatype Workspace = Workspace(id: string, permits: Draft -> bool)

  datatype Error =
    | EmptyText | NotFound | AlreadyExists | RevisionConflict(expected: nat, actual: nat) | TerminalSession
    | OutOfScope | NothingSelected | NotInBin | UnsupportedSchema

  const NO_CHANGE := Change(None, None, None, None, None, None)

  function OrElse<T>(o: Option<T>, d: T): T {
    if o.Some? then o.value else d
  }

  function Merge(c: Content, u: Change): Content {
    Content(OrElse(u.status, c.status), OrElse(u.goal, c.goal), OrElse(u.draft, c.draft),
            OrElse(u.conflicts, c.conflicts), OrElse(u.findings, c.findings))
  }

  // ----- logs --------------------------------------------------------------------------------------

  /** The rows of one session, in the order they were inserted. */
  function Of<T>(rows: seq<Logged<T>>, session: string): seq<Logged<T>> {
    if rows == [] then [] else
    var last := rows[|rows| - 1];
    Of(rows[..|rows| - 1], session) + if last.session == session then [last] else []
  }

  predicate HasId<T>(rows: seq<Logged<T>>, id: string) {
    exists i :: 0 <= i < |rows| && rows[i].id == id
  }

  /** `ON DELETE CASCADE`. */
  function Without<T>(rows: seq<Logged<T>>, gone: set<string>): seq<Logged<T>> {
    if rows == [] then [] else
    var last := rows[|rows| - 1];
    Without(rows[..|rows| - 1], gone) + if last.session in gone then [] else [last]
  }

  /** `COALESCE(MAX(sequence), 0)` over the turns of a session. */
  function LastSequence(turns: seq<Logged<Message>>, session: string): nat {
    if turns == [] then 0 else
    var before, last := LastSequence(turns[..|turns| - 1], session), turns[|turns| - 1];
    if last.session == session && last.value.sequence > before then last.value.sequence else before
  }

  // ----- checks ------------------------------------------------------------------------------------

  /** `_select_session`. */
  predicate Visible(t: Tables, w: Workspace, session: string, includeDeleted: bool) {
    session in t.sessions && t.sessions[session].workspace == w.id && (includeDeleted || session !in t.deleted)
  }

  /** `_require_expected_revision` with `allow_terminal=False`: what it raises, if anything. */
  function Refusal(t: Tables, w: Workspace, session: string, expected: nat): Option<Error> {
    if !Visible(t, w, session, false) then Some(NotFound)
    else if t.sessions[session].current != expected then Some(RevisionConflict(expected, t.sessions[session].current))
    else if t.sessions[session].status == Cancelled then Some(TerminalSession)
    else None
  }

  /** `Workspace.validate_state`. */
  predicate InScope(w: Workspace, u: Change, next: Content) {
    (u.workspace.Some? ==> u.workspace.value == w.id) && w.permits(next.draft)
  }

  // ----- transactions ------------------------------------------------------------------------------

  function Create(t: Tables, w: Workspace, session: string, goal: string, draft: Draft): Result<Tables, Error> {
    if Blank(goal) then Err(EmptyText)
    else if !w.permits(draft) then Err(OutOfScope)
    else if session in t.sessions || (session, 1) in t.revisions then Err(AlreadyExists)
    else Ok(t.(sessions := t.sessions[session := SessionRow(w.id, Created, Strip(goal), 1)],
               revisions := t.revisions[(session, 1) := Content(Created, Strip(goal), draft, {}, {})]))
  }

  function AppendTurn(t: Tables, w: Workspace, session: string, expected: nat, id: string,
                      text: string): Result<Tables, Error>
  {
    if Blank(text) then Err(EmptyText)
    else if Refusal(t, w, session, expected).Some? then Err(Refusal(t, w, session, expected).value)
    else if HasId(t.turns, id) then Err(AlreadyExists)
    else
      var turn := Logged(id, session, expected, Message(LastSequence(t.turns, session) + 1, Strip(text)));
      Ok(t.(turns := t.turns + [turn]))
  }

  /** The tables after revision `expected + 1` was inserted and the session row moved to it. */
  function Advance(t: Tables, session: string, expected: nat, next: Content): Tables
    requires session in t.sessions
  {
    t.(revisions := t.revisions[(session, expected + 1) := next],
       sessions := t.sessions[session := t.sessions[session].(
         goal := Strip(next.goal), status := next.status, current := expected + 1)])
  }

  function Update(t: Tables, w: Workspace, session: string, expected: nat, u: Change): Result<Tables, Error> {
    if Refusal(t, w, session, expected).Some? then Err(Refusal(t, w, session, expected).value)
    else if (session, expected) !in t.revisions then Err(NotFound)
    else
      var next := Merge(t.revisions[(session, expected)], u);
      if !InScope(w, u, next) then Err(OutOfScope)
      else if Blank(next.goal) then Err(EmptyText)
      else if (session, expected + 1) in t.revisions then Err(AlreadyExists)
      else Ok(Advance(t, session, expected, next))
  }

  function Decide(t: Tables, w: Workspace, session: string, expected: nat, d: Decision,
                  id: string): Result<Tables, Error>
  {
    if Refusal(t, w, session, expected).Some? then Err(Refusal(t, w, session, expected).value)
    else if HasId(t.approvals, id) then Err(AlreadyExists)
    else Ok(t.(approvals := t.approvals + [Logged(id, session, expected, d)]))
  }

  /** `apply_review_transition`: the approval and the revision it leads to, or neither. */
  function Review(t: Tables, w: Workspace, session: string, expected: nat, d: Decision, u: Change,
                  id: string): Result<Tables, Error>
  {
    var updated := Update(t, w, session, expected, u);
    if updated.Err? && updated.error != AlreadyExists then updated
    else if HasId(t.approvals, id) then Err(AlreadyExists)
    else if updated.Err? then updated
    else Ok(updated.value.(approvals := t.approvals + [Logged(id, session, expected, d)]))
  }

  function RecordExport(t: Tables, w: Workspace, session: string, expected: nat, f: Format,
                        id: string): Result<Tables, Error>
  {
    if Refusal(t, w, session, expected).Some? then Err(Refusal(t, w, session, expected).value)
    else if HasId(t.exports, id) then Err(AlreadyExists)
    else Ok(t.(exports := t.exports + [Logged(id, session, expected, f)]))
  }

  function Delete(t: Tables, w: Workspace, session: string): Result<Tables, Error> {
    if Visible(t, w, session, true) then Ok(t.(deleted := t.deleted + {session})) else Err(NotFound)
  }

  function Restore(t: Tables, w: Workspace, session: string): Result<Tables, Error> {
    if Visible(t, w, session, true) then Ok(t.(deleted := t.deleted - {session})) else Err(NotFound)
  }

  /** Why one selected conversation may not be purged. */
  function PurgeRefusal(t: Tables, w: Workspace, session: string, expected: nat): Option<Error> {
    if !Visible(t, w, session, true) then Some(NotFound)
    else if session !in t.deleted then Some(NotInBin)
    else if t.sessions[session].current != expected then Some(RevisionConflict(expected, t.sessions[session].current))
    else None
  }

  predicate Purgeable(t: Tables, w: Workspace, selected: map<string, nat>) {
    selected != map[] && forall s :: s in selected ==> PurgeRefusal(t, w, s, selected[s]) == None
  }

  /** `DELETE FROM sessions` with its cascades. */
  function Remove(t: Tables, gone: set<string>): Tables {
    Tables(t.sessions - gone,
           map k | k in t.revisions && k.0 !in gone :: t.revisions[k],
           t.deleted - gone,
           Without(t.turns, gone), Without(t.approvals, gone), Without(t.exports, gone))
  }

  // ----- one operation of a repository bound to a workspace ------------------------------------------

  datatype Operation =
    | CreateSession(session: string, goal: string, draft: Draft)
    | AddTurn(session: string, expected: nat, id: string, text: string)
    | UpdateRevision(session: string, expected: nat, change: Change)
    | ReviewTransition(session: string, expected: nat, decision: Decision, change: Change, id: string)
    | RecordApproval(session: string, expected: nat, decision: Decision, id: string)
    | AddExport(session: string, expected: nat, format: Format, id: string)
    | DeleteSession(session: string)
    | RestoreSession(session: string)
    | PurgeSessions(selected: map<string, nat>)

  /** The tables after an operation; one that raises leaves them as they are. */
  function Apply(t: Tables, w: Workspace, op: Operation): Tables {
    match op
    case CreateSession(s, goal, draft) => Kept(t, Create(t, w, s, goal, draft))
    case AddTurn(s, e, id, text) => Kept(t, AppendTurn(t, w, s, e, id, text))
    case UpdateRevision(s, e, u) => Kept(t, Update(t, w, s, e, u))
    case ReviewTransition(s, e, d, u, id) => Kept(t, Review(t, w, s, e, d, u, id))
    case RecordApproval(s, e, d, id) => Kept(t, Decide(t, w, s, e, d, id))
    case AddExport(s, e, f, id) => Kept(t, RecordExport(t, w, s, e, f, id))
    case DeleteSession(s) => Kept(t, Delete(t, w, s))
    case RestoreSession(s) => Kept(t, Restore(t, w, s))
    case PurgeSessions(selected) => if Purgeable(t, w, selected) then Remove(t, selected.Keys) else t
  }

  function Kept(t: Tables, r: Result<Tables, Error>): Tables {
    if r.Ok? then r.value else t
  }
}
