/** Runs: operations of any number of repositories, interleaved in any order. */
module SessionRuns {
  import opened Outcomes
  import opened Text
  import opened Validation
  import opened Supervisor
  import opened SessionTables
  import opened SessionHistory

  // ----- one session -------------------------------------------------------------------------------

  /** Everything the database holds about one session. */
  datatype Record = Record(
    row: SessionRow, history: seq<Content>,
    turns: seq<Logged<Message>>, approvals: seq<Logged<Decision>>, exports: seq<Logged<Format>>)

  ghost function RecordOf(t: Tables, s: string): Record
    requires Consistent(t) && s in t.sessions
  {
    Record(t.sessions[s], seq(t.sessions[s].current, i requires 0 <= i < t.sessions[s].current => At(t, s, i + 1)),
           Of(t.turns, s), Of(t.approvals, s), Of(t.exports, s))
  }

  ghost function At(t: Tables, s: string, r: nat): Content
    requires Consistent(t) && s in t.sessions && 1 <= r <= t.sessions[s].current
  {
    assert (s, r) in t.revisions;
    t.revisions[(s, r)]
  }

  /** Nothing recorded is lost or rewritten, the workspace stays, and nothing follows a cancellation. */
  ghost predicate Grown(before: Record, after: Record) {
    && before.row.workspace == after.row.workspace
    && before.history <= after.history
    && before.turns <= after.turns && before.approvals <= after.approvals && before.exports <= after.exports
    && (before.row.status == Cancelled ==> after == before)
  }

  /** The session is among those this operation purges. */
  predicate Purges(op: Operation, s: string) {
    op.PurgeSessions? && s in op.selected
  }

  lemma AdvanceGrows(t: Tables, s: string, next: Content, other: string)
    requires Consistent(t) && s in t.sessions && other in t.sessions
    requires t.sessions[s].status != Cancelled
    requires Consistent(Advance(t, s, t.sessions[s].current, next))
    ensures Grown(RecordOf(t, other), RecordOf(Advance(t, s, t.sessions[s].current, next), other))
    ensures other != s ==> RecordOf(Advance(t, s, t.sessions[s].current, next), other) == RecordOf(t, other)
  {
    var after := Advance(t, s, t.sessions[s].current, next);
    var h, h' := RecordOf(t, other).history, RecordOf(after, other).history;
    assert forall i :: 0 <= i < |h| ==> h'[i] == At(after, other, i + 1) == At(t, other, i + 1) == h[i];
    if other != s {
      assert h' == h;
    }
  }

  lemma SameHistory(t: Tables, after: Tables, s: string)
    requires Consistent(t) && Consistent(after) && s in t.sessions
    requires s in after.sessions && after.sessions[s] == t.sessions[s]
    requires forall r :: (s, r) in t.revisions ==>
      (s, r) in after.revisions && after.revisions[(s, r)] == t.revisions[(s, r)]
    ensures RecordOf(after, s).history == RecordOf(t, s).history
  {
    var h, h' := RecordOf(t, s).history, RecordOf(after, s).history;
    assert forall i :: 0 <= i < |h| ==> h'[i] == At(after, s, i + 1) == At(t, s, i + 1) == h[i];
  }

  /** What an operation on one session does to any session. */
  ghost predicate Touches(t: Tables, after: Tables, w: Workspace, s: string)
    requires Consistent(t) && Consistent(after) && s in t.sessions
  {
    && s in after.sessions
    && Grown(RecordOf(t, s), RecordOf(after, s))
    && (t.sessions[s].workspace != w.id ==>
          RecordOf(after, s) == RecordOf(t, s) && (s in after.deleted <==> s in t.deleted))
  }

  lemma CreateTouches(t: Tables, w: Workspace, session: string, goal: string, draft: Draft, s: string)
    requires Consistent(t) && s in t.sessions
    requires Consistent(Kept(t, Create(t, w, session, goal, draft)))
    ensures Touches(t, Kept(t, Create(t, w, session, goal, draft)), w, s)
  {
    SameHistory(t, Kept(t, Create(t, w, session, goal, draft)), s);
  }

  lemma TurnTouches(t: Tables, w: Workspace, session: string, expected: nat, id: string, text: string, s: string)
    requires Consistent(t) && s in t.sessions
    requires Consistent(Kept(t, AppendTurn(t, w, session, expected, id, text)))
    ensures Touches(t, Kept(t, AppendTurn(t, w, session, expected, id, text)), w, s)
  {
    var after := Kept(t, AppendTurn(t, w, session, expected, id, text));
    SameHistory(t, after, s);
    if after != t {
      OfOneMore(t.turns, after.turns[|t.turns|], s);
    }
  }

  lemma ApprovalTouches(t: Tables, w: Workspace, session: string, expected: nat, d: Decision, id: string, s: string)
    requires Consistent(t) && s in t.sessions
    requires Consistent(Kept(t, Decide(t, w, session, expected, d, id)))
    ensures Touches(t, Kept(t, Decide(t, w, session, expected, d, id)), w, s)
  {
    if Decide(t, w, session, expected, d, id).Ok? {
      ApprovedTouches(t, w, Logged(id, session, expected, d), s);
    } else {
      SameHistory(t, t, s);
    }
  }

  lemma ExportTouches(t: Tables, w: Workspace, session: string, expected: nat, f: Format, id: string, s: string)
    requires Consistent(t) && s in t.sessions
    requires Consistent(Kept(t, RecordExport(t, w, session, expected, f, id)))
    ensures Touches(t, Kept(t, RecordExport(t, w, session, expected, f, id)), w, s)
  {
    var after := Kept(t, RecordExport(t, w, session, expected, f, id));
    SameHistory(t, after, s);
    if after != t {
      OfOneMore(t.exports, after.exports[|t.exports|], s);
    }
  }

  lemma UpdateTouches(t: Tables, w: Workspace, session: string, expected: nat, u: Change, s: string)
    requires Consistent(t) && s in t.sessions
    requires Consistent(Kept(t, Update(t, w, session, expected, u)))
    ensures Touches(t, Kept(t, Update(t, w, session, expected, u)), w, s)
  {
    if Update(t, w, session, expected, u).Ok? {
      AdvanceGrows(t, session, Merge(t.revisions[(session, expected)], u), s);
    }
  }

  lemma ReviewTouches(t: Tables, w: Workspace, session: string, expected: nat, d: Decision, u: Change, id: string,
                      s: string)
    requires Consistent(t) && s in t.sessions
    requires Consistent(Kept(t, Review(t, w, session, expected, d, u, id)))
    ensures Touches(t, Kept(t, Review(t, w, session, expected, d, u, id)), w, s)
  {
    var after := Kept(t, Review(t, w, session, expected, d, u, id));
    if after != t {
      var approval := Logged(id, session, expected, d);
      var approved := t.(approvals := t.approvals + [approval]);
      var next := Merge(t.revisions[(session, expected)], u);
      assert after == Advance(approved, session, expected, next);
      ApprovalKeeps(t, approval);
      ApprovedTouches(t, w, approval, s);
      AdvanceGrows(approved, session, next, s);
      GrownTransitive(RecordOf(t, s), RecordOf(approved, s), RecordOf(after, s));
    }
  }

  lemma ApprovedTouches(t: Tables, w: Workspace, approval: Logged<Decision>, s: string)
    requires Consistent(t) && s in t.sessions && Visible(t, w, approval.session, false)
    requires t.sessions[approval.session].status != Cancelled
    requires Consistent(t.(approvals := t.approvals + [approval]))
    ensures Touches(t, t.(approvals := t.approvals + [approval]), w, s)
    ensures approval.session != s ==> RecordOf(t.(approvals := t.approvals + [approval]), s) == RecordOf(t, s)
  {
    SameHistory(t, t.(approvals := t.approvals + [approval]), s);
    OfOneMore(t.approvals, approval, s);
  }

  lemma RemoveTouches(t: Tables, w: Workspace, selected: map<string, nat>, s: string)
    requires Consistent(t) && s in t.sessions && s !in selected
    requires Consistent(Remove(t, selected.Keys))
    ensures Touches(t, Remove(t, selected.Keys), w, s)
  {
    SameHistory(t, Remove(t, selected.Keys), s);
    OfWithout(t.turns, selected.Keys, s);
    OfWithout(t.approvals, selected.Keys, s);
    OfWithout(t.exports, selected.Keys, s);
  }

  lemma BinTouches(t: Tables, w: Workspace, session: string, s: string)
    requires Consistent(t) && s in t.sessions
    requires Consistent(Kept(t, Delete(t, w, session))) && Consistent(Kept(t, Restore(t, w, session)))
    ensures Touches(t, Kept(t, Delete(t, w, session)), w, s) && Touches(t, Kept(t, Restore(t, w, session)), w, s)
  {
    SameHistory(t, Kept(t, Delete(t, w, session)), s);
    SameHistory(t, Kept(t, Restore(t, w, session)), s);
  }

  lemma CommitTouches(t: Tables, w: Workspace, op: Operation, s: string)
    requires Consistent(t) && s in t.sessions && Consistent(Apply(t, w, op))
    requires op.CreateSession? || op.UpdateRevision? || op.ReviewTransition?
    ensures Touches(t, Apply(t, w, op), w, s)
  {
    match op
    case CreateSession(id, goal, draft) => CreateTouches(t, w, id, goal, draft, s);
    case UpdateRevision(id, e, u) => UpdateTouches(t, w, id, e, u, s);
    case ReviewTransition(id, e, d, u, approval) => ReviewTouches(t, w, id, e, d, u, approval, s);
  }

  lemma LogTouches(t: Tables, w: Workspace, op: Operation, s: string)
    requires Consistent(t) && s in t.sessions && Consistent(Apply(t, w, op))
    requires op.AddTurn? || op.RecordApproval? || op.AddExport?
    ensures Touches(t, Apply(t, w, op), w, s)
  {
    match op
    case AddTurn(id, e, turn, text) => TurnTouches(t, w, id, e, turn, text, s);
    case RecordApproval(id, e, d, approval) => ApprovalTouches(t, w, id, e, d, approval, s);
    case AddExport(id, e, f, export_) => ExportTouches(t, w, id, e, f, export_, s);
  }

  /** One operation: a session it does not purge only grows, and one of another workspace stays as it is. */
  lemma ApplyTouches(t: Tables, w: Workspace, op: Operation, s: string)
    requires Consistent(t) && s in t.sessions && !Purges(op, s)
    ensures Consistent(Apply(t, w, op))
    ensures Touches(t, Apply(t, w, op), w, s)
  {
    ApplyKeepsConsistent(t, w, op);
    if op.CreateSession? || op.UpdateRevision? || op.ReviewTransition? {
      CommitTouches(t, w, op, s);
    } else if op.AddTurn? || op.RecordApproval? || op.AddExport? {
      LogTouches(t, w, op, s);
    } else if op.PurgeSessions? {
      if Purgeable(t, w, op.selected) {
        RemoveTouches(t, w, op.selected, s);
      } else {
        SameHistory(t, t, s);
      }
    } else {
      BinKeeps(t, w, op.session);
      BinTouches(t, w, op.session, s);
    }
  }

  // ----- what an operation may write --------------------------------------------------------------------

  /** The operation adds to a session that is there. */
  predicate AddsTo(op: Operation, s: string) {
    && (op.AddTurn? || op.UpdateRevision? || op.ReviewTransition? || op.RecordApproval? || op.AddExport?)
    && op.session == s
  }

  /** Nothing is added to a session in the bin, to a cancelled one, to one of another workspace, or at a revision that
      is not the current one. */
  lemma AddsOnlyToCurrent(t: Tables, w: Workspace, op: Operation, s: string)
    requires AddsTo(op, s) && Apply(t, w, op) != t
    ensures s in t.sessions && s !in t.deleted && t.sessions[s].status != Cancelled
    ensures t.sessions[s].workspace == w.id && t.sessions[s].current == op.expected
  {
  }

  /** A revision is written only by its own workspace, and only with a draft that the workspace permits. */
  lemma WrittenIsPermitted(t: Tables, w: Workspace, op: Operation, s: string, r: nat)
    requires Consistent(t) && (s, r) in Apply(t, w, op).revisions && (s, r) !in t.revisions
    ensures var after := Apply(t, w, op);
      && w.permits(after.revisions[(s, r)].draft) && s in after.sessions && after.sessions[s].workspace == w.id
      && !Blank(after.revisions[(s, r)].goal)
    ensures (op.UpdateRevision? || op.ReviewTransition?) && op.change.workspace.Some? ==>
      op.change.workspace.value == w.id
  {
  }

  // ----- all or nothing ------------------------------------------------------------------------------

  /** Nothing in the database is about the session. */
  ghost predicate Forgotten(t: Tables, s: string) {
    && s !in t.sessions && s !in t.deleted && (forall r :: (s, r) !in t.revisions)
    && Of(t.turns, s) == [] && Of(t.approvals, s) == [] && Of(t.exports, s) == []
  }

  lemma RemovedIsForgotten(t: Tables, gone: set<string>, s: string)
    requires Consistent(t) && s in gone
    ensures Forgotten(Remove(t, gone), s)
  {
    OfWithout(t.turns, gone, s);
    OfWithout(t.approvals, gone, s);
    OfWithout(t.exports, gone, s);
  }

  /** A purge removes every selected conversation with everything recorded about it, or changes nothing;
      it removes none that is not in the bin of this workspace at the revision that was confirmed. */
  lemma PurgeIsAllOrNothing(t: Tables, w: Workspace, selected: map<string, nat>)
    requires Consistent(t)
    ensures var after := Apply(t, w, PurgeSessions(selected));
      && (after == t || forall s :: s in selected ==> Forgotten(after, s))
      && forall s :: s in t.sessions && s !in after.sessions ==>
           s in selected && t.sessions[s].workspace == w.id && s in t.deleted && t.sessions[s].current == selected[s]
  {
    if Purgeable(t, w, selected) {
      forall s | s in selected
        ensures Forgotten(Remove(t, selected.Keys), s) && PurgeRefusal(t, w, s, selected[s]) == None
      {
        RemovedIsForgotten(t, selected.Keys, s);
      }
    }
  }

  // ----- runs ----------------------------------------------------------------------------------------

  datatype Step = Step(workspace: Workspace, op: Operation)

  function Final(t: Tables, steps: seq<Step>): Tables
    decreases |steps|
  {
    if steps == [] then t else Final(Apply(t, steps[0].workspace, steps[0].op), steps[1..])
  }

  lemma {:induction false} RunKeepsConsistent(t: Tables, steps: seq<Step>)
    requires Consistent(t)
    ensures Consistent(Final(t, steps))
    decreases |steps|
  {
    if steps != [] {
      ApplyKeepsConsistent(t, steps[0].workspace, steps[0].op);
      RunKeepsConsistent(Apply(t, steps[0].workspace, steps[0].op), steps[1..]);
    }
  }

  predicate NeverPurges(steps: seq<Step>, s: string) {
    forall i :: 0 <= i < |steps| ==> !Purges(steps[i].op, s)
  }

  /** Until it is purged, a session's revisions, turns, approvals and exports are only ever added to; a
      cancelled one never changes again. */
  lemma {:induction false} RunOnlyGrows(t: Tables, steps: seq<Step>, s: string)
    requires Consistent(t) && s in t.sessions && NeverPurges(steps, s)
    ensures Consistent(Final(t, steps)) && s in Final(t, steps).sessions
    ensures Grown(RecordOf(t, s), RecordOf(Final(t, steps), s))
    decreases |steps|
  {
    RunKeepsConsistent(t, steps);
    if steps != [] {
      var next := Apply(t, steps[0].workspace, steps[0].op);
      ApplyTouches(t, steps[0].workspace, steps[0].op, s);
      RunOnlyGrows(next, steps[1..], s);
      GrownTransitive(RecordOf(t, s), RecordOf(next, s), RecordOf(Final(t, steps), s));
    }
  }

  lemma GrownTransitive(a: Record, b: Record, c: Record)
    requires Grown(a, b) && Grown(b, c)
    ensures Grown(a, c)
  {
  }

  /** However long other workspaces work, even purging, the sessions of this one stay as they are. */
  lemma {:induction false} OtherWorkspacesIsolated(t: Tables, steps: seq<Step>, s: string)
    requires Consistent(t) && s in t.sessions
    requires forall i :: 0 <= i < |steps| ==> steps[i].workspace.id != t.sessions[s].workspace
    ensures Consistent(Final(t, steps)) && s in Final(t, steps).sessions
    ensures RecordOf(Final(t, steps), s) == RecordOf(t, s)
    ensures s in Final(t, steps).deleted <==> s in t.deleted
    decreases |steps|
  {
    RunKeepsConsistent(t, steps);
    if steps != [] {
      var w, op := steps[0].workspace, steps[0].op;
      var next := Apply(t, w, op);
      ApplyKeepsConsistent(t, w, op);
      if !Purges(op, s) {
        ApplyTouches(t, w, op, s);
      } else {
        assert PurgeRefusal(t, w, s, op.selected[s]) != None;
      }
      OtherWorkspacesIsolated(next, steps[1..], s);
    }
  }

  /** The operation commits the successor of revision `expected` of the session. */
  predicate Consumes(t: Tables, w: Workspace, op: Operation, s: string, expected: nat) {
    || (op.UpdateRevision? && op.session == s && op.expected == expected && Update(t, w, s, expected, op.change).Ok?)
    || (op.ReviewTransition? && op.session == s && op.expected == expected &&
          Review(t, w, s, expected, op.decision, op.change, op.id).Ok?)
  }

  /** Two commits to a session never consume the same revision: of two, the later expects a later one. */
  lemma RevisionsConsumedOnce(t: Tables, w: Workspace, op: Operation, steps: seq<Step>, w': Workspace, op': Operation,
                              s: string, expected: nat, expected': nat)
    requires Consistent(t) && Consumes(t, w, op, s, expected)
    requires NeverPurges(steps, s)
    requires Consumes(Final(Apply(t, w, op), steps), w', op', s, expected')
    ensures expected < expected'
  {
    var next := Apply(t, w, op);
    ApplyKeepsConsistent(t, w, op);
    ConsumesCurrent(t, w, op, s, expected);
    RunOnlyGrows(next, steps, s);
    ConsumesCurrent(Final(next, steps), w', op', s, expected');
    assert RecordOf(next, s).history <= RecordOf(Final(next, steps), s).history;
  }

  lemma ConsumesCurrent(t: Tables, w: Workspace, op: Operation, s: string, expected: nat)
    requires Consistent(t) && Consumes(t, w, op, s, expected)
    ensures s in t.sessions && t.sessions[s].current == expected
    ensures s in Apply(t, w, op).sessions && Apply(t, w, op).sessions[s].current == expected + 1
  {
  }
}
