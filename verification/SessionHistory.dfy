/** What every sequence of operations keeps, whichever repositories make them and in whatever order:
    the history of a session only grows, and no workspace touches the sessions of another. */
module SessionHistory {
  import opened Outcomes
  import opened Text
  import opened Validation
  import opened Supervisor
  import opened SessionTables

  // ----- logs --------------------------------------------------------------------------------------

  lemma {:induction false} OfWithout<T>(rows: seq<Logged<T>>, gone: set<string>, session: string)
    ensures Of(Without(rows, gone), session) == if session in gone then [] else Of(rows, session)
  {
    if rows != [] {
      var front, last := rows[..|rows| - 1], rows[|rows| - 1];
      OfWithout(front, gone, session);
      if last.session in gone {
        assert Without(rows, gone) == Without(front, gone);
      } else {
        var kept := Without(front, gone) + [last];
        assert kept[..|kept| - 1] == Without(front, gone);
      }
    }
  }

  lemma OfOneMore<T>(rows: seq<Logged<T>>, row: Logged<T>, session: string)
    ensures Of(rows + [row], session) == Of(rows, session) + if row.session == session then [row] else []
  {
    assert (rows + [row])[..|rows|] == rows;
  }

  lemma {:induction false} OfContains<T>(rows: seq<Logged<T>>, i: nat)
    requires i < |rows|
    ensures rows[i] in Of(rows, rows[i].session)
  {
    var front, last := rows[..|rows| - 1], rows[|rows| - 1];
    if i < |rows| - 1 {
      OfContains(front, i);
    }
  }

  /** Turn sequences are 1, 2, and so on. */
  predicate Numbered(turns: seq<Logged<Message>>) {
    forall i :: 0 <= i < |turns| ==> turns[i].value.sequence == i + 1
  }

  /** Every row refers to a revision there is, and none to an earlier one than the row before. */
  predicate Ordered<T>(rows: seq<Logged<T>>, current: nat) {
    && (forall i :: 0 <= i < |rows| ==> 1 <= rows[i].revision <= current)
    && (forall i, j :: 0 <= i < j < |rows| ==> rows[i].revision <= rows[j].revision)
  }

  lemma {:induction false} NextSequence(turns: seq<Logged<Message>>, session: string)
    requires Numbered(Of(turns, session))
    ensures LastSequence(turns, session) == |Of(turns, session)|
  {
    if turns != [] {
      var front, last := turns[..|turns| - 1], turns[|turns| - 1];
      var all := Of(turns, session);
      assert forall i :: 0 <= i < |Of(front, session)| ==> Of(front, session)[i] == all[i];
      NextSequence(front, session);
      if last.session == session {
        assert all[|all| - 1] == last;
      }
    }
  }

  /** A turn that is appended is the last one of its session: the next number, the text without the blanks around it,
      and the revision it was written at. */
  lemma TurnIsAppended(t: Tables, w: Workspace, session: string, expected: nat, id: string, text: string)
    requires Numbered(Of(t.turns, session)) && AppendTurn(t, w, session, expected, id, text).Ok?
    ensures var after := AppendTurn(t, w, session, expected, id, text).value;
      && !Blank(text) && session in t.sessions && t.sessions[session].current == expected && !HasId(t.turns, id)
      && Of(after.turns, session) == Of(t.turns, session) +
           [Logged(id, session, expected, Message(|Of(t.turns, session)| + 1, Strip(text)))]
      && after == t.(turns := after.turns)
  {
    NextSequence(t.turns, session);
    OfOneMore(t.turns, Logged(id, session, expected, Message(|Of(t.turns, session)| + 1, Strip(text))), session);
  }

  // ----- the invariant -----------------------------------------------------------------------------

  ghost predicate RevisionsExact(t: Tables) {
    forall s, r :: (s, r) in t.revisions <==> s in t.sessions && 1 <= r <= t.sessions[s].current
  }

  predicate RowCurrent(t: Tables, s: string)
    requires s in t.sessions
  {
    var row := t.sessions[s];
    row.current >= 1 && (s, row.current) in t.revisions && row.status == t.revisions[(s, row.current)].status
  }

  predicate LogsFit(t: Tables, s: string) {
    var current := if s in t.sessions then t.sessions[s].current else 0;
    && Numbered(Of(t.turns, s))
    && Ordered(Of(t.turns, s), current) && Ordered(Of(t.approvals, s), current) && Ordered(Of(t.exports, s), current)
  }

  /** Revisions are exactly 1 to the current one, the session row agrees with the last of them, and every
      turn, approval and export refers to one of them, in order. */
  ghost predicate Consistent(t: Tables) {
    && RevisionsExact(t)
    && (forall s :: s in t.sessions ==> RowCurrent(t, s))
    && t.deleted <= t.sessions.Keys
    && (forall s :: LogsFit(t, s))
  }

  lemma CreateKeeps(t: Tables, w: Workspace, session: string, goal: string, draft: Draft)
    requires Consistent(t)
    ensures Consistent(Kept(t, Create(t, w, session, goal, draft)))
  {
    var after := Kept(t, Create(t, w, session, goal, draft));
    if after != t {
      assert (session, 1) in after.revisions;
      forall s ensures LogsFit(after, s) {
        assert LogsFit(t, s);
      }
    }
  }

  lemma AdvanceKeeps(t: Tables, session: string, next: Content)
    requires Consistent(t) && session in t.sessions
    ensures Consistent(Advance(t, session, t.sessions[session].current, next))
  {
    var expected := t.sessions[session].current;
    var after := Advance(t, session, expected, next);
    forall s, r ensures (s, r) in after.revisions <==> s in after.sessions && 1 <= r <= after.sessions[s].current {
      assert (s, r) in t.revisions <==> s in t.sessions && 1 <= r <= t.sessions[s].current;
    }
    forall s | s in after.sessions ensures RowCurrent(after, s) {
      assert RowCurrent(t, s);
    }
    forall s ensures LogsFit(after, s) {
      assert LogsFit(t, s);
    }
  }

  lemma OrderedOneMore<T>(rows: seq<Logged<T>>, row: Logged<T>, current: nat)
    requires Ordered(rows, current) && row.revision == current >= 1
    ensures Ordered(rows + [row], current)
  {
  }

  lemma NumberedOneMore(turns: seq<Logged<Message>>, turn: Logged<Message>)
    requires Numbered(turns) && turn.value.sequence == |turns| + 1
    ensures Numbered(turns + [turn])
  {
  }

  lemma TurnFits(t: Tables, turn: Logged<Message>, s: string)
    requires LogsFit(t, s) && (turn.session == s ==> s in t.sessions)
    requires turn.session == s ==> turn.revision == t.sessions[s].current >= 1
    requires turn.session == s ==> turn.value.sequence == |Of(t.turns, s)| + 1
    ensures LogsFit(t.(turns := t.turns + [turn]), s)
  {
    OfOneMore(t.turns, turn, s);
    if turn.session == s {
      OrderedOneMore(Of(t.turns, s), turn, t.sessions[s].current);
      NumberedOneMore(Of(t.turns, s), turn);
    } else {
      assert Of(t.turns + [turn], s) == Of(t.turns, s);
    }
  }

  lemma TurnKeeps(t: Tables, w: Workspace, session: string, expected: nat, id: string, text: string)
    requires Consistent(t)
    ensures Consistent(Kept(t, AppendTurn(t, w, session, expected, id, text)))
  {
    if AppendTurn(t, w, session, expected, id, text).Ok? {
      TurnAdded(t, Logged(id, session, expected, Message(LastSequence(t.turns, session) + 1, Strip(text))));
    }
  }

  lemma TurnAdded(t: Tables, turn: Logged<Message>)
    requires Consistent(t) && turn.session in t.sessions
    requires turn.revision == t.sessions[turn.session].current
    requires turn.value.sequence == LastSequence(t.turns, turn.session) + 1
    ensures Consistent(t.(turns := t.turns + [turn]))
  {
    var after := t.(turns := t.turns + [turn]);
    assert LogsFit(t, turn.session) && RowCurrent(t, turn.session);
    NextSequence(t.turns, turn.session);
    forall s ensures LogsFit(after, s) {
      TurnFits(t, turn, s);
    }
    forall s | s in after.sessions ensures RowCurrent(after, s) {
      assert RowCurrent(t, s);
    }
  }

  lemma ApprovalKeeps(t: Tables, approval: Logged<Decision>)
    requires Consistent(t) && approval.session in t.sessions
    requires approval.revision == t.sessions[approval.session].current
    ensures Consistent(t.(approvals := t.approvals + [approval]))
  {
    var after := t.(approvals := t.approvals + [approval]);
    assert RowCurrent(t, approval.session);
    forall s ensures LogsFit(after, s) {
      assert LogsFit(t, s);
      StaysOrdered(t.approvals, approval, s, if s in t.sessions then t.sessions[s].current else 0);
    }
    forall s | s in after.sessions ensures RowCurrent(after, s) {
      assert RowCurrent(t, s);
    }
  }

  lemma StaysOrdered<T>(rows: seq<Logged<T>>, row: Logged<T>, s: string, current: nat)
    requires Ordered(Of(rows, s), current) && (row.session == s ==> row.revision == current >= 1)
    ensures Ordered(Of(rows + [row], s), current)
  {
    OfOneMore(rows, row, s);
    if row.session == s {
      OrderedOneMore(Of(rows, s), row, current);
    } else {
      assert Of(rows + [row], s) == Of(rows, s);
    }
  }

  lemma ExportKeeps(t: Tables, export_: Logged<Format>)
    requires Consistent(t) && export_.session in t.sessions
    requires export_.revision == t.sessions[export_.session].current
    ensures Consistent(t.(exports := t.exports + [export_]))
  {
    var after := t.(exports := t.exports + [export_]);
    assert RowCurrent(t, export_.session);
    forall s ensures LogsFit(after, s) {
      assert LogsFit(t, s);
      StaysOrdered(t.exports, export_, s, if s in t.sessions then t.sessions[s].current else 0);
    }
    forall s | s in after.sessions ensures RowCurrent(after, s) {
      assert RowCurrent(t, s);
    }
  }

  lemma RemoveKeeps(t: Tables, gone: set<string>)
    requires Consistent(t)
    ensures Consistent(Remove(t, gone))
  {
    var after := Remove(t, gone);
    forall s ensures LogsFit(after, s) {
      assert LogsFit(t, s);
      OfWithout(t.turns, gone, s);
      OfWithout(t.approvals, gone, s);
      OfWithout(t.exports, gone, s);
    }
    forall s | s in after.sessions ensures RowCurrent(after, s) {
      assert RowCurrent(t, s);
    }
  }

  lemma ReviewKeeps(t: Tables, w: Workspace, session: string, expected: nat, d: Decision, u: Change, id: string)
    requires Consistent(t)
    ensures Consistent(Kept(t, Review(t, w, session, expected, d, u, id)))
  {
    if Review(t, w, session, expected, d, u, id).Ok? {
      var approval := Logged(id, session, expected, d);
      ApprovalKeeps(t, approval);
      var next := Merge(t.revisions[(session, expected)], u);
      AdvanceKeeps(t.(approvals := t.approvals + [approval]), session, next);
    }
  }

  lemma UpdateKeeps(t: Tables, w: Workspace, session: string, expected: nat, u: Change)
    requires Consistent(t)
    ensures Consistent(Kept(t, Update(t, w, session, expected, u)))
  {
    if Update(t, w, session, expected, u).Ok? {
      AdvanceKeeps(t, session, Merge(t.revisions[(session, expected)], u));
    }
  }

  lemma BinKeeps(t: Tables, w: Workspace, session: string)
    requires Consistent(t)
    ensures Consistent(Kept(t, Delete(t, w, session))) && Consistent(Kept(t, Restore(t, w, session)))
  {
    forall s ensures LogsFit(Kept(t, Delete(t, w, session)), s) && LogsFit(Kept(t, Restore(t, w, session)), s) {
      assert LogsFit(t, s);
    }
    forall s | s in t.sessions
      ensures RowCurrent(Kept(t, Delete(t, w, session)), s) && RowCurrent(Kept(t, Restore(t, w, session)), s)
    {
      assert RowCurrent(t, s);
    }
  }

  /** Every operation of every repository keeps the tables consistent. */
  lemma ApplyKeepsConsistent(t: Tables, w: Workspace, op: Operation)
    requires Consistent(t)
    ensures Consistent(Apply(t, w, op))
  {
    match op
    case CreateSession(s, goal, draft) => CreateKeeps(t, w, s, goal, draft);
    case AddTurn(s, e, id, text) => TurnKeeps(t, w, s, e, id, text);
    case UpdateRevision(s, e, u) => UpdateKeeps(t, w, s, e, u);
    case ReviewTransition(s, e, d, u, id) => ReviewKeeps(t, w, s, e, d, u, id);
    case RecordApproval(s, e, d, id) =>
      if Decide(t, w, s, e, d, id).Ok? {
        ApprovalKeeps(t, Logged(id, s, e, d));
      }
    case AddExport(s, e, f, id) =>
      if RecordExport(t, w, s, e, f, id).Ok? {
        ExportKeeps(t, Logged(id, s, e, f));
      }
    case DeleteSession(s) => BinKeeps(t, w, s);
    case RestoreSession(s) => BinKeeps(t, w, s);
    case PurgeSessions(selected) => RemoveKeeps(t, selected.Keys);
  }
}
