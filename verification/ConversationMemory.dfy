/** Rolling compaction of a conversation (src/agents/conversation_memory.py). */
module ConversationMemory {
  import opened Outcomes
  import opened Text

  datatype Turn = Turn(sequence: nat, role: string, content: string)

  /** `max_context_turns` is at least 1. */
  datatype Limits = Limits(turns: nat, context: nat, summary: nat)

  datatype Memory = Memory(summary: string, through: nat, recent: seq<Turn>)

  datatype MemoryError = LatestTooLarge | TooMuchHistory | MessageTooLarge | CallFailed | StillTooLarge

  /** The length of the serialized context, for the confirmed requirements of the session. */
  type Size = (string, seq<Turn>) -> nat

  /** The language model, asked to continue a summary with a batch; it may fail. */
  type Model = (string, seq<Turn>) -> Option<string>

  function Pending(history: seq<Turn>, through: nat): seq<Turn> {
    if history == [] then [] else
    var last := history[|history| - 1];
    Pending(history[..|history| - 1], through) + if last.sequence > through then [last] else []
  }

  function Flatten(batches: seq<seq<Turn>>): seq<Turn> {
    if batches == [] then [] else Flatten(batches[..|batches| - 1]) + batches[|batches| - 1]
  }

  /** `validate` and `strip`: what a call to the model adds up to. */
  function Continued(summary: string, batch: seq<Turn>, limits: Limits, model: Model): Option<string> {
    var reply := model(summary, batch);
    if reply.Some? && !Blank(reply.value) && |reply.value| <= limits.summary then Some(Strip(reply.value)) else None
  }

  /** The summary after batch upon batch. */
  function Rolled(summary: string, batches: seq<seq<Turn>>, limits: Limits, model: Model): Option<string> {
    if batches == [] then Some(summary) else
    var before := Rolled(summary, batches[..|batches| - 1], limits, model);
    if before.None? then None else Continued(before.value, batches[|batches| - 1], limits, model)
  }

  /** A summary that was rolled over something is what the model replied to the last batch and the summary before it:
      not blank, within its limit, and without the blanks around it. */
  lemma SummaryIsReply(summary: string, batches: seq<seq<Turn>>, limits: Limits, model: Model)
    requires batches != [] && Rolled(summary, batches, limits, model).Some?
    ensures var before := Rolled(summary, batches[..|batches| - 1], limits, model);
      before.Some? &&
      var reply := model(before.value, batches[|batches| - 1]);
      && reply.Some? && !Blank(reply.value) && |reply.value| <= limits.summary
      && Rolled(summary, batches, limits, model).value == Strip(reply.value)
  {
    var before := Rolled(summary, batches[..|batches| - 1], limits, model);
    assert Rolled(summary, batches, limits, model) ==
      Continued(before.value, batches[|batches| - 1], limits, model);
  }

  /** Every batch fits the window together with the summary it continues. */
  predicate BatchesFit(summary: string, batches: seq<seq<Turn>>, limits: Limits, size: Size, model: Model) {
    forall i :: 0 <= i < |batches| ==>
      batches[i] != [] && Rolled(summary, batches[..i], limits, model).Some? &&
      size(Rolled(summary, batches[..i], limits, model).value, batches[i]) <= limits.context
  }

  function Cursor(through: nat, batches: seq<seq<Turn>>): nat {
    if batches == [] || batches[|batches| - 1] == [] then through else
    var batch := batches[|batches| - 1];
    batch[|batch| - 1].sequence
  }

  /** The pending turns are split into at most four batches that were summarized in order, and a recent part that
      ends with the latest turn and fits the context together with the new summary. */
  ghost predicate Compacted(pending: seq<Turn>, summary: string, through: nat, limits: Limits, size: Size, model: Model,
                            batches: seq<seq<Turn>>, m: Memory)
  {
    && |batches| <= 4 && BatchesFit(summary, batches, limits, size, model)
    && pending == Flatten(batches) + m.recent && 0 < |m.recent| <= limits.turns
    && m.through == Cursor(through, batches) && Rolled(summary, batches, limits, model) == Some(m.summary)
    && size(m.summary, m.recent) <= limits.context
  }

  // ----- prepare_memory --------------------------------------------------------------------------------

  /** The latest turns fit the window, even if the summary grows to its limit. */
  predicate FitsWithSummary(pending: seq<Turn>, keep: nat, summary: string, limits: Limits, size: Size)
    requires keep <= |pending|
  {
    size(summary, pending[|pending| - keep..]) + (limits.summary - |summary|) <= limits.context
  }

  /** How many of the latest turns to keep as they are: the most that fit, and at least one. */
  method KeptTurns(pending: seq<Turn>, summary: string, limits: Limits, size: Size) returns (keep: nat)
    requires pending != [] && limits.turns > 0
    ensures 0 < keep <= |pending| && keep <= limits.turns
    ensures keep == 1 || FitsWithSummary(pending, keep, summary, limits, size)
    ensures forall k :: keep < k <= |pending| && k <= limits.turns ==>
      !FitsWithSummary(pending, k, summary, limits, size)
  {
    keep := if |pending| < limits.turns then |pending| else limits.turns;
    while keep > 1 && !FitsWithSummary(pending, keep, summary, limits, size)
      invariant 0 < keep <= |pending| && keep <= limits.turns
      invariant forall k :: keep < k <= |pending| && k <= limits.turns ==>
        !FitsWithSummary(pending, k, summary, limits, size)
    {
      keep := keep - 1;
    }
  }

  /** The longest part of the older turns, from their beginning, that fits the window. */
  method NextBatch(older: seq<Turn>, summary: string, limits: Limits, size: Size) returns (n: nat)
    ensures n <= |older| && (n > 0 ==> size(summary, older[..n]) <= limits.context)
    ensures forall k :: 0 < k <= n ==> size(summary, older[..k]) <= limits.context
    ensures n < |older| ==> size(summary, older[..n + 1]) > limits.context
  {
    n := 0;
    while n < |older| && size(summary, older[..n + 1]) <= limits.context
      invariant n <= |older|
      invariant forall k :: 0 < k <= n ==> size(summary, older[..k]) <= limits.context
    {
      n := n + 1;
    }
  }

  lemma OneMoreBatch(summary: string, batches: seq<seq<Turn>>, batch: seq<Turn>, limits: Limits, size: Size,
                     model: Model)
    requires BatchesFit(summary, batches, limits, size, model) && batch != []
    requires var before := Rolled(summary, batches, limits, model);
      before.Some? && size(before.value, batch) <= limits.context
    ensures BatchesFit(summary, batches + [batch], limits, size, model)
    ensures Flatten(batches + [batch]) == Flatten(batches) + batch
    ensures Rolled(summary, batches + [batch], limits, model) ==
      Continued(Rolled(summary, batches, limits, model).value, batch, limits, model)
  {
    var all := batches + [batch];
    assert all[..|batches|] == batches;
    forall i | 0 <= i < |all|
      ensures all[i] != [] && Rolled(summary, all[..i], limits, model).Some?
      ensures size(Rolled(summary, all[..i], limits, model).value, all[i]) <= limits.context
    {
      if i < |batches| {
        assert all[..i] == batches[..i] && all[i] == batches[i];
      }
    }
  }

  /** What has been summarized so far of some turns. */
  ghost predicate Progress(turns: seq<Turn>, summary: string, through: nat, limits: Limits, size: Size, model: Model,
                           batches: seq<seq<Turn>>, older: seq<Turn>, rolled: string, cursor: nat)
  {
    && BatchesFit(summary, batches, limits, size, model) && Flatten(batches) + older == turns
    && Rolled(summary, batches, limits, model) == Some(rolled) && cursor == Cursor(through, batches)
  }

  lemma ProgressOneMore(turns: seq<Turn>, summary: string, through: nat, limits: Limits, size: Size, model: Model,
                        batches: seq<seq<Turn>>, batch: seq<Turn>, rest: seq<Turn>, rolled: string, cursor: nat,
                        next: string)
    requires Progress(turns, summary, through, limits, size, model, batches, batch + rest, rolled, cursor)
    requires batch != [] && size(rolled, batch) <= limits.context
    requires Continued(rolled, batch, limits, model) == Some(next)
    ensures Progress(turns, summary, through, limits, size, model, batches + [batch], rest, next,
                     batch[|batch| - 1].sequence)
  {
    OneMoreBatch(summary, batches, batch, limits, size, model);
    CursorAfter(through, batches, batch);
    Regroup(Flatten(batches), batch, rest);
  }

  lemma ProgressAt(turns: seq<Turn>, summary: string, through: nat, limits: Limits, size: Size, model: Model,
                   batches: seq<seq<Turn>>, older: seq<Turn>, rolled: string, cursor: nat, n: nat, next: string)
    requires Progress(turns, summary, through, limits, size, model, batches, older, rolled, cursor)
    requires 0 < n <= |older| && size(rolled, older[..n]) <= limits.context
    requires Continued(rolled, older[..n], limits, model) == Some(next)
    ensures Progress(turns, summary, through, limits, size, model, batches + [older[..n]], older[n..], next,
                     older[n - 1].sequence)
  {
    TwoParts(older, n);
    ProgressOneMore(turns, summary, through, limits, size, model, batches, older[..n], older[n..], rolled, cursor,
                    next);
  }

  lemma CursorAfter(through: nat, batches: seq<seq<Turn>>, batch: seq<Turn>)
    requires batch != []
    ensures Cursor(through, batches + [batch]) == batch[|batch| - 1].sequence
  {
  }

  /** The first turns that are left, as many as fit the window together with the summary. */
  predicate LongestBatch(rolled: string, left: seq<Turn>, n: nat, limits: Limits, size: Size) {
    && 0 < n <= |left| && (forall k :: 0 < k <= n ==> size(rolled, left[..k]) <= limits.context)
    && (n < |left| ==> size(rolled, left[..n + 1]) > limits.context)
  }

  /** The turns from a batch on. */
  function FromBatch(batches: seq<seq<Turn>>, i: nat, left: seq<Turn>): seq<Turn>
    requires i < |batches|
  {
    batches[i] + Flatten(batches[i + 1..]) + left
  }

  ghost predicate LongestAt(summary: string, batches: seq<seq<Turn>>, i: nat, left: seq<Turn>, limits: Limits,
                            size: Size, model: Model)
    requires i < |batches|
  {
    var rolled := Rolled(summary, batches[..i], limits, model);
    rolled.Some? && LongestBatch(rolled.value, FromBatch(batches, i, left), |batches[i]|, limits, size)
  }

  /** No batch could have taken another turn. */
  ghost predicate AllLongest(summary: string, batches: seq<seq<Turn>>, left: seq<Turn>, limits: Limits, size: Size,
                             model: Model)
  {
    forall i :: 0 <= i < |batches| ==> LongestAt(summary, batches, i, left, limits, size, model)
  }

  lemma FromBatchOneMore(batches: seq<seq<Turn>>, i: nat, batch: seq<Turn>, rest: seq<Turn>)
    requires i < |batches|
    ensures FromBatch(batches + [batch], i, rest) == FromBatch(batches, i, batch + rest)
  {
    var tail := batches[i + 1..];
    assert (batches + [batch])[i + 1..] == tail + [batch];
    assert (tail + [batch])[..|tail|] == tail;
    assert Flatten(tail + [batch]) == Flatten(tail) + batch;
    assert batches[i] + (Flatten(tail) + batch) + rest == batches[i] + Flatten(tail) + (batch + rest);
  }

  lemma LongestOneMore(summary: string, batches: seq<seq<Turn>>, left: seq<Turn>, n: nat, limits: Limits, size: Size,
                       model: Model)
    requires Rolled(summary, batches, limits, model).Some? && AllLongest(summary, batches, left, limits, size, model)
    requires LongestBatch(Rolled(summary, batches, limits, model).value, left, n, limits, size)
    ensures AllLongest(summary, batches + [left[..n]], left[n..], limits, size, model)
  {
    var all := batches + [left[..n]];
    assert left[..n] + left[n..] == left;
    forall i | 0 <= i < |all| ensures LongestAt(summary, all, i, left[n..], limits, size, model) {
      if i < |batches| {
        assert all[..i] == batches[..i] && all[i] == batches[i];
        assert LongestAt(summary, batches, i, left, limits, size, model);
        FromBatchOneMore(batches, i, left[..n], left[n..]);
      } else {
        assert all[..i] == batches && all[i + 1..] == [] && FromBatch(all, i, left[n..]) == left;
      }
    }
  }

  /** The model gave nothing that can be a summary. */
  predicate Unusable(reply: Option<string>, limits: Limits) {
    reply.None? || Blank(reply.value) || |reply.value| > limits.summary
  }

  /** Why the loop stopped before the turns that are left. */
  ghost predicate WhyStopped(error: MemoryError, batches: seq<seq<Turn>>, rolled: string, left: seq<Turn>,
                             limits: Limits, size: Size, model: Model)
  {
    left != [] &&
    match error
    case TooMuchHistory => |batches| == 4
    case MessageTooLarge => |batches| < 4 && size(rolled, left[..1]) > limits.context
    case CallFailed =>
      |batches| < 4 &&
      exists n: nat :: LongestBatch(rolled, left, n, limits, size) && Unusable(model(rolled, left[..n]), limits)
    case _ => false
  }

  /** The loop that summarizes the older turns: all of them, or those before the ones it stopped at. */
  method SummarizeOlder(turns: seq<Turn>, summary: string, through: nat, limits: Limits, size: Size, model: Model)
    returns (r: Result<(string, nat), MemoryError>, ghost batches: seq<seq<Turn>>, ghost reached: string,
             ghost left: seq<Turn>)
    ensures |batches| <= 4 && AllLongest(summary, batches, left, limits, size, model)
    ensures Progress(turns, summary, through, limits, size, model, batches, left, reached, Cursor(through, batches))
    ensures r.Ok? ==> left == [] && r.value == (reached, Cursor(through, batches))
    ensures r.Err? ==> WhyStopped(r.error, batches, reached, left, limits, size, model)
  {
    batches := [];
    var older, rolled, cursor, count := turns, summary, through, 0;
    while older != []
      invariant count == |batches| <= 4
      invariant Progress(turns, summary, through, limits, size, model, batches, older, rolled, cursor)
      invariant AllLongest(summary, batches, older, limits, size, model)
      decreases |older|
    {
      if count >= 4 {
        return Err(TooMuchHistory), batches, rolled, older;
      }
      var n := NextBatch(older, rolled, limits, size);
      if n == 0 {
        return Err(MessageTooLarge), batches, rolled, older;
      }
      assert LongestBatch(rolled, older, n, limits, size);
      var next := Continued(rolled, older[..n], limits, model);
      if next.None? {
        assert Unusable(model(rolled, older[..n]), limits);
        return Err(CallFailed), batches, rolled, older;
      }
      ProgressAt(turns, summary, through, limits, size, model, batches, older, rolled, cursor, n, next.value);
      LongestOneMore(summary, batches, older, n, limits, size, model);
      batches := batches + [older[..n]];
      rolled, cursor, count, older := next.value, older[n - 1].sequence, count + 1, older[n..];
    }
    return Ok((rolled, cursor)), batches, rolled, older;
  }

  lemma TwoParts(turns: seq<Turn>, n: nat)
    requires n <= |turns|
    ensures turns == turns[..n] + turns[n..]
  {
  }

  lemma CompactedFrom(pending: seq<Turn>, summary: string, through: nat, limits: Limits, size: Size, model: Model,
                      batches: seq<seq<Turn>>, older: seq<Turn>, recent: seq<Turn>, rolled: string, cursor: nat)
    requires Progress(older, summary, through, limits, size, model, batches, [], rolled, cursor) && |batches| <= 4
    requires pending == older + recent && 0 < |recent| <= limits.turns && size(rolled, recent) <= limits.context
    ensures Compacted(pending, summary, through, limits, size, model, batches, Memory(rolled, cursor, recent))
  {
    assert Flatten(batches) + [] == Flatten(batches);
  }

  function Latest(pending: seq<Turn>, keep: nat): seq<Turn>
    requires keep <= |pending|
  {
    pending[|pending| - keep..]
  }

  /** The latest turns leave room for the longest summary there can be. */
  predicate LeavesRoom(pending: seq<Turn>, keep: nat, summary: string, limits: Limits, size: Size)
    requires keep <= |pending|
  {
    size(summary, Latest(pending, keep)) <= limits.context - (limits.summary - |summary|)
  }

  /** The latest turns are kept: at least one, otherwise as many as are allowed and leave room. */
  predicate MostKept(pending: seq<Turn>, keep: nat, summary: string, limits: Limits, size: Size) {
    && 0 < keep <= |pending| && keep <= limits.turns
    && (keep == 1 || LeavesRoom(pending, keep, summary, limits, size))
    && forall k :: keep < k <= |pending| && k <= limits.turns ==> !LeavesRoom(pending, k, summary, limits, size)
  }

  lemma KeptAreMost(pending: seq<Turn>, keep: nat, summary: string, limits: Limits, size: Size)
    requires 0 < keep <= |pending| && keep <= limits.turns
    requires keep == 1 || FitsWithSummary(pending, keep, summary, limits, size)
    requires forall k :: keep < k <= |pending| && k <= limits.turns ==>
      !FitsWithSummary(pending, k, summary, limits, size)
    ensures MostKept(pending, keep, summary, limits, size)
  {
    forall k | keep < k <= |pending| && k <= limits.turns ensures !LeavesRoom(pending, k, summary, limits, size) {
      assert !FitsWithSummary(pending, k, summary, limits, size);
    }
  }

  /** Where and why the preparation stopped, when it was not at the latest turn alone. */
  ghost predicate Stopped(error: MemoryError, pending: seq<Turn>, keep: nat, summary: string, through: nat,
                          batches: seq<seq<Turn>>, reached: string, left: seq<Turn>, limits: Limits, size: Size,
                          model: Model)
  {
    && MostKept(pending, keep, summary, limits, size) && AllLongest(summary, batches, left, limits, size, model)
    && Progress(pending[..|pending| - keep], summary, through, limits, size, model, batches, left, reached,
                Cursor(through, batches))
    && if error == StillTooLarge then left == [] && size(reached, Latest(pending, keep)) > limits.context
       else WhyStopped(error, batches, reached, left, limits, size, model)
  }

  /** What a successful preparation of pending turns is. */
  ghost predicate Condensed(pending: seq<Turn>, summary: string, through: nat, limits: Limits, size: Size, model: Model,
                            batches: seq<seq<Turn>>, m: Memory)
  {
    && Compacted(pending, summary, through, limits, size, model, batches, m)
    && MostKept(pending, |m.recent|, summary, limits, size)
    && AllLongest(summary, batches, [], limits, size, model)
  }

  /** `prepare_memory`, once there are pending turns of which the latest fits. `keep` turns were kept, and the older
      ones summarized up to those that are left. */
  method PreparePending(pending: seq<Turn>, summary: string, through: nat, limits: Limits, size: Size, model: Model)
    returns (r: Result<Memory, MemoryError>, ghost batches: seq<seq<Turn>>, ghost keep: nat, ghost reached: string,
             ghost left: seq<Turn>)
    requires limits.turns > 0 && pending != []
    ensures r.Ok? ==> Condensed(pending, summary, through, limits, size, model, batches, r.value)
    ensures r.Err? ==> r.error != LatestTooLarge
    ensures r.Err? ==>
      Stopped(r.error, pending, keep, summary, through, batches, reached, left, limits, size, model)
  {
    var kept := KeptTurns(pending, summary, limits, size);
    keep := kept;
    KeptAreMost(pending, kept, summary, limits, size);
    var older, recent := pending[..|pending| - kept], Latest(pending, kept);
    var rolled;
    rolled, batches, reached, left := SummarizeOlder(older, summary, through, limits, size, model);
    if rolled.Err? {
      return Err(rolled.error), batches, keep, reached, left;
    }
    if size(rolled.value.0, recent) > limits.context {
      return Err(StillTooLarge), batches, keep, reached, left;
    }
    TwoParts(pending, |pending| - kept);
    CompactedFrom(pending, summary, through, limits, size, model, batches, older, recent, rolled.value.0,
                  rolled.value.1);
    r := Ok(Memory(rolled.value.0, rolled.value.1, recent));
  }

  /** The latest turn does not fit the context even by itself. */
  predicate LatestIsTooLarge(pending: seq<Turn>, limits: Limits, size: Size) {
    pending != [] && size("", [pending[|pending| - 1]]) > limits.context
  }

  /** `prepare_memory`. */
  method PrepareMemory(history: seq<Turn>, summary: string, through: nat, limits: Limits, size: Size, model: Model)
    returns (r: Result<Option<Memory>, MemoryError>, ghost batches: seq<seq<Turn>>, ghost keep: nat,
             ghost reached: string, ghost left: seq<Turn>)
    requires limits.turns > 0
    ensures r == Ok(None) <==> Pending(history, through) == []
    ensures r == Err(LatestTooLarge) <==> LatestIsTooLarge(Pending(history, through), limits, size)
    ensures r.Ok? && r.value.Some? ==>
      Condensed(Pending(history, through), summary, through, limits, size, model, batches, r.value.value)
    ensures r.Err? && r.error != LatestTooLarge ==>
      Stopped(r.error, Pending(history, through), keep, summary, through, batches, reached, left, limits, size, model)
  {
    batches, keep, reached, left := [], 0, summary, [];
    var pending := Pending(history, through);
    if pending == [] {
      return Ok(None), batches, keep, reached, left;
    }
    if LatestIsTooLarge(pending, limits, size) {
      return Err(LatestTooLarge), batches, keep, reached, left;
    }
    var memory;
    memory, batches, keep, reached, left := PreparePending(pending, summary, through, limits, size, model);
    r := if memory.Ok? then Ok(Some(memory.value)) else Err(memory.error);
  }

  // ----- nothing is dropped ----------------------------------------------------------------------------

  predicate Increasing(turns: seq<Turn>) {
    forall i, j :: 0 <= i < j < |turns| ==> turns[i].sequence < turns[j].sequence
  }

  lemma {:induction false} PendingOfBoth(a: seq<Turn>, b: seq<Turn>, through: nat)
    ensures Pending(a + b, through) == Pending(a, through) + Pending(b, through)
  {
    if b == [] {
      assert a + b == a;
    } else {
      PendingOfBoth(a, b[..|b| - 1], through);
      assert (a + b)[..|a + b| - 1] == a + b[..|b| - 1];
    }
  }

  lemma {:induction false} NonePending(turns: seq<Turn>, through: nat)
    requires forall i :: 0 <= i < |turns| ==> turns[i].sequence <= through
    ensures Pending(turns, through) == []
  {
    if turns != [] {
      NonePending(turns[..|turns| - 1], through);
    }
  }

  lemma {:induction false} AllPending(turns: seq<Turn>, through: nat)
    requires forall i :: 0 <= i < |turns| ==> turns[i].sequence > through
    ensures Pending(turns, through) == turns
  {
    if turns != [] {
      AllPending(turns[..|turns| - 1], through);
      assert turns == turns[..|turns| - 1] + [turns[|turns| - 1]];
    }
  }

  lemma LastOfBatches(batches: seq<seq<Turn>>)
    requires batches != [] && batches[|batches| - 1] != []
    ensures Flatten(batches) != []
    ensures Flatten(batches)[|Flatten(batches)| - 1] == batches[|batches| - 1][|batches[|batches| - 1]| - 1]
  {
  }

  /** The new cursor has exactly the recent turns above it, and the summarized ones below or at it. */
  lemma CursorSplitsPending(pending: seq<Turn>, summary: string, through: nat, limits: Limits, size: Size, model: Model,
                            batches: seq<seq<Turn>>, m: Memory)
    requires Increasing(pending) && forall i :: 0 <= i < |pending| ==> pending[i].sequence > through
    requires Compacted(pending, summary, through, limits, size, model, batches, m)
    ensures through <= m.through && Pending(pending, m.through) == m.recent
    ensures Pending(Flatten(batches), m.through) == []
    ensures m.recent[|m.recent| - 1] == pending[|pending| - 1]
  {
    var done := Flatten(batches);
    if batches == [] {
      AllPending(pending, through);
      assert pending == m.recent;
    } else {
      LastOfBatches(batches);
      SplitAt(done, m.recent, m.through);
      assert pending[|done| - 1] == done[|done| - 1];
    }
  }

  lemma SplitAt(done: seq<Turn>, recent: seq<Turn>, through: nat)
    requires Increasing(done + recent) && done != [] && through == done[|done| - 1].sequence
    ensures Pending(done, through) == [] && Pending(done + recent, through) == recent
  {
    var all := done + recent;
    forall i | 0 <= i < |done| ensures done[i].sequence <= through {
      assert all[i] == done[i] && all[|done| - 1] == done[|done| - 1];
    }
    forall i | 0 <= i < |recent| ensures recent[i].sequence > through {
      assert all[|done| + i] == recent[i] && all[|done| - 1] == done[|done| - 1];
    }
    NonePending(done, through);
    AllPending(recent, through);
    PendingOfBoth(done, recent, through);
  }

  // ----- a whole conversation --------------------------------------------------------------------------

  /** All turns of a session, how far they are summarized, and what was handed to the model so far. */
  datatype Conversation = Conversation(turns: seq<Turn>, summary: string, through: nat, summarized: seq<Turn>)

  /** What was summarized, in order, followed by what is above the cursor, is the whole conversation. */
  predicate Whole(c: Conversation) {
    && Increasing(c.turns)
    && c.summarized + Pending(c.turns, c.through) == c.turns
    && (forall i :: 0 <= i < |c.summarized| ==> c.summarized[i].sequence <= c.through)
    && (c.turns == [] ==> c.through == 0)
    && (c.turns != [] ==> c.through <= c.turns[|c.turns| - 1].sequence)
  }

  datatype Step = Said(turn: Turn) | Prepared(batches: seq<seq<Turn>>, memory: Memory) | Failed

  ghost predicate Possible(c: Conversation, s: Step, limits: Limits, size: Size, model: Model) {
    match s
    case Said(turn) => turn.sequence > (if c.turns == [] then 0 else c.turns[|c.turns| - 1].sequence)
    case Prepared(batches, memory) =>
      Compacted(Pending(c.turns, c.through), c.summary, c.through, limits, size, model, batches, memory)
    case Failed => true
  }

  function Next(c: Conversation, s: Step): Conversation {
    match s
    case Said(turn) => c.(turns := c.turns + [turn])
    case Prepared(batches, m) => Conversation(c.turns, m.summary, m.through, c.summarized + Flatten(batches))
    case Failed => c
  }

  lemma {:induction false} PendingAbove(turns: seq<Turn>, through: nat)
    ensures forall i :: 0 <= i < |Pending(turns, through)| ==> Pending(turns, through)[i].sequence > through
  {
    if turns != [] {
      PendingAbove(turns[..|turns| - 1], through);
    }
  }

  lemma IncreasingOneMore(turns: seq<Turn>, turn: Turn)
    requires Increasing(turns) && (turns != [] ==> turns[|turns| - 1].sequence < turn.sequence)
    ensures Increasing(turns + [turn])
  {
  }

  lemma SaidIsPending(turns: seq<Turn>, through: nat, summarized: seq<Turn>, turn: Turn)
    requires summarized + Pending(turns, through) == turns && turn.sequence > through
    ensures summarized + Pending(turns + [turn], through) == turns + [turn]
  {
    PendingOfBoth(turns, [turn], through);
    AllPending([turn], through);
    Regroup(summarized, Pending(turns, through), [turn]);
  }

  lemma SaidKeepsWhole(c: Conversation, turn: Turn)
    requires Whole(c) && turn.sequence > (if c.turns == [] then 0 else c.turns[|c.turns| - 1].sequence)
    ensures Whole(c.(turns := c.turns + [turn]))
  {
    SaidIsPending(c.turns, c.through, c.summarized, turn);
    IncreasingOneMore(c.turns, turn);
    WholeAgain(c.turns + [turn], c.summary, c.through, c.summarized);
  }

  lemma PendingIncreases(c: Conversation)
    requires Whole(c)
    ensures Increasing(Pending(c.turns, c.through))
    ensures forall i :: 0 <= i < |Pending(c.turns, c.through)| ==> Pending(c.turns, c.through)[i].sequence > c.through
  {
    var pending := Pending(c.turns, c.through);
    PendingAbove(c.turns, c.through);
    assert forall i :: 0 <= i < |pending| ==> pending[i] == c.turns[|c.summarized| + i];
    forall i, j | 0 <= i < j < |pending| ensures pending[i].sequence < pending[j].sequence {
      assert c.turns[|c.summarized| + i].sequence < c.turns[|c.summarized| + j].sequence;
    }
  }

  lemma PreparedKeepsWhole(c: Conversation, batches: seq<seq<Turn>>, m: Memory, limits: Limits, size: Size,
                           model: Model)
    requires Whole(c)
    requires Compacted(Pending(c.turns, c.through), c.summary, c.through, limits, size, model, batches, m)
    ensures Whole(Next(c, Prepared(batches, m)))
  {
    PreparedSplits(c, batches, m, limits, size, model);
    SplitIsWhole(c, Flatten(batches), m);
  }

  lemma SplitIsWhole(c: Conversation, done: seq<Turn>, m: Memory)
    requires Increasing(c.turns) && c.turns != [] && m.recent != []
    requires m.recent[|m.recent| - 1] == c.turns[|c.turns| - 1]
    requires Pending(c.turns, m.through) == m.recent && c.summarized + done + m.recent == c.turns
    requires Pending(c.summarized, m.through) == [] && Pending(done, m.through) == []
    ensures Whole(Conversation(c.turns, m.summary, m.through, c.summarized + done))
  {
    AllBelow(c.summarized, done, m.through);
    CursorBelowLatest(c, m);
    WholeAgain(c.turns, m.summary, m.through, c.summarized + done);
  }

  lemma PreparedSplits(c: Conversation, batches: seq<seq<Turn>>, m: Memory, limits: Limits, size: Size, model: Model)
    requires Whole(c)
    requires Compacted(Pending(c.turns, c.through), c.summary, c.through, limits, size, model, batches, m)
    ensures c.turns != [] && m.recent != [] && m.recent[|m.recent| - 1] == c.turns[|c.turns| - 1]
    ensures Pending(c.turns, m.through) == m.recent && c.summarized + Flatten(batches) + m.recent == c.turns
    ensures Pending(c.summarized, m.through) == [] && Pending(Flatten(batches), m.through) == []
  {
    var pending := Pending(c.turns, c.through);
    PendingIncreases(c);
    CursorSplitsPending(pending, c.summary, c.through, limits, size, model, batches, m);
    NonePending(c.summarized, m.through);
    PendingOfBoth(c.summarized, pending, m.through);
    Regroup(c.summarized, Flatten(batches), m.recent);
    assert c.turns[|c.turns| - 1] == pending[|pending| - 1];
  }

  lemma Regroup(a: seq<Turn>, b: seq<Turn>, c: seq<Turn>)
    ensures a + (b + c) == (a + b) + c
  {
  }

  lemma WholeAgain(turns: seq<Turn>, summary: string, through: nat, summarized: seq<Turn>)
    requires Increasing(turns) && summarized + Pending(turns, through) == turns && turns != []
    requires forall i :: 0 <= i < |summarized| ==> summarized[i].sequence <= through
    requires through <= turns[|turns| - 1].sequence
    ensures Whole(Conversation(turns, summary, through, summarized))
  {
  }

  lemma AllBelow(before: seq<Turn>, done: seq<Turn>, through: nat)
    requires Pending(before, through) == [] && Pending(done, through) == []
    ensures forall i :: 0 <= i < |before + done| ==> (before + done)[i].sequence <= through
  {
    PendingOfBoth(before, done, through);
    forall i | 0 <= i < |before + done| ensures (before + done)[i].sequence <= through {
      SummarizedBelow(before + done, through, i);
    }
  }

  lemma CursorBelowLatest(c: Conversation, m: Memory)
    requires m.recent != [] && c.turns != [] && Pending(c.turns, m.through) == m.recent
    requires m.recent[|m.recent| - 1] == c.turns[|c.turns| - 1]
    ensures m.through <= c.turns[|c.turns| - 1].sequence
  {
    PendingAbove(c.turns, m.through);
  }

  lemma {:induction false} SummarizedBelow(turns: seq<Turn>, through: nat, i: nat)
    requires i < |turns| && Pending(turns, through) == []
    ensures turns[i].sequence <= through
  {
    if i < |turns| - 1 {
      SummarizedBelow(turns[..|turns| - 1], through, i);
    }
  }

  ghost predicate AllPossible(c: Conversation, steps: seq<Step>, limits: Limits, size: Size, model: Model)
    decreases |steps|
  {
    steps == [] ||
      (Possible(c, steps[0], limits, size, model) && AllPossible(Next(c, steps[0]), steps[1..], limits, size, model))
  }

  function After(c: Conversation, steps: seq<Step>): Conversation
    decreases |steps|
  {
    if steps == [] then c else After(Next(c, steps[0]), steps[1..])
  }

  /** However many turns are said, compacted or fail to be compacted: every turn was summarized exactly once, in
      order, or is still kept word for word. */
  lemma {:induction false} NothingIsDropped(c: Conversation, steps: seq<Step>, limits: Limits, size: Size, model: Model)
    requires Whole(c) && AllPossible(c, steps, limits, size, model)
    ensures Whole(After(c, steps))
    decreases |steps|
  {
    if steps != [] {
      match steps[0] {
        case Said(turn) => SaidKeepsWhole(c, turn);
        case Prepared(batches, m) => PreparedKeepsWhole(c, batches, m, limits, size, model);
        case Failed =>
      }
      NothingIsDropped(Next(c, steps[0]), steps[1..], limits, size, model);
    }
  }
}
