/** What every turn of the supervisor keeps, when it ends, and when it does not. */
module SupervisorSafety {
  import opened Outcomes
  import opened TaskPlanning
  import Text
  import opened Validation
  import opened CleanDrafts
  import opened Supervisor

  // ----- the invariant ---------------------------------------------------------------------------

  /** From now on `enter_node` denies every entry of this turn. */
  predicate Denied(settings: Settings, s: State, now: nat) {
    TimedOut(s, now) || s.budget.nodes >= settings.maxNodes
  }

  /** Paused because an entry was denied, with every later entry denied too. */
  predicate Stuck(settings: Settings, s: State, now: nat) {
    Denied(settings, s, now) && s.status == Paused && FailurePause(s.reason)
  }

  /** The conflicts and findings in the state are those of the draft in the state. */
  predicate Reported(settings: Settings, s: State) {
    s.work.report == settings.validate(s.work.draft)
  }

  predicate IsAwait(node: Node) {
    node.AwaitQuestion? || node.AwaitIntent? || node.AwaitRequirements? || node.AwaitValidation?
  }

  /** What holds whenever a node is about to run. */
  predicate Expected(settings: Settings, node: Node, s: State, now: nat) {
    match node
    case PrepareMemory =>
      !FailurePause(s.reason) && s.status == if s.action == ExtractNext then CollectingRequirements else Created
    case ClassifyIntent => s.status == Created
    case AnswerQuestion => s.status == Created
    case PauseIntent => s.status == Created
    case ExtractRequirements => s.status == Created || s.status == CollectingRequirements
    case PauseRequirements => s.status == CollectingRequirements
    case CompleteRequirements => s.status == CollectingRequirements
    case PlanTasks => s.status == Planning || Stuck(settings, s, now)
    case RetrieveEvidence => s.status == Retrieving
    case AnalyzeConflicts => s.status == Validating || Stuck(settings, s, now)
    case ValidateDraft => s.status == Validating || Stuck(settings, s, now)
    case TargetedRetrieval =>
      RetryGuard(s) && ((s.status == Validating && Reported(settings, s)) || Stuck(settings, s, now))
    case PauseValidation => (s.status == Validating && Reported(settings, s)) || Stuck(settings, s, now)
    case CompleteValidation =>
      (s.status == Validating && Reported(settings, s) && !IsBlocking(s)) || Stuck(settings, s, now)
    case AwaitValidation => s.status == Paused && (s.reason == ValidationBlocked || Stuck(settings, s, now))
    case AwaitQuestion => s.status == Paused && s.reason == QuestionAnswered
    case AwaitIntent => s.status == Paused && !FailurePause(s.reason)
    case AwaitRequirements => s.status == Paused && !FailurePause(s.reason)
    case End => false
  }

  /** None of the limits on what one turn may spend is exceeded. */
  predicate Affordable(settings: Settings, b: Budget) {
    b.nodes <= settings.maxNodes && b.retries <= settings.maxRepairs && b.tokens <= settings.maxTokens
  }

  predicate Sound(settings: Settings, t: Turn) {
    match t
    case Running(node, s, answered, now) =>
      Affordable(settings, s.budget) && (answered ==> IsAwait(node)) &&
      if answered then s.status == Paused else Expected(settings, node, s, now)
    case Waiting(node, s) => Affordable(settings, s.budget) && IsAwait(node) && s.status == Paused
    case Finished(s) =>
      s.budget.nodes <= settings.maxNodes &&
      (s.status == ReviewRequired ==> Reported(settings, s) && !IsBlocking(s)) &&
      !s.status.Approved? && !s.status.Rejected? && !s.status.Cancelled?
    case Crashed(_, _) => false
  }

  /** A new message loses no work and has a budget of its own; it answers the node that waits, and otherwise starts
      over. */
  lemma ContinueKeepsWork(t: Turn, deadline: nat, now: nat)
    requires !t.Crashed?
    ensures var next := ContinueTurn(t, deadline, now);
      && next.Running? && next.now == now && next.state.work == t.state.work
      && next.state.budget == Budget(0, 0, 0, deadline)
      && (next.answered <==> t.Waiting?)
      && (t.Waiting? ==> next.node == t.node && next.state.reason == t.state.reason)
      && (!t.Waiting? ==> next.node == PrepareMemory && next.state.status == Created && next.state.reason == NoReason)
  {
  }

  // ----- every node keeps the budget ---------------------------------------------------------------

  lemma {:induction false} MemoryStaysInBudget(settings: Settings, s: State, calls: seq<MemoryCall>)
    requires Affordable(settings, s.budget)
    ensures var e := MemoryCalls(settings, s, calls);
            && s.budget.nodes <= e.state.budget.nodes <= settings.maxNodes
            && (if e.allowed then Affordable(settings, e.state.budget) && e.state == s.(budget := e.state.budget)
                else e.state.status == Paused && FailurePause(e.state.reason))
    decreases |calls|
  {
    if calls != [] {
      var m := calls[0];
      var entry := Enter(settings, s, m.entered);
      if entry.allowed && m.fits {
        var spent := Account(settings, entry.state, m.call, m.accounted);
        if m.call.valid && spent.allowed {
          MemoryStaysInBudget(settings, spent.state, calls[1..]);
        }
      }
    }
  }

  lemma MemoryKeepsSound(settings: Settings, t: Turn, w: World)
    requires t.Running? && (t.node == PrepareMemory) && Sound(settings, t) && Later(t, w)
    ensures Sound(settings, Next(settings, t, w))
  {
    MemoryStaysInBudget(settings, t.state, w.memory);
  }

  lemma ClassifyIntentKeepsSound(settings: Settings, t: Turn, w: World)
    requires t.Running? && t.node == ClassifyIntent && Sound(settings, t) && Later(t, w)
    ensures Sound(settings, Next(settings, t, w))
  {
    var s := RunClassifyIntent(settings, t.state, w);
    assert Run(settings, t.node, t.state, w, t.answered) == Updated(s);
    Classifies(settings, t.state, w);
  }

  lemma Classifies(settings: Settings, s: State, w: World)
    requires Affordable(settings, s.budget) && s.status == Created
    ensures var after := RunClassifyIntent(settings, s, w);
      && after.budget.nodes <= settings.maxNodes
      && if FailurePause(after.reason) then after.status == Paused
         else after.status == Created && Affordable(settings, after.budget)
  {
  }

  lemma AnswerQuestionKeepsSound(settings: Settings, t: Turn, w: World)
    requires t.Running? && t.node == AnswerQuestion && Sound(settings, t) && Later(t, w)
    ensures Sound(settings, Next(settings, t, w))
  {
    var effect := RunAnswerQuestion(settings, t.state, w);
    assert Run(settings, t.node, t.state, w, t.answered) == effect;
    AnswerPauses(settings, t.state, w);
  }

  lemma AnswerPauses(settings: Settings, s: State, w: World)
    requires Affordable(settings, s.budget) && s.status == Created
    ensures var effect := RunAnswerQuestion(settings, s, w);
      && effect.Updated? && effect.state.status == Paused && effect.state.budget.nodes <= settings.maxNodes
      && (!FailurePause(effect.state.reason) ==>
            effect.state.reason == QuestionAnswered && Affordable(settings, effect.state.budget))
  {
  }

  lemma AwaitKeepsSound(settings: Settings, t: Turn, w: World)
    requires t.Running? && IsAwait(t.node) && Sound(settings, t) && Later(t, w)
    ensures Sound(settings, Next(settings, t, w))
  {
    match t.node
    case AwaitQuestion =>
    case AwaitIntent =>
      AnsweredMovesOn(settings, t.state, t.state.(clarify := false), w, t.answered, Created, OtherAction);
    case AwaitRequirements =>
      AnsweredMovesOn(settings, t.state, t.state, w, t.answered, CollectingRequirements, ExtractNext);
    case AwaitValidation =>
      var cleared := t.state.(work := t.state.work.(rounds := 0));
      AnsweredMovesOn(settings, t.state, cleared, w, t.answered, CollectingRequirements, ExtractNext);
  }

  lemma AnsweredMovesOn(settings: Settings, s: State, cleared: State, w: World, answered: bool, target: Status,
                        action: Action)
    requires s.status == Paused && Allowed(Paused, target) && Affordable(settings, s.budget)
    requires cleared.budget == s.budget
    ensures var effect := RunAwait(settings, s, cleared, w, answered, target, action);
      && !effect.Illegal?
      && (effect.Updated? && !FailurePause(effect.state.reason) ==>
            effect.state.status == target && effect.state.action == action)
      && (effect.Updated? && FailurePause(effect.state.reason) ==> effect.state.status == Paused)
      && (effect.Updated? ==> Affordable(settings, effect.state.budget))
  {
  }

  lemma PauseKeepsSound(settings: Settings, t: Turn, w: World)
    requires t.Running? && (t.node == PauseIntent || t.node == PauseRequirements || t.node == PauseValidation) &&
      Sound(settings, t) && Later(t, w)
    ensures Sound(settings, Next(settings, t, w))
  {
    var reason := PauseReason(t.node);
    PausesOrSticks(settings, t.state, w, reason);
    assert Run(settings, t.node, t.state, w, t.answered) == RunPause(settings, t.state, w, reason);
  }

  function PauseReason(node: Node): Reason {
    match node
    case PauseIntent => IntentClarification
    case PauseRequirements => RequirementsMissing
    case _ => ValidationBlocked
  }

  lemma PausesOrSticks(settings: Settings, s: State, w: World, reason: Reason)
    requires Affordable(settings, s.budget) && (s.status == Paused || Allowed(s.status, Paused))
    ensures var effect := RunPause(settings, s, w, reason);
      && effect.Updated? && effect.state.status == Paused && Affordable(settings, effect.state.budget)
      && (effect.state.reason == reason || Stuck(settings, effect.state, w.entered))
  {
    RefusedIsStuck(settings, s, w.entered);
  }

  lemma RefusedIsStuck(settings: Settings, s: State, now: nat)
    ensures var entry := Enter(settings, s, now);
      if entry.allowed then entry.state == s.(budget := s.budget.(nodes := s.budget.nodes + 1))
      else Stuck(settings, entry.state, now) && entry.state.budget == s.budget && entry.state.status == Paused
  {
  }

  lemma ExtractRequirementsKeepsSound(settings: Settings, t: Turn, w: World)
    requires t.Running? && t.node == ExtractRequirements && Sound(settings, t) && Later(t, w)
    ensures Sound(settings, Next(settings, t, w))
  {
    var effect := RunExtractRequirements(settings, t.state, w);
    assert Run(settings, t.node, t.state, w, t.answered) == effect;
    assert effect.Updated? && (effect.state.status == CollectingRequirements || FailurePause(effect.state.reason));
  }

  lemma CompleteRequirementsKeepsSound(settings: Settings, t: Turn, w: World)
    requires t.Running? && t.node == CompleteRequirements && Sound(settings, t) && Later(t, w)
    ensures Sound(settings, Next(settings, t, w))
  {
  }

  lemma PlanTasksKeepsSound(settings: Settings, t: Turn, w: World)
    requires t.Running? && t.node == PlanTasks && Sound(settings, t) && Later(t, w)
    ensures Sound(settings, Next(settings, t, w))
  {
    var effect := RunPlanTasks(settings, t.state, w);
    assert Run(settings, t.node, t.state, w, t.answered) == effect;
    assert effect.Updated? && effect.state.budget.nodes <= settings.maxNodes;
    assert if FailurePause(effect.state.reason) then effect.state.status == Paused
           else effect.state.status == Retrieving && Affordable(settings, effect.state.budget);
  }

  lemma RetrieveEvidenceKeepsSound(settings: Settings, t: Turn, w: World)
    requires t.Running? && t.node == RetrieveEvidence && Sound(settings, t) && Later(t, w)
    ensures Sound(settings, Next(settings, t, w))
  {
  }

  lemma AnalyzeKeepsSound(settings: Settings, t: Turn, w: World)
    requires t.Running? && (t.node == AnalyzeConflicts || t.node == TargetedRetrieval) && Sound(settings, t) &&
      Later(t, w)
    ensures Sound(settings, Next(settings, t, w))
  {
  }

  lemma ValidateKeepsSound(settings: Settings, t: Turn, w: World)
    requires t.Running? && (t.node == ValidateDraft) && Sound(settings, t) && Later(t, w)
    ensures Sound(settings, Next(settings, t, w))
  {
  }

  lemma CompleteKeepsSound(settings: Settings, t: Turn, w: World)
    requires t.Running? && (t.node == CompleteValidation) && Sound(settings, t) && Later(t, w)
    ensures Sound(settings, Next(settings, t, w))
  {
  }

  /** No reachable node raises on its transition, and every step keeps the invariant. */
  lemma StepKeepsSound(settings: Settings, t: Turn, w: World)
    requires t.Running? && Sound(settings, t) && Later(t, w)
    ensures Sound(settings, Next(settings, t, w))
  {
    match t.node
    case PrepareMemory => MemoryKeepsSound(settings, t, w);
    case ClassifyIntent => ClassifyIntentKeepsSound(settings, t, w);
    case AnswerQuestion => AnswerQuestionKeepsSound(settings, t, w);
    case PauseIntent => PauseKeepsSound(settings, t, w);
    case PauseRequirements => PauseKeepsSound(settings, t, w);
    case PauseValidation => PauseKeepsSound(settings, t, w);
    case ExtractRequirements => ExtractRequirementsKeepsSound(settings, t, w);
    case CompleteRequirements => CompleteRequirementsKeepsSound(settings, t, w);
    case PlanTasks => PlanTasksKeepsSound(settings, t, w);
    case RetrieveEvidence => RetrieveEvidenceKeepsSound(settings, t, w);
    case AnalyzeConflicts => AnalyzeKeepsSound(settings, t, w);
    case TargetedRetrieval => AnalyzeKeepsSound(settings, t, w);
    case ValidateDraft => ValidateKeepsSound(settings, t, w);
    case CompleteValidation => CompleteKeepsSound(settings, t, w);
    case _ => AwaitKeepsSound(settings, t, w);
  }

  lemma StartIsSound(settings: Settings, draft: Draft, deadline: nat, now: nat)
    ensures Sound(settings, StartTurn(draft, deadline, now))
  {
  }

  /** Whatever way the last turn ended, or was cut off, the next one starts soundly. */
  lemma ContinueIsSound(settings: Settings, t: Turn, deadline: nat, now: nat)
    requires Sound(settings, t)
    ensures Sound(settings, ContinueTurn(t, deadline, now))
  {
  }

  // ----- what a call costs -------------------------------------------------------------------------

  /** The node calls the model once, and what the call cost is known. An extraction that leaves the workspace is not
      accounted for. */
  predicate CallsModel(t: Turn, w: World)
    requires t.Running?
  {
    || t.node.ClassifyIntent? || t.node.PlanTasks?
    || (t.node.ExtractRequirements? && (w.call.valid ==> w.inScope))
    || (t.node.AnswerQuestion? && w.called)
  }

  /** Why a turn that ran out of time or spent more than it may is paused: the first limit in this order. */
  function Overrun(settings: Settings, s: State, b: Budget, now: nat): Option<Reason> {
    if TimedOut(s, now) then Some(TurnTimeout)
    else if b.retries > settings.maxRepairs then Some(RetryBudgetExceeded)
    else if b.tokens > settings.maxTokens then Some(TokenBudgetExceeded)
    else None
  }

  /** What becomes of a state whose node paid for a call. */
  predicate Settled(settings: Settings, before: State, w: World, after: State) {
    var b, over := before.budget, Overrun(settings, before, after.budget, w.accounted);
    && after.budget == Budget(b.nodes + 1, b.retries + w.call.retries, b.tokens + w.call.tokens, b.deadline)
    && (over.Some? ==> after.status == Paused && FailurePause(after.reason))
    && (over.Some? && w.call.valid ==> after.reason == over.value)
  }

  lemma AccountSettles(settings: Settings, s: State, w: World)
    ensures var entry := Enter(settings, s, w.entered);
      entry.allowed ==>
        var spent := Account(settings, entry.state, w.call, w.accounted);
        && spent.state.budget.nodes == s.budget.nodes + 1 && spent.state.budget.deadline == s.budget.deadline
        && spent.state.budget.retries == s.budget.retries + w.call.retries
        && spent.state.budget.tokens == s.budget.tokens + w.call.tokens
        && (spent.allowed <==> Overrun(settings, s, spent.state.budget, w.accounted).None?)
        && (!spent.allowed ==> spent.state.status == Paused)
        && (!spent.allowed ==>
              spent.state.reason == Overrun(settings, s, spent.state.budget, w.accounted).value)
  {
  }

  lemma ClassifyIntentSettles(settings: Settings, s: State, w: World)
    requires Enter(settings, s, w.entered).allowed
    ensures var after := RunClassifyIntent(settings, s, w);
      Settled(settings, s, w, after) && (!w.call.valid ==> after.status == Paused && FailurePause(after.reason))
  {
    AccountSettles(settings, s, w);
  }

  lemma PlanTasksSettles(settings: Settings, s: State, w: World)
    requires Enter(settings, s, w.entered).allowed && Allowed(s.status, Retrieving)
    ensures var effect := RunPlanTasks(settings, s, w);
      && effect.Updated? && Settled(settings, s, w, effect.state)
      && (!w.call.valid ==> effect.state.status == Paused && FailurePause(effect.state.reason))
  {
    AccountSettles(settings, s, w);
  }

  lemma ExtractRequirementsSettles(settings: Settings, s: State, w: World)
    requires Enter(settings, s, w.entered).allowed && Allowed(s.status, CollectingRequirements)
    requires w.call.valid ==> w.inScope
    ensures var effect := RunExtractRequirements(settings, s, w);
      && effect.Updated? && Settled(settings, s, w, effect.state)
      && (!w.call.valid ==> effect.state.status == Paused && FailurePause(effect.state.reason))
  {
    AccountSettles(settings, s, w);
  }

  lemma AnswerQuestionSettles(settings: Settings, s: State, w: World)
    requires Enter(settings, s, w.entered).allowed && w.called && Allowed(s.status, Paused)
    ensures var effect := RunAnswerQuestion(settings, s, w);
      effect.Updated? && Settled(settings, s, w, effect.state)
  {
    AccountSettles(settings, s, w);
  }

  /** A call is paid for in full, and a turn that it makes too long or too dear ends there, paused with that reason; an
      output that cannot be used ends it too, with a reason of its own. */
  lemma CallIsAccounted(settings: Settings, t: Turn, w: World)
    requires t.Running? && Sound(settings, t) && Later(t, w) && CallsModel(t, w) && !Refused(settings, t, w)
    ensures var n := Next(settings, t, w);
      && (n.Running? || n.Finished?) && Settled(settings, t.state, w, n.state)
      && (Overrun(settings, t.state, n.state.budget, w.accounted).Some? ==> n.Finished?)
      && (!w.call.valid && !t.node.AnswerQuestion? ==> n.Finished? && n.state.status == Paused)
  {
    if t.node.ClassifyIntent? {
      ClassifyIntentSettles(settings, t.state, w);
    } else if t.node.PlanTasks? {
      PlanTasksSettles(settings, t.state, w);
    } else if t.node.ExtractRequirements? {
      ExtractRequirementsSettles(settings, t.state, w);
    } else {
      AnswerQuestionSettles(settings, t.state, w);
    }
  }

  function Retries(calls: seq<MemoryCall>): nat {
    if calls == [] then 0 else calls[0].call.retries + Retries(calls[1..])
  }

  function Tokens(calls: seq<MemoryCall>): nat {
    if calls == [] then 0 else calls[0].call.tokens + Tokens(calls[1..])
  }

  function Paid(b: Budget, calls: seq<MemoryCall>): Budget {
    b.(nodes := b.nodes + |calls|, retries := b.retries + Retries(calls), tokens := b.tokens + Tokens(calls))
  }

  /** The first calls are paid for, none of them was made once a limit was exceeded, and the last one says why the turn
      is paused when it exceeds one. */
  predicate PaidUpTo(settings: Settings, s: State, calls: seq<MemoryCall>, made: nat, e: Entry) {
    && made <= |calls|
    && e.state.budget.retries == Paid(s.budget, calls[..made]).retries
    && e.state.budget.tokens == Paid(s.budget, calls[..made]).tokens
    && (forall j :: 0 <= j < made ==> Affordable(settings, Paid(s.budget, calls[..j])))
    && (made > 0 ==>
          var over := Overrun(settings, s, e.state.budget, calls[made - 1].accounted);
          over.Some? ==> !e.allowed && e.state.status == Paused && e.state.reason == over.value)
  }

  /** While memory is prepared, every call that is made is paid for; all of them are made unless the turn is paused. */
  lemma {:induction false} MemoryIsAccounted(settings: Settings, s: State, calls: seq<MemoryCall>) returns (made: nat)
    requires Affordable(settings, s.budget)
    ensures var e := MemoryCalls(settings, s, calls);
      PaidUpTo(settings, s, calls, made, e) && (e.allowed ==> made == |calls|)
    decreases |calls|
  {
    made := 0;
    if calls == [] {
      return;
    }
    var m := calls[0];
    var entry := Enter(settings, s, m.entered);
    if !entry.allowed || !m.fits {
      return;
    }
    var spent := Account(settings, entry.state, m.call, m.accounted);
    FirstIsPaid(settings, s, calls);
    made := 1;
    if !m.call.valid || !spent.allowed {
      return;
    }
    var more := MemoryIsAccounted(settings, spent.state, calls[1..]);
    made := 1 + more;
    OneMorePaid(settings, s, calls, spent.state, more, MemoryCalls(settings, spent.state, calls[1..]));
  }

  lemma FirstIsPaid(settings: Settings, s: State, calls: seq<MemoryCall>)
    requires calls != [] && Affordable(settings, s.budget)
    requires Enter(settings, s, calls[0].entered).allowed && calls[0].fits
    ensures
      var spent := Account(settings, Enter(settings, s, calls[0].entered).state, calls[0].call, calls[0].accounted);
      && (spent.allowed ==> spent.state == s.(budget := Paid(s.budget, calls[..1])))
      && (!spent.allowed ==> PaidUpTo(settings, s, calls, 1, spent))
      && (spent.allowed ==>
            Affordable(settings, spent.state.budget) &&
            PaidUpTo(settings, s, calls, 1, Entry(false, Pause(spent.state, MemoryOutputInvalid))) &&
            Overrun(settings, s, spent.state.budget, calls[0].accounted).None?)
  {
    OneCall(calls);
    assert calls[..0] == [];
  }

  lemma OneCall(calls: seq<MemoryCall>)
    requires calls != []
    ensures Retries(calls[..1]) == calls[0].call.retries && Tokens(calls[..1]) == calls[0].call.tokens
  {
    var one := calls[..1];
    assert one[1..] == [] && Retries(one[1..]) == 0 && Tokens(one[1..]) == 0;
  }

  lemma OneMorePaid(settings: Settings, s: State, calls: seq<MemoryCall>, first: State, more: nat, e: Entry)
    requires calls != [] && Affordable(settings, s.budget) && first == s.(budget := Paid(s.budget, calls[..1]))
    requires PaidUpTo(settings, first, calls[1..], more, e)
    requires more == 0 ==> Overrun(settings, s, first.budget, calls[0].accounted).None?
    ensures PaidUpTo(settings, s, calls, 1 + more, e)
  {
    PaidOneByOne(s.budget, calls, more);
    assert calls[..0] == [];
    forall j | 0 <= j < 1 + more ensures Affordable(settings, Paid(s.budget, calls[..j])) {
      if j > 0 {
        PaidOneByOne(s.budget, calls, j - 1);
        assert Affordable(settings, Paid(first.budget, calls[1..][..j - 1]));
      }
    }
    if more > 0 {
      assert calls[1..][more - 1] == calls[more];
    }
  }

  lemma PaidOneByOne(b: Budget, calls: seq<MemoryCall>, n: nat)
    requires n < |calls|
    ensures Paid(b, calls[..n + 1]) == Paid(Paid(b, calls[..1]), calls[1..][..n])
  {
    OneCall(calls);
    var front := calls[..n + 1];
    assert front[0] == calls[0] && front[1..] == calls[1..][..n];
  }

  // ----- where a turn goes next ----------------------------------------------------------------------

  /** What each status may be reached from. */
  predicate ReachedFrom(target: Status, current: Status) {
    match target
    case Created => current.Paused?
    case CollectingRequirements => current.Created? || current.CollectingRequirements? || current.Paused?
    case Planning => current.CollectingRequirements?
    case Retrieving => current.Planning?
    case Validating => current.CollectingRequirements? || current.Retrieving? || current.Validating?
    case ReviewRequired => current.Validating?
    case Paused =>
      current.Created? || current.CollectingRequirements? || current.Planning? || current.Retrieving? ||
      current.Validating?
    case Cancelled => current.CollectingRequirements? || current.Paused?
    case Failed =>
      current.Created? || current.CollectingRequirements? || current.Planning? || current.Retrieving? ||
      current.Validating? || current.Paused?
    case Approved => false
    case Rejected => false
  }

  /** The table of transitions, read from its targets: only a validated draft comes under review, and no node approves
      or rejects. */
  lemma AllowedIff(current: Status, target: Status)
    ensures Allowed(current, target) <==> ReachedFrom(target, current)
  {
  }

  /** A turn that is not paused goes where the model and the report send it. */
  predicate GoesOn(settings: Settings, t: Turn, w: World, next: Node)
    requires t.Running?
  {
    var report := settings.validate(t.state.work.draft);
    match t.node
    case PrepareMemory => next == if t.state.action == ExtractNext then ExtractRequirements else ClassifyIntent
    case ClassifyIntent =>
      next == if w.clarify then PauseIntent else if w.intent.ConfigureGoal? then ExtractRequirements else AnswerQuestion
    case ExtractRequirements => next == if w.questions then PauseRequirements else CompleteRequirements
    case CompleteRequirements => next == PlanTasks
    case PlanTasks => next == RetrieveEvidence
    case RetrieveEvidence => next == AnalyzeConflicts
    case AnalyzeConflicts => next == ValidateDraft
    case ValidateDraft =>
      next == if report.conflicts == {} && report.findings == {} then CompleteValidation
              else if report.conflicts == {} && report.targeted != map[] && t.state.work.rounds <= 1
              then TargetedRetrieval
              else PauseValidation
    case TargetedRetrieval => next == AnalyzeConflicts
    case AnswerQuestion => next == AwaitQuestion
    case PauseIntent => next == AwaitIntent
    case PauseRequirements => next == AwaitRequirements
    case PauseValidation => next == AwaitValidation
    case _ => IsAwait(t.node) && next == PrepareMemory
  }

  lemma StepGoesOn(settings: Settings, t: Turn, w: World)
    requires t.Running? && Sound(settings, t) && Later(t, w) && !Refused(settings, t, w)
    ensures var n := Next(settings, t, w); n.Running? ==> GoesOn(settings, t, w, n.node)
  {
    match t.node
    case PrepareMemory => MemoryGoesOn(settings, t, w);
    case ClassifyIntent => ClassifierDecides(settings, t.state, w);
    case ExtractRequirements => ExtractionDecides(settings, t.state, w);
    case ValidateDraft => ValidationDecides(settings, t, w);
    case _ =>
  }

  lemma MemoryGoesOn(settings: Settings, t: Turn, w: World)
    requires t.Running? && t.node.PrepareMemory? && Sound(settings, t)
    ensures var n := Next(settings, t, w); n.Running? ==> GoesOn(settings, t, w, n.node)
  {
    MemoryStaysInBudget(settings, t.state, w.memory);
  }

  lemma ClassifierDecides(settings: Settings, s: State, w: World)
    ensures var after := RunClassifyIntent(settings, s, w);
      FailurePause(after.reason) || (after.intent == w.intent && after.clarify == w.clarify)
  {
  }

  lemma ExtractionDecides(settings: Settings, s: State, w: World)
    ensures var effect := RunExtractRequirements(settings, s, w);
      effect.Updated? ==> FailurePause(effect.state.reason) || effect.state.openQuestions == w.questions
  {
  }

  lemma ValidationDecides(settings: Settings, t: Turn, w: World)
    requires t.Running? && t.node.ValidateDraft? && Enter(settings, t.state, w.entered).allowed
    ensures var n := Next(settings, t, w); n.Running? ==> GoesOn(settings, t, w, n.node)
  {
    var s := RunValidateDraft(settings, t.state, w);
    assert s.work.report == settings.validate(t.state.work.draft) && s.work.rounds == t.state.work.rounds;
  }

  /** What does not fit the context, or cannot be understood from it, ends the turn before the model is asked for
      more. */
  lemma UnclearEnds(settings: Settings, t: Turn, w: World)
    requires t.Running? && t.node.PrepareMemory? && Sound(settings, t) && Later(t, w)
    requires !w.contextFits || (w.ambiguous && t.state.action != ExtractNext)
    ensures var n := Next(settings, t, w);
      && n.Finished? && n.state.status == Paused
      && (MemoryCalls(settings, t.state, w.memory).allowed ==>
            n.state.reason == if w.contextFits then ContextReferenceInvalid else ContextLimitExceeded)
  {
    MemoryStaysInBudget(settings, t.state, w.memory);
  }

  /** Requirements or a plan from outside the workspace, and evidence that breaks its contract, end the turn. */
  lemma OutsideEnds(settings: Settings, t: Turn, w: World)
    requires t.Running? && Sound(settings, t) && Later(t, w) && !Refused(settings, t, w)
    requires
      || ((t.node.ExtractRequirements? || t.node.PlanTasks?) && w.call.valid && !w.inScope)
      || (t.node.RetrieveEvidence? && !w.collected)
    ensures var n := Next(settings, t, w);
      && n.Finished? && n.state.status == Paused && n.state.work == t.state.work
      && (n.state.reason == (if t.node.RetrieveEvidence? then KnowledgeContractInvalid else WorkspaceScopeInvalid) ||
          (t.node.PlanTasks? && Overrun(settings, t.state, n.state.budget, w.accounted) == Some(n.state.reason)))
  {
    if t.node.PlanTasks? {
      AccountSettles(settings, t.state, w);
      assert Run(settings, t.node, t.state, w, t.answered) == RunPlanTasks(settings, t.state, w);
    } else if t.node.ExtractRequirements? {
      assert Run(settings, t.node, t.state, w, t.answered) == RunExtractRequirements(settings, t.state, w);
    } else {
      assert Run(settings, t.node, t.state, w, t.answered) == RunRetrieveEvidence(settings, t.state, w);
    }
  }

  /** What ends a turn at a node that was entered: a clean validation, a plan that nobody can search evidence for, or
      something that went wrong, of which the turn gives the reason. */
  predicate EndsFor(settings: Settings, t: Turn, w: World, after: State)
    requires t.Running?
  {
    if t.node.CompleteValidation? then after.status == ReviewRequired && !IsBlocking(after)
    else if t.node.PlanTasks? && after.status == Retrieving then !settings.hasKnowledge
    else after.status == Paused && WentWrong(settings, t.node, t.state, w, after)
  }

  predicate WentWrong(settings: Settings, node: Node, s: State, w: World, after: State) {
    var over := Overrun(settings, s, after.budget, w.accounted) == Some(after.reason);
    match node
    case PrepareMemory =>
      || !MemoryCalls(settings, s, w.memory).allowed
      || (after.reason == ContextLimitExceeded && !w.contextFits)
      || (after.reason == ContextReferenceInvalid && w.ambiguous)
    case ClassifyIntent => over || (after.reason == IntentOutputInvalid && !w.call.valid)
    case ExtractRequirements =>
      || over
      || (after.reason == RequirementOutputInvalid && !w.call.valid)
      || (after.reason == WorkspaceScopeInvalid && !w.inScope)
    case PlanTasks =>
      || over
      || (after.reason == PlanningOutputInvalid && !w.call.valid)
      || (after.reason == WorkspaceScopeInvalid && !w.inScope)
    case AnswerQuestion => over && w.called
    case RetrieveEvidence => after.reason == KnowledgeContractInvalid && !w.collected
    case _ => false
  }

  lemma StepEndsFor(settings: Settings, t: Turn, w: World)
    requires t.Running? && Sound(settings, t) && Later(t, w) && !Refused(settings, t, w)
    ensures var n := Next(settings, t, w); n.Finished? ==> EndsFor(settings, t, w, n.state)
  {
    match t.node
    case PrepareMemory => MemoryStaysInBudget(settings, t.state, w.memory);
    case ClassifyIntent => ClassifierEndsFor(settings, t.state, w);
    case ExtractRequirements => ExtractionEndsFor(settings, t.state, w);
    case PlanTasks => PlanningEndsFor(settings, t.state, w);
    case AnswerQuestion => AnswerEndsFor(settings, t.state, w);
    case _ =>
  }

  lemma ClassifierEndsFor(settings: Settings, s: State, w: World)
    requires Enter(settings, s, w.entered).allowed
    ensures var after := RunClassifyIntent(settings, s, w);
      after.reason == NoReason || (after.status == Paused && WentWrong(settings, ClassifyIntent, s, w, after))
  {
    AccountSettles(settings, s, w);
  }

  lemma ExtractionEndsFor(settings: Settings, s: State, w: World)
    requires Enter(settings, s, w.entered).allowed && Allowed(s.status, CollectingRequirements)
    ensures var effect := RunExtractRequirements(settings, s, w);
      && effect.Updated?
      && (effect.state.reason == NoReason ||
          (effect.state.status == Paused && WentWrong(settings, ExtractRequirements, s, w, effect.state)))
  {
    AccountSettles(settings, s, w);
  }

  lemma PlanningEndsFor(settings: Settings, s: State, w: World)
    requires Enter(settings, s, w.entered).allowed && Allowed(s.status, Retrieving)
    ensures var effect := RunPlanTasks(settings, s, w);
      && effect.Updated?
      && ((effect.state.reason == NoReason && effect.state.status == Retrieving) ||
          (effect.state.status == Paused && WentWrong(settings, PlanTasks, s, w, effect.state)))
  {
    AccountSettles(settings, s, w);
  }

  lemma AnswerEndsFor(settings: Settings, s: State, w: World)
    requires Enter(settings, s, w.entered).allowed && Allowed(s.status, Paused)
    ensures var effect := RunAnswerQuestion(settings, s, w);
      && effect.Updated? && effect.state.status == Paused
      && (effect.state.reason == QuestionAnswered || WentWrong(settings, AnswerQuestion, s, w, effect.state))
  {
    AccountSettles(settings, s, w);
  }

  /** An awaiting node does nothing until the user answers. The answer then goes through memory again: to the
      requirements when they, or what validation found, were in question, and otherwise to the classifier. After
      validation, evidence may be searched for again. */
  lemma AnswerIsTaken(settings: Settings, t: Turn, w: World)
    requires t.Running? && IsAwait(t.node) && Sound(settings, t) && Later(t, w) && !Refused(settings, t, w)
    ensures var n, requirements := Next(settings, t, w), t.node.AwaitRequirements? || t.node.AwaitValidation?;
      if !t.answered then n == Waiting(t.node, t.state)
      else
        && n.Running? && n.node == PrepareMemory && n.state.reason == NoReason && !n.state.openQuestions
        && n.state.status == (if requirements then CollectingRequirements else Created)
        && (n.state.action == ExtractNext <==> requirements)
        && n.state.work == if t.node.AwaitValidation? then t.state.work.(rounds := 0) else t.state.work
  {
  }

  // ----- who changes the draft ---------------------------------------------------------------------

  /** Only the requirement node changes the context, only the planning node the tasks and their edges, and only the two
      retrieving nodes the evidence; a node that moves on has written all of what it was given. */
  predicate DraftFollows(node: Node, before: State, w: World, after: State) {
    var d, e := before.work.draft, after.work.draft;
    && e.context == (if node.ExtractRequirements? && after.status != Paused then w.context else d.context)
    && (if node.PlanTasks? && after.status != Paused
        then e.tasks == w.tasks && e.edges == w.edges && e.invalidated == w.invalidated
        else e.tasks == d.tasks && e.edges == d.edges && e.invalidated == d.invalidated)
    && (if (node.RetrieveEvidence? || node.TargetedRetrieval?) && after.status != Paused
        then e.evidence == w.evidence && e.bindings == w.bindings
        else e.evidence == d.evidence && e.bindings == d.bindings)
  }

  predicate Quiet(node: Node) {
    !node.ExtractRequirements? && !node.PlanTasks? && !node.RetrieveEvidence? && !node.TargetedRetrieval?
  }

  lemma StepChangesDraft(settings: Settings, t: Turn, w: World)
    requires t.Running? && Sound(settings, t) && Later(t, w)
    ensures var n := Next(settings, t, w); !n.Crashed? ==> DraftFollows(t.node, t.state, w, n.state)
  {
    if Quiet(t.node) {
      QuietKeepsDraft(settings, t, w);
    } else if t.node.ExtractRequirements? {
      ExtractionFollows(settings, t.state, w);
    } else if t.node.PlanTasks? {
      PlanFollows(settings, t.state, w);
    } else if t.node.RetrieveEvidence? {
      RetrievalFollows(settings, t.state, w);
    } else {
      TargetedFollows(settings, t, w);
    }
  }

  lemma TargetedFollows(settings: Settings, t: Turn, w: World)
    requires t.Running? && Sound(settings, t) && Later(t, w) && t.node.TargetedRetrieval?
    ensures var n := Next(settings, t, w); !n.Crashed? && DraftFollows(TargetedRetrieval, t.state, w, n.state)
  {
    RefusedIsStuck(settings, t.state, w.entered);
    assert Run(settings, t.node, t.state, w, t.answered) == Updated(RunTargetedRetrieval(settings, t.state, w));
  }

  lemma QuietKeepsDraft(settings: Settings, t: Turn, w: World)
    requires t.Running? && Sound(settings, t) && Quiet(t.node)
    ensures var n := Next(settings, t, w); !n.Crashed? ==> n.state.work.draft == t.state.work.draft
  {
    if t.node.PrepareMemory? {
      MemoryKeepsWork(settings, t.state, w.memory);
    } else if IsAwait(t.node) {
      AwaitKeepsDraft(settings, t, w);
    } else if t.node.AnalyzeConflicts? || t.node.ValidateDraft? || t.node.ClassifyIntent? {
      assert Run(settings, t.node, t.state, w, t.answered).Updated?;
    } else if t.node.PauseIntent? || t.node.PauseRequirements? || t.node.PauseValidation? {
      PausesKeepDraft(settings, t, w);
    } else if t.node.AnswerQuestion? {
      assert Run(settings, t.node, t.state, w, t.answered) == RunAnswerQuestion(settings, t.state, w);
    } else {
      TransitsKeepDraft(settings, t, w);
    }
  }

  lemma AwaitKeepsDraft(settings: Settings, t: Turn, w: World)
    requires t.Running? && IsAwait(t.node)
    ensures var n := Next(settings, t, w); !n.Crashed? ==> n.state.work.draft == t.state.work.draft
  {
  }

  lemma PausesKeepDraft(settings: Settings, t: Turn, w: World)
    requires t.Running? && (t.node.PauseIntent? || t.node.PauseRequirements? || t.node.PauseValidation?)
    ensures var n := Next(settings, t, w); !n.Crashed? ==> n.state.work.draft == t.state.work.draft
  {
    assert Run(settings, t.node, t.state, w, t.answered) == RunPause(settings, t.state, w, PauseReason(t.node));
  }

  lemma TransitsKeepDraft(settings: Settings, t: Turn, w: World)
    requires t.Running? && (t.node.CompleteRequirements? || t.node.CompleteValidation? || t.node.End?)
    ensures var n := Next(settings, t, w); !n.Crashed? ==> n.state.work.draft == t.state.work.draft
  {
  }

  lemma ExtractionFollows(settings: Settings, s: State, w: World)
    requires s.status == Created || s.status == CollectingRequirements
    ensures var effect := RunExtractRequirements(settings, s, w);
      effect.Updated? && DraftFollows(ExtractRequirements, s, w, effect.state)
  {
  }

  lemma PlanFollows(settings: Settings, s: State, w: World)
    requires s.status == Planning || (s.status == Paused && !Enter(settings, s, w.entered).allowed)
    ensures var effect := RunPlanTasks(settings, s, w);
      effect.Updated? && DraftFollows(PlanTasks, s, w, effect.state)
  {
  }

  lemma RetrievalFollows(settings: Settings, s: State, w: World)
    requires s.status == Retrieving
    ensures var effect := RunRetrieveEvidence(settings, s, w);
      effect.Updated? && DraftFollows(RetrieveEvidence, s, w, effect.state)
  {
  }

  // ----- whole turns and whole sessions ------------------------------------------------------------

  /** A monotone clock over the remaining steps of a turn. */
  predicate Monotone(now: nat, worlds: seq<World>)
    decreases |worlds|
  {
    worlds == [] || (now <= worlds[0].entered <= worlds[0].accounted && Monotone(worlds[0].accounted, worlds[1..]))
  }

  /** The turn after as many of the steps as it takes. */
  function After(settings: Settings, t: Turn, worlds: seq<World>): Turn
    decreases |worlds|
  {
    if !t.Running? || worlds == [] then t else After(settings, Next(settings, t, worlds[0]), worlds[1..])
  }

  lemma {:induction false} TurnKeepsSound(settings: Settings, t: Turn, worlds: seq<World>)
    requires Sound(settings, t)
    requires t.Running? ==> Monotone(t.now, worlds)
    ensures Sound(settings, After(settings, t, worlds))
    decreases |worlds|
  {
    if t.Running? && worlds != [] {
      StepKeepsSound(settings, t, worlds[0]);
      TurnKeepsSound(settings, Next(settings, t, worlds[0]), worlds[1..]);
    }
  }

  /** One user message: when its turn starts and must end, and what happens while it runs. */
  datatype Message = Message(deadline: nat, now: nat, worlds: seq<World>)

  /** A session: one turn for every message, whether the turn before it ended or was cut off while it ran. */
  function Session(settings: Settings, t: Turn, messages: seq<Message>): Turn
    decreases |messages|
  {
    if t.Crashed? || messages == [] then t
    else
      var m := messages[0];
      Session(settings, After(settings, ContinueTurn(t, m.deadline, m.now), m.worlds), messages[1..])
  }

  /** For every session there can be, no node raises, no node runs once the turn has spent more nodes, repairs or
      tokens than it may, and a draft that is offered for review has just been validated without a conflict or a
      blocking finding. */
  lemma {:induction false} SessionKeepsSound(settings: Settings, t: Turn, messages: seq<Message>)
    requires Sound(settings, t)
    requires forall m :: m in messages ==> Monotone(m.now, m.worlds)
    ensures Sound(settings, Session(settings, t, messages))
    decreases |messages|
  {
    if messages != [] {
      var m := messages[0];
      assert m in messages;
      ContinueIsSound(settings, t, m.deadline, m.now);
      var next := ContinueTurn(t, m.deadline, m.now);
      TurnKeepsSound(settings, next, m.worlds);
      SessionKeepsSound(settings, After(settings, next, m.worlds), messages[1..]);
    }
  }

  /** The same, from the very first message. */
  lemma WholeSessionIsSound(settings: Settings, draft: Draft, first: Message, messages: seq<Message>)
    requires forall m :: m in [first] + messages ==> Monotone(m.now, m.worlds)
    ensures var t := After(settings, StartTurn(draft, first.deadline, first.now), first.worlds);
      Sound(settings, Session(settings, t, messages))
  {
    assert first in [first] + messages;
    StartIsSound(settings, draft, first.deadline, first.now);
    TurnKeepsSound(settings, StartTurn(draft, first.deadline, first.now), first.worlds);
    SessionKeepsSound(settings, After(settings, StartTurn(draft, first.deadline, first.now), first.worlds), messages);
  }

  // ----- a turn ends ---------------------------------------------------------------------------------

  /** The node about to run asks the budget, and is refused. */
  predicate Refused(settings: Settings, t: Turn, w: World)
    requires t.Running?
  {
    !t.node.PrepareMemory? && !t.node.AwaitQuestion? && !Enter(settings, t.state, w.entered).allowed
  }

  function Position(node: Node): nat {
    match node
    case PrepareMemory => 14
    case ClassifyIntent => 13
    case AnswerQuestion => 12
    case PauseIntent => 12
    case AwaitQuestion => 11
    case AwaitIntent => 11
    case ExtractRequirements => 11
    case PauseRequirements => 10
    case CompleteRequirements => 10
    case AwaitRequirements => 9
    case PlanTasks => 9
    case RetrieveEvidence => 8
    case AnalyzeConflicts => 7
    case ValidateDraft => 6
    case TargetedRetrieval => 5
    case PauseValidation => 5
    case CompleteValidation => 5
    case AwaitValidation => 4
    case End => 0
  }

  /** Whether an answer is still to be taken, then the retrieval rounds left, then the node. */
  function Measure(t: Turn): nat
    requires t.Running?
  {
    (if t.answered then 60 else 0) + 20 * (if t.state.work.rounds < 2 then 2 - t.state.work.rounds else 0) +
      Position(t.node)
  }

  lemma MemoryKeepsWork(settings: Settings, s: State, calls: seq<MemoryCall>)
    requires s.budget.nodes <= settings.maxNodes
    ensures MemoryCalls(settings, s, calls).state.work == s.work
    decreases |calls|
  {
    if calls != [] {
      var m := calls[0];
      var entry := Enter(settings, s, m.entered);
      if entry.allowed && m.fits {
        var spent := Account(settings, entry.state, m.call, m.accounted);
        if m.call.valid && spent.allowed {
          MemoryKeepsWork(settings, spent.state, calls[1..]);
        }
      }
    }
  }

  lemma MemoryDecreases(settings: Settings, t: Turn, w: World)
    requires t.Running? && Sound(settings, t) && Later(t, w) && t.node.PrepareMemory?
    ensures var n := Next(settings, t, w); n.Running? ==> Measure(n) < Measure(t)
  {
    MemoryStaysInBudget(settings, t.state, w.memory);
    MemoryKeepsWork(settings, t.state, w.memory);
  }

  lemma AwaitDecreases(settings: Settings, t: Turn, w: World)
    requires t.Running? && Sound(settings, t) && Later(t, w) && !Refused(settings, t, w) && IsAwait(t.node)
    ensures var n := Next(settings, t, w); n.Running? ==> Measure(n) < Measure(t)
  {
  }

  lemma RetryDecreases(settings: Settings, t: Turn, w: World)
    requires t.Running? && Sound(settings, t) && Later(t, w) && !Refused(settings, t, w)
    requires t.node.AnalyzeConflicts? || t.node.ValidateDraft? || t.node.TargetedRetrieval?
    ensures var n := Next(settings, t, w); n.Running? ==> Measure(n) < Measure(t)
  {
  }

  lemma CollectingDecreases(settings: Settings, t: Turn, w: World)
    requires t.Running? && Sound(settings, t) && Later(t, w) && !Refused(settings, t, w)
    requires t.node.ClassifyIntent? || t.node.AnswerQuestion? || t.node.PauseIntent? || t.node.ExtractRequirements? ||
             t.node.PauseRequirements?
    ensures var n := Next(settings, t, w); n.Running? ==> Measure(n) < Measure(t)
  {
    assert !t.answered;
    match Run(settings, t.node, t.state, w, t.answered)
    case Updated(s) => assert s.work.rounds == t.state.work.rounds;
    case _ =>
  }

  lemma PlanningDecreases(settings: Settings, t: Turn, w: World)
    requires t.Running? && Sound(settings, t) && Later(t, w) && !Refused(settings, t, w)
    requires t.node.CompleteRequirements? || t.node.PlanTasks? || t.node.RetrieveEvidence? || t.node.PauseValidation? ||
             t.node.CompleteValidation?
    ensures var n := Next(settings, t, w); n.Running? ==> Measure(n) < Measure(t)
  {
    assert !t.answered;
    match Run(settings, t.node, t.state, w, t.answered)
    case Updated(s) => assert s.work.rounds == t.state.work.rounds;
    case _ =>
  }

  /** Every step that is not refused brings the turn closer to its end. */
  lemma StepDecreases(settings: Settings, t: Turn, w: World)
    requires t.Running? && Sound(settings, t) && Later(t, w) && !Refused(settings, t, w)
    ensures var n := Next(settings, t, w); n.Running? ==> Measure(n) < Measure(t)
  {
    if t.node.PrepareMemory? {
      MemoryDecreases(settings, t, w);
    } else if IsAwait(t.node) {
      AwaitDecreases(settings, t, w);
    } else if t.node.AnalyzeConflicts? || t.node.ValidateDraft? || t.node.TargetedRetrieval? {
      RetryDecreases(settings, t, w);
    } else if t.node.ClassifyIntent? || t.node.AnswerQuestion? || t.node.PauseIntent? ||
              t.node.ExtractRequirements? || t.node.PauseRequirements? {
      CollectingDecreases(settings, t, w);
    } else {
      PlanningDecreases(settings, t, w);
    }
  }

  /** A refusal pauses the turn, changes nothing else, and makes the budget refuse every later entry. */
  lemma RefusalSticks(settings: Settings, t: Turn, w: World)
    requires t.Running? && Sound(settings, t) && Later(t, w) && Refused(settings, t, w)
    ensures var n := Next(settings, t, w);
      && (n.Finished? || (n.Running? && !n.answered && Stuck(settings, n.state, n.now)))
      && n.state.status == Paused
      && n.state.work == t.state.work && n.state.budget == t.state.budget
  {
  }

  /** Where a paused turn goes round: these routes do not look at why it paused. */
  predicate OnRetryLoop(t: Turn)
    requires t.Running?
  {
    (t.node.AnalyzeConflicts? || t.node.ValidateDraft? || t.node.TargetedRetrieval?) && RetryGuard(t.state)
  }

  /** The most nodes a refused turn still passes through, when it does not go round. */
  function StepsLeft(node: Node): nat {
    match node
    case AnalyzeConflicts => 4
    case ValidateDraft => 3
    case PauseValidation => 2
    case PlanTasks => 1
    case CompleteValidation => 1
    case AwaitValidation => 1
    case _ => 0
  }

  lemma StuckStep(settings: Settings, t: Turn, w: World)
    requires t.Running? && Sound(settings, t) && Later(t, w) && !t.answered && Stuck(settings, t.state, t.now)
    ensures Refused(settings, t, w)
    ensures var n := Next(settings, t, w);
      && (OnRetryLoop(t) ==> n.Running? && OnRetryLoop(n))
      && (!OnRetryLoop(t) && n.Running? ==> !OnRetryLoop(n) && StepsLeft(n.node) < StepsLeft(t.node))
      && (!OnRetryLoop(t) ==> StepsLeft(t.node) > 0)
  {
  }

  /** After a refusal no node of the turn does anything, and the turn ends exactly when the retry guard is
      false where the turn was refused: otherwise it goes round the three retry nodes for ever. */
  lemma {:induction false} RefusedTurnEndsIff(settings: Settings, t: Turn, worlds: seq<World>)
    requires t.Running? && Sound(settings, t) && !t.answered && Stuck(settings, t.state, t.now)
    requires Monotone(t.now, worlds)
    ensures var e := After(settings, t, worlds);
      && (e.Running? || e.Finished?)
      && e.state.status == Paused && e.state.work == t.state.work && e.state.budget == t.state.budget
      && (OnRetryLoop(t) ==> e.Running? && OnRetryLoop(e))
      && (|worlds| >= StepsLeft(t.node) ==> (e.Finished? <==> !OnRetryLoop(t)))
    decreases |worlds|
  {
    if worlds == [] {
      if !OnRetryLoop(t) {
        var w := World(t.now, t.now, Call(0, 0, true), false, [], true, false, AtomicQuery, false, false, true, true,
                       [], [], [], map[], [], []);
        StuckStep(settings, t, w);
      }
    } else {
      StuckStep(settings, t, worlds[0]);
      RefusalSticks(settings, t, worlds[0]);
      StepKeepsSound(settings, t, worlds[0]);
      var n := Next(settings, t, worlds[0]);
      if n.Running? {
        RefusedTurnEndsIff(settings, n, worlds[1..]);
      }
    }
  }

  /** Every turn ends, at the end or waiting for the user, within a number of steps known when it starts:
      the only exception is a refusal inside the retry loop. */
  lemma {:induction false} TurnEndsUnlessRefusedInRetry(settings: Settings, t: Turn, worlds: seq<World>)
    requires t.Running? && Sound(settings, t)
    requires Monotone(t.now, worlds)
    requires |worlds| >= Measure(t) + 6
    ensures var e := After(settings, t, worlds);
      e.Finished? || e.Waiting? || (e.Running? && OnRetryLoop(e) && Stuck(settings, e.state, e.now))
    decreases |worlds|
  {
    var n := Next(settings, t, worlds[0]);
    StepKeepsSound(settings, t, worlds[0]);
    if Refused(settings, t, worlds[0]) {
      RefusalSticks(settings, t, worlds[0]);
      if n.Running? {
        RefusedTurnEndsIff(settings, n, worlds[1..]);
        StaysStuck(settings, n, worlds[1..]);
      }
    } else if n.Running? {
      StepDecreases(settings, t, worlds[0]);
      TurnEndsUnlessRefusedInRetry(settings, n, worlds[1..]);
    }
  }

  lemma {:induction false} StaysStuck(settings: Settings, t: Turn, worlds: seq<World>)
    requires t.Running? && Sound(settings, t) && !t.answered && Stuck(settings, t.state, t.now)
    requires Monotone(t.now, worlds)
    ensures var e := After(settings, t, worlds); e.Running? ==> Stuck(settings, e.state, e.now)
    decreases |worlds|
  {
    if worlds != [] {
      StuckStep(settings, t, worlds[0]);
      RefusalSticks(settings, t, worlds[0]);
      StepKeepsSound(settings, t, worlds[0]);
      var n := Next(settings, t, worlds[0]);
      if n.Running? {
        StaysStuck(settings, n, worlds[1..]);
      }
    }
  }

  // ----- the refused retry is reached ------------------------------------------------------------------

  /** A message that asks for a configuration, while every call succeeds at once. */
  predicate Smooth(w: World) {
    && w.entered == w.accounted == 0 && w.call == Call(0, 0, true) && w.memory == [] && w.contextFits && !w.ambiguous
    && w.intent == ConfigureGoal && !w.clarify && !w.questions && w.inScope && w.collected
  }

  /** The searches found nothing for the one task that was planned. */
  predicate NothingFound(w: World) {
    && |w.tasks| == 1 && |w.bindings| == 1
    && w.bindings[0].taskId == w.tasks[0].taskId
    && w.bindings[0].status == Unsupported && w.bindings[0].evidenceIds == []
    && exists q :: q in w.bindings[0].queries && !Text.Blank(q.requirement)
  }

  /** The same world at every step. */
  function Smoothly(settings: Settings, draft: Draft, w: World, n: nat): Turn {
    After(settings, StartTurn(draft, 0, 0), seq(n, _ => w))
  }

  lemma {:induction false} AfterOneMore(settings: Settings, t: Turn, w: World, n: nat)
    requires After(settings, t, seq(n, _ => w)).Running?
    ensures After(settings, t, seq(n + 1, _ => w)) == Next(settings, After(settings, t, seq(n, _ => w)), w)
    decreases n
  {
    var shorter, longer := seq(n, _ => w), seq(n + 1, _ => w);
    if n == 0 {
      assert longer[1..] == [];
    } else {
      assert shorter[1..] == seq(n - 1, _ => w) && longer[1..] == seq(n, _ => w);
      AfterOneMore(settings, Next(settings, t, w), w, n - 1);
    }
  }

  lemma SmoothRequirements(settings: Settings, draft: Draft, w: World)
    requires settings.maxNodes == 7 && Smooth(w)
    ensures var t := Smoothly(settings, draft, w, 3);
      t.Running? && t.node == CompleteRequirements && t.state.budget == Budget(2, 0, 0, 0) && !t.answered &&
      t.state.status == CollectingRequirements && t.state.work.rounds == 0 && t.state.work.draft.context == w.context
  {
    SmoothStart(settings, draft, w);
    AfterOneMore(settings, StartTurn(draft, 0, 0), w, 1);
    AfterOneMore(settings, StartTurn(draft, 0, 0), w, 2);
  }

  lemma SmoothStart(settings: Settings, draft: Draft, w: World)
    requires settings.maxNodes == 7 && Smooth(w)
    ensures var t := Smoothly(settings, draft, w, 1);
      t.Running? && t.node == ClassifyIntent && t.state.budget == Budget(0, 0, 0, 0) && !t.answered &&
      t.state.status == Created && t.state.work.rounds == 0
  {
    var t := StartTurn(draft, 0, 0);
    assert Smoothly(settings, draft, w, 0) == t;
    AfterOneMore(settings, t, w, 0);
  }

  function Collected(w: World): Draft {
    Draft(w.tasks, w.edges, w.evidence, w.bindings, w.context, w.invalidated)
  }

  lemma SmoothPlanning(settings: Settings, draft: Draft, w: World)
    requires settings.maxNodes == 7 && Smooth(w)
    ensures var t := Smoothly(settings, draft, w, 4);
      t.Running? && t.node == PlanTasks && t.state.budget == Budget(3, 0, 0, 0) && !t.answered &&
      t.state.status == Planning && t.state.work.rounds == 0 && t.state.work.draft.context == w.context
  {
    SmoothRequirements(settings, draft, w);
    AfterOneMore(settings, StartTurn(draft, 0, 0), w, 3);
  }

  lemma SmoothPlan(settings: Settings, draft: Draft, w: World)
    requires settings.maxNodes == 7 && settings.hasKnowledge && Smooth(w)
    ensures var t := Smoothly(settings, draft, w, 5);
      t.Running? && t.node == RetrieveEvidence && t.state.budget == Budget(4, 0, 0, 0) && !t.answered &&
      t.state.status == Retrieving && t.state.work.rounds == 0 && t.state.work.draft.context == w.context &&
      t.state.work.draft.tasks == w.tasks && t.state.work.draft.edges == w.edges &&
      t.state.work.draft.invalidated == w.invalidated
  {
    SmoothPlanning(settings, draft, w);
    AfterOneMore(settings, StartTurn(draft, 0, 0), w, 4);
  }

  lemma SmoothRetrieval(settings: Settings, draft: Draft, w: World)
    requires settings.maxNodes == 7 && settings.hasKnowledge && Smooth(w)
    ensures var t := Smoothly(settings, draft, w, 6);
      t.Running? && t.node == AnalyzeConflicts && t.state.budget == Budget(5, 0, 0, 0) && !t.answered &&
      t.state.work.rounds == 0 && t.state.work.draft == Collected(w)
  {
    SmoothPlan(settings, draft, w);
    AfterOneMore(settings, StartTurn(draft, 0, 0), w, 5);
  }

  /** The rules of the validation service send such a draft to a retry: something can be searched for again. */
  lemma NothingFoundIsRetried(w: World, isCommand: string -> bool)
    requires NothingFound(w)
    ensures var r := ReportOf(Collected(w), isCommand);
      r.findings != {} && r.conflicts == {} && r.targeted != map[]
  {
    var d, b, id := Collected(w), w.bindings[0], w.tasks[0].taskId;
    OneTaskOneBinding(w);
    assert !CleanTask(d, id);
    FindingsEmptyIff(d, isCommand);
    assert Scoped(b.evidenceIds, EvidenceById(d.evidence)) == {};
    assert forall t :: t in TasksById(d.tasks) ==> TaskAgrees(d, t);
    ConflictsEmptyIff(d);
    var q :| q in b.queries && !Text.Blank(q.requirement);
    assert Text.Strip(q.requirement) in Available(b);
    assert id in Targeted(BindingsByTask(d.bindings));
  }

  lemma OneTaskOneBinding(w: World)
    requires NothingFound(w)
    ensures TasksById(w.tasks) == map[w.tasks[0].taskId := w.tasks[0]]
    ensures BindingsByTask(w.bindings) == map[w.tasks[0].taskId := w.bindings[0]]
  {
    assert w.tasks[..0] == [] && w.bindings[..0] == [];
  }

  lemma SmoothValidation(settings: Settings, draft: Draft, w: World, r: Report)
    requires settings.maxNodes == 7 && settings.hasKnowledge && Smooth(w) && r == settings.validate(Collected(w))
    requires r.findings != {} && r.conflicts == {} && r.targeted != map[]
    ensures var t := Smoothly(settings, draft, w, 8);
      t.Running? && t.node == TargetedRetrieval && t.state.budget == Budget(7, 0, 0, 0) && RetryGuard(t.state)
  {
    SmoothRetrieval(settings, draft, w);
    AfterOneMore(settings, StartTurn(draft, 0, 0), w, 6);
    AfterOneMore(settings, StartTurn(draft, 0, 0), w, 7);
  }

  lemma RefusedOnce(settings: Settings, t: Turn, w: World)
    requires settings.maxNodes == 7 && Smooth(w)
    requires t.Running? && t.node == TargetedRetrieval && t.state.budget == Budget(7, 0, 0, 0) && RetryGuard(t.state)
    ensures var e := Next(settings, t, w); e.Running? && OnRetryLoop(e) && Stuck(settings, e.state, e.now)
  {
  }

  /** With a budget of seven nodes, the first turn of a session for whose one task nothing was found reaches the
      retry loop just as the budget runs out. */
  lemma RefusedRetryIsReached(settings: Settings, draft: Draft, w: World, isCommand: string -> bool)
    requires settings.maxNodes == 7 && settings.hasKnowledge
    requires forall d :: settings.validate(d) == ReportOf(d, isCommand)
    requires Smooth(w) && NothingFound(w)
    ensures var e := Smoothly(settings, draft, w, 9);
      e.Running? && OnRetryLoop(e) && Stuck(settings, e.state, e.now)
  {
    NothingFoundIsRetried(w, isCommand);
    SmoothValidation(settings, draft, w, settings.validate(Collected(w)));
    RefusedOnce(settings, Smoothly(settings, draft, w, 8), w);
    AfterOneMore(settings, StartTurn(draft, 0, 0), w, 8);
  }

  /** The planner planned one task, and its search for "r" found nothing. */
  function NothingFoundFor(task: Task): World {
    World(0, 0, Call(0, 0, true), false, [], true, false, ConfigureGoal, false, false, true, true,
          [task], [], [], map[], [],
          [Binding(task.taskId, [Query("r", "q")], [], Unsupported, ["insufficient_evidence:r"])])
  }

  const EMPTY := Draft([], [], [], [], map[], [])

  /** A concrete session that reaches the loop. */
  lemma RefusedRetryHappens(task: Task, isCommand: string -> bool)
    ensures var settings := Settings(7, 0, 0, true, d => ReportOf(d, isCommand));
      var e := Smoothly(settings, EMPTY, NothingFoundFor(task), 9);
      e.Running? && OnRetryLoop(e) && Stuck(settings, e.state, e.now)
  {
    var w := NothingFoundFor(task);
    assert w.bindings[0].queries[0] in w.bindings[0].queries && !Text.IsSpace("r"[0]);
    RefusedRetryIsReached(Settings(7, 0, 0, true, d => ReportOf(d, isCommand)), EMPTY, w, isCommand);
  }
}
