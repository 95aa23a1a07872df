/** The supervisor workflow as a state machine: its nodes, its routes, and the budget of one turn
    (src/agents/graph.py, src/agents/budget.py). */
module Supervisor {
  import opened Outcomes
  import opened TaskPlanning
  import opened Validation

  datatype Status =
    | Created | CollectingRequirements | Planning | Retrieving | Validating | ReviewRequired
    | Approved | Rejected | Cancelled | Paused | Failed

  datatype Reason =
    | NoReason | QuestionAnswered | IntentClarification | RequirementsMissing | ValidationBlocked
    | NodeBudgetExceeded | TokenBudgetExceeded | RetryBudgetExceeded | ContextLimitExceeded | TurnTimeout
    | ContextReferenceInvalid | MemoryOutputInvalid | IntentOutputInvalid | RequirementOutputInvalid
    | PlanningOutputInvalid | WorkspaceScopeInvalid | KnowledgeContractInvalid

  datatype Intent = AtomicQuery | ConfigureGoal | InspectDraft | UnsupportedIntent

  /** The one next action a route looks at, and all others. */
  datatype Action = ExtractNext | OtherAction

  datatype Node =
    | PrepareMemory | ClassifyIntent | AnswerQuestion | AwaitQuestion | PauseIntent | AwaitIntent
    | ExtractRequirements | PauseRequirements | AwaitRequirements | CompleteRequirements | PlanTasks
    | RetrieveEvidence | AnalyzeConflicts | ValidateDraft | TargetedRetrieval | PauseValidation
    | AwaitValidation | CompleteValidation | End

  /** The limits of a turn, whether there is a knowledge agent, and the validation service. */
  datatype Settings = Settings(
    maxNodes: nat, maxRepairs: nat, maxTokens: nat, hasKnowledge: bool, validate: Draft -> Report)

  /** What a turn has spent, and until when it may run; a deadline of 0 is none. */
  datatype Budget = Budget(nodes: nat, retries: nat, tokens: nat, deadline: nat)

  /** The draft, and what the last validation reported about it. */
  datatype Work = Work(draft: Draft, report: Report, rounds: nat)

  datatype State = State(
    status: Status, reason: Reason, action: Action, intent: Intent, clarify: bool, openQuestions: bool,
    work: Work, budget: Budget)

  /** One call to the language model: what it cost, and whether its output could be used. */
  datatype Call = Call(retries: nat, tokens: nat, valid: bool)

  /** A call made while memory is prepared, with the clock around it and whether its prompt fits. */
  datatype MemoryCall = MemoryCall(entered: nat, accounted: nat, fits: bool, call: Call)

  /** What the outside world does while one node runs: the clock when it is entered and when its
      model call is accounted, the calls, and what they return. */
  datatype World = World(
    entered: nat, accounted: nat, call: Call, called: bool,
    memory: seq<MemoryCall>, contextFits: bool, ambiguous: bool,
    intent: Intent, clarify: bool, questions: bool, inScope: bool, collected: bool,
    tasks: seq<Task>, edges: seq<Edge>, invalidated: seq<string>,
    context: map<Dimension, string>, evidence: seq<Evidence>, bindings: seq<Binding>)

  // ----- transitions -----------------------------------------------------------------------------

  /** `ALLOWED_TRANSITIONS`. */
  predicate Allowed(current: Status, target: Status) {
    match current
    case Created => target.CollectingRequirements? || target.Paused? || target.Failed?
    case CollectingRequirements =>
      target.CollectingRequirements? || target.Validating? || target.Paused? || target.Planning? ||
      target.Cancelled? || target.Failed?
    case Paused => target.Created? || target.CollectingRequirements? || target.Cancelled? || target.Failed?
    case Planning => target.Retrieving? || target.Paused? || target.Failed?
    case Retrieving => target.Validating? || target.Paused? || target.Failed?
    case Validating => target.Validating? || target.ReviewRequired? || target.Paused? || target.Failed?
    case _ => false
  }

  /** What a node does: update the state, wait for the user, or raise on an illegal transition. */
  datatype Effect = Updated(state: State) | Interrupted | Illegal(current: Status, target: Status)

  /** `transition_status`, applied to the state a node returns. */
  function Transition(s: State, current: Status, target: Status): Effect {
    if current == target || Allowed(current, target) then Updated(s.(status := target))
    else Illegal(current, target)
  }

  // ----- the budget ------------------------------------------------------------------------------

  datatype Entry = Entry(allowed: bool, state: State)

  /** `pause_update`. */
  function Pause(s: State, reason: Reason): State {
    s.(status := Paused, reason := reason, action := OtherAction)
  }

  predicate TimedOut(s: State, now: nat) {
    s.budget.deadline > 0 && now >= s.budget.deadline
  }

  /** `enter_node`. */
  function Enter(settings: Settings, s: State, now: nat): Entry {
    if TimedOut(s, now) then Entry(false, Pause(s, TurnTimeout))
    else if s.budget.nodes >= settings.maxNodes then Entry(false, Pause(s, NodeBudgetExceeded))
    else Entry(true, s.(budget := s.budget.(nodes := s.budget.nodes + 1)))
  }

  /** `account_llm`. */
  function Account(settings: Settings, s: State, call: Call, now: nat): Entry {
    var b := s.budget.(retries := s.budget.retries + call.retries, tokens := s.budget.tokens + call.tokens);
    var spent := s.(budget := b);
    if TimedOut(s, now) then Entry(false, Pause(spent, TurnTimeout))
    else if b.retries > settings.maxRepairs then Entry(false, Pause(spent, RetryBudgetExceeded))
    else if b.tokens > settings.maxTokens then Entry(false, Pause(spent, TokenBudgetExceeded))
    else Entry(true, spent)
  }

  /** `_structured_failure`: account the failed call, then pause whatever the accounting said. */
  function StructuredFailure(settings: Settings, s: State, w: World, reason: Reason): State {
    Pause(Account(settings, s, w.call, w.accounted).state, reason)
  }

  predicate FailurePause(r: Reason) {
    !r.NoReason? && !r.QuestionAnswered? && !r.IntentClarification? && !r.RequirementsMissing? && !r.ValidationBlocked?
  }

  // ----- nodes -----------------------------------------------------------------------------------

  /** The model calls of `_prepare_memory`: every one enters the node budget and is accounted. */
  function MemoryCalls(settings: Settings, s: State, calls: seq<MemoryCall>): Entry
    decreases |calls|
  {
    if calls == [] then Entry(true, s) else
    var m := calls[0];
    var entry := Enter(settings, s, m.entered);
    if !entry.allowed then entry
    else if !m.fits then Entry(false, Pause(entry.state, TokenBudgetExceeded)) else
    var spent := Account(settings, entry.state, m.call, m.accounted);
    if !m.call.valid then
      Entry(false, if spent.allowed then Pause(spent.state, MemoryOutputInvalid) else spent.state)
    else if !spent.allowed then spent
    else MemoryCalls(settings, spent.state, calls[1..])
  }

  function RunPrepareMemory(settings: Settings, s: State, w: World): State {
    var calls := MemoryCalls(settings, s, w.memory);
    if !calls.allowed then calls.state
    else if !w.contextFits then Pause(calls.state, ContextLimitExceeded)
    else if s.action != ExtractNext && w.ambiguous then Pause(calls.state, ContextReferenceInvalid)
    else calls.state
  }

  function RunClassifyIntent(settings: Settings, s: State, w: World): State {
    var entry := Enter(settings, s, w.entered);
    if !entry.allowed then entry.state
    else if !w.call.valid then StructuredFailure(settings, entry.state, w, IntentOutputInvalid)
    else
      var spent := Account(settings, entry.state, w.call, w.accounted);
      if !spent.allowed then spent.state
      else spent.state.(intent := w.intent, clarify := w.clarify, action := OtherAction, reason := NoReason)
  }

  function RunAnswerQuestion(settings: Settings, s: State, w: World): Effect {
    var entry := Enter(settings, s, w.entered);
    if !entry.allowed then Updated(entry.state) else
    var spent := if w.called then Account(settings, entry.state, w.call, w.accounted) else entry;
    if !spent.allowed then Updated(spent.state)
    else Transition(spent.state.(reason := QuestionAnswered, openQuestions := false), s.status, Paused)
  }

  /** `pause_intent`, `pause_requirements` and `pause_validation`. */
  function RunPause(settings: Settings, s: State, w: World, reason: Reason): Effect {
    var entry := Enter(settings, s, w.entered);
    if !entry.allowed then Updated(entry.state)
    else Transition(entry.state.(reason := reason, action := OtherAction), s.status, Paused)
  }

  /** An awaiting node: nothing more happens until the user answers, which enters it again;
      `cleared` is the state with what the answer resets. */
  function RunAwait(settings: Settings, s: State, cleared: State, w: World, answered: bool, target: Status,
                    action: Action): Effect
  {
    var entry := Enter(settings, s, w.entered);
    if !entry.allowed then Updated(entry.state)
    else if !answered then Interrupted
    else
      var next := cleared.(budget := entry.state.budget, reason := NoReason, action := action, openQuestions := false);
      Transition(next, s.status, target)
  }

  function RunExtractRequirements(settings: Settings, s: State, w: World): Effect {
    var entry := Enter(settings, s, w.entered);
    if !entry.allowed then Updated(entry.state)
    else if !w.call.valid then Updated(StructuredFailure(settings, entry.state, w, RequirementOutputInvalid))
    else if !w.inScope then Updated(Pause(entry.state, WorkspaceScopeInvalid))
    else
      var spent := Account(settings, entry.state, w.call, w.accounted);
      if !spent.allowed then Updated(spent.state) else
      var extracted := s.work.(draft := s.work.draft.(context := w.context));
      var next := spent.state.(work := extracted, openQuestions := w.questions, action := OtherAction,
                               reason := NoReason);
      Transition(next, s.status, CollectingRequirements)
  }

  function RunCompleteRequirements(settings: Settings, s: State, w: World): Effect {
    var entry := Enter(settings, s, w.entered);
    if !entry.allowed then Updated(entry.state)
    else Transition(entry.state.(reason := NoReason, action := OtherAction), s.status, Planning)
  }

  function RunPlanTasks(settings: Settings, s: State, w: World): Effect {
    var entry := Enter(settings, s, w.entered);
    if !entry.allowed then Updated(entry.state)
    else if !w.call.valid then Updated(StructuredFailure(settings, entry.state, w, PlanningOutputInvalid))
    else
      var spent := Account(settings, entry.state, w.call, w.accounted);
      if !spent.allowed then Updated(spent.state)
      else if !w.inScope then Updated(Pause(spent.state, WorkspaceScopeInvalid)) else
      var planned := s.work.draft.(tasks := w.tasks, edges := w.edges, invalidated := w.invalidated);
      Transition(spent.state.(work := s.work.(draft := planned), reason := NoReason, action := OtherAction), s.status,
                 Retrieving)
  }

  function RunRetrieveEvidence(settings: Settings, s: State, w: World): Effect {
    var entry := Enter(settings, s, w.entered);
    if !entry.allowed then Updated(entry.state)
    else if !w.collected then Updated(Pause(entry.state, KnowledgeContractInvalid)) else
    var found := s.work.draft.(evidence := w.evidence, bindings := w.bindings);
    Transition(entry.state.(work := s.work.(draft := found), reason := NoReason, action := OtherAction), s.status,
               Validating)
  }

  function RunAnalyzeConflicts(settings: Settings, s: State, w: World): State {
    var entry := Enter(settings, s, w.entered);
    if !entry.allowed then entry.state
    else
      var seen := s.work.report.(conflicts := settings.validate(s.work.draft).conflicts);
      entry.state.(work := s.work.(report := seen), action := OtherAction)
  }

  function RunValidateDraft(settings: Settings, s: State, w: World): State {
    var entry := Enter(settings, s, w.entered);
    if !entry.allowed then entry.state
    else entry.state.(work := s.work.(report := settings.validate(s.work.draft)), action := OtherAction)
  }

  function RunTargetedRetrieval(settings: Settings, s: State, w: World): State {
    var entry := Enter(settings, s, w.entered);
    if !entry.allowed then entry.state
    else
      var found := s.work.draft.(evidence := w.evidence, bindings := w.bindings);
      entry.state.(status := Validating, work := s.work.(draft := found, rounds := s.work.rounds + 1),
                   action := OtherAction)
  }

  function RunCompleteValidation(settings: Settings, s: State, w: World): Effect {
    var entry := Enter(settings, s, w.entered);
    if !entry.allowed then Updated(entry.state)
    else Transition(entry.state.(reason := NoReason, action := OtherAction), s.status, ReviewRequired)
  }

  function Run(settings: Settings, node: Node, s: State, w: World, answered: bool): Effect {
    match node
    case PrepareMemory => Updated(RunPrepareMemory(settings, s, w))
    case ClassifyIntent => Updated(RunClassifyIntent(settings, s, w))
    case AnswerQuestion => RunAnswerQuestion(settings, s, w)
    case AwaitQuestion =>
      if !answered then Interrupted
      else Transition(s.(reason := NoReason, action := OtherAction, openQuestions := false), s.status, Created)
    case PauseIntent => RunPause(settings, s, w, IntentClarification)
    case AwaitIntent => RunAwait(settings, s, s.(clarify := false), w, answered, Created, OtherAction)
    case ExtractRequirements => RunExtractRequirements(settings, s, w)
    case PauseRequirements => RunPause(settings, s, w, RequirementsMissing)
    case AwaitRequirements => RunAwait(settings, s, s, w, answered, CollectingRequirements, ExtractNext)
    case CompleteRequirements => RunCompleteRequirements(settings, s, w)
    case PlanTasks => RunPlanTasks(settings, s, w)
    case RetrieveEvidence => RunRetrieveEvidence(settings, s, w)
    case AnalyzeConflicts => Updated(RunAnalyzeConflicts(settings, s, w))
    case ValidateDraft => Updated(RunValidateDraft(settings, s, w))
    case TargetedRetrieval => Updated(RunTargetedRetrieval(settings, s, w))
    case PauseValidation => RunPause(settings, s, w, ValidationBlocked)
    case AwaitValidation =>
      RunAwait(settings, s, s.(work := s.work.(rounds := 0)), w, answered, CollectingRequirements, ExtractNext)
    case CompleteValidation => RunCompleteValidation(settings, s, w)
    case End => Updated(s)
  }

  // ----- routes ----------------------------------------------------------------------------------

  predicate IsBlocking(s: State) {
    s.work.report.Blocking()
  }

  /** When validation is retried: nothing conflicts, something can be searched for, and a round is left. */
  predicate RetryGuard(s: State) {
    IsBlocking(s) && s.work.report.targeted != map[] && s.work.report.conflicts == {} && s.work.rounds < 2
  }

  function Route(settings: Settings, node: Node, s: State): Node {
    match node
    case PrepareMemory =>
      if FailurePause(s.reason) then End else if s.action == ExtractNext then ExtractRequirements else ClassifyIntent
    case ClassifyIntent =>
      if FailurePause(s.reason) then End else if s.clarify then PauseIntent
      else if s.intent == ConfigureGoal then ExtractRequirements else AnswerQuestion
    case AnswerQuestion => if FailurePause(s.reason) then End else AwaitQuestion
    case AwaitQuestion => if FailurePause(s.reason) then End else PrepareMemory
    case PauseIntent => if s.reason.IntentClarification? || s.reason.RequirementsMissing? then AwaitIntent else End
    case AwaitIntent => if FailurePause(s.reason) then End else PrepareMemory
    case ExtractRequirements =>
      if FailurePause(s.reason) then End else if s.openQuestions then PauseRequirements else CompleteRequirements
    case PauseRequirements =>
      if s.reason.IntentClarification? || s.reason.RequirementsMissing? then AwaitRequirements else End
    case AwaitRequirements => if FailurePause(s.reason) then End else PrepareMemory
    case CompleteRequirements => PlanTasks
    case PlanTasks => if !settings.hasKnowledge || FailurePause(s.reason) then End else RetrieveEvidence
    case RetrieveEvidence => if FailurePause(s.reason) then End else AnalyzeConflicts
    case AnalyzeConflicts => ValidateDraft
    case ValidateDraft => if !IsBlocking(s) then CompleteValidation else if RetryGuard(s) then TargetedRetrieval
                          else PauseValidation
    case TargetedRetrieval => AnalyzeConflicts
    case PauseValidation => AwaitValidation
    case AwaitValidation => if FailurePause(s.reason) then End else PrepareMemory
    case CompleteValidation => End
    case End => End
  }

  // ----- one turn --------------------------------------------------------------------------------

  /** Where a turn stands: about to run a node, waiting at one for the user, done, or raised. */
  datatype Turn =
    | Running(node: Node, state: State, answered: bool, now: nat)
    | Waiting(node: Node, state: State)
    | Finished(state: State)
    | Crashed(current: Status, target: Status)

  /** The clock never runs backwards. */
  predicate Later(t: Turn, w: World) {
    t.Running? ==> t.now <= w.entered <= w.accounted
  }

  function Next(settings: Settings, t: Turn, w: World): Turn
    requires t.Running?
  {
    match Run(settings, t.node, t.state, w, t.answered)
    case Interrupted => Waiting(t.node, t.state)
    case Illegal(current, target) => Crashed(current, target)
    case Updated(s) =>
      var node := Route(settings, t.node, s);
      if node == End then Finished(s) else Running(node, s, false, w.accounted)
  }

  /** `start` of the session runner. */
  function StartTurn(draft: Draft, deadline: nat, now: nat): Turn {
    Running(PrepareMemory,
            State(Created, NoReason, OtherAction, UnsupportedIntent, false, false,
                  Work(draft, Report({}, {}, map[]), 0), Budget(0, 0, 0, deadline)),
            false, now)
  }

  /** `continue_session`: answer the node that waits, or, when none does, start over from the saved
      state, wherever the last turn left it. */
  function ContinueTurn(t: Turn, deadline: nat, now: nat): Turn
    requires !t.Crashed?
  {
    var s := t.state.(budget := Budget(0, 0, 0, deadline));
    if t.Waiting? then Running(t.node, s, true, now)
    else Running(PrepareMemory,
                 s.(status := Created, openQuestions := false, reason := NoReason, action := OtherAction),
                 false, now)
  }
}
