/** The six LangGraph nodes and how far they agree with the direct flow. */
module LangGraphFlow {
  import opened Wrappers
  import opened Schemas
  import opened Milp
  import opened Trust
  import opened Decision

  /** The state passed between nodes; each node returns an updated copy. */
  datatype NodeState = NodeState(
    mode: DecisionMode,
    input: DecisionInput,
    graph: GraphContext,
    documents: seq<string>,
    proposal: Option<ActionProposal>,
    rails: seq<RailCheck>,
    trustReport: Option<TrustReport>,
    scheduleResult: Option<ScheduleResult>,
    fallbackTriggered: bool,
    terminalOutcome: Option<Outcome>,
    receipt: Option<ExecutionReceipt>)

  function Initial(mode: DecisionMode, input: DecisionInput, graph: GraphContext, retrieved: seq<string>): NodeState {
    NodeState(mode, input, graph, retrieved, None, [], None, None, false, None, None)
  }

  function CollectContext(s: NodeState): NodeState {
    s.(documents := NonBlank(s.documents))
  }

  function ProposeAction(cfg: WorkflowConfig, env: Environment, s: NodeState): NodeState {
    if s.mode == MilpOnly || s.mode == StaticReference then s
    else
      match AskAgent(cfg, env, s.input, s.graph, s.documents)
      case AgentFailed => if s.mode == Hybrid then s else s.(terminalOutcome := Some(ProposalMissing))
      case Proposed(proposal) => s.(proposal := Some(proposal), rails := ProposalRails(s.input, s.graph, proposal))
  }

  ghost function EvaluateTrustNode(cfg: WorkflowConfig, env: Environment, s: NodeState)
    : (Result<NodeState, Failure>, seq<Call>)
    requires s.input.Valid()
  {
    if s.mode != Hybrid then (Success(s), [])
    else if s.proposal.None? then (Success(s.(trustReport := Some(FailedReport(cfg)))), [])
    else
      var (gated, calls) := Gate(cfg, env, s.input, s.proposal.value, s.rails, s.documents, s.graph);
      (match gated
       case Failure(e) => Result.Failure(e)
       case Success(report) => Success(s.(trustReport := Some(report))),
       calls)
  }

  /** An unbuildable request becomes an infeasible outcome here. */
  function Schedule(cfg: WorkflowConfig, env: Environment, s: NodeState, fallback: bool): NodeState {
    match Reference(cfg, env, s.input)
    case Failure(_) => s.(terminalOutcome := Some(NoFeasibleSlot))
    case Success((_, schedule)) =>
      if schedule.Selected? then
        s.(scheduleResult := Some(schedule), proposal := Some(ProposalFromSchedule(schedule, s.input)),
           fallbackTriggered := fallback)
      else
        s.(scheduleResult := Some(schedule), terminalOutcome := Some(OutcomeOfStatus(schedule)))
  }

  function ChooseFinalAction(cfg: WorkflowConfig, env: Environment, s: NodeState): Result<NodeState, Failure> {
    if s.terminalOutcome.Some? then Success(s)
    else
      match s.mode
      case MilpOnly => Success(Schedule(cfg, env, s, false))
      case StaticReference =>
        var proposal :- StaticProposal(cfg, s.input);
        if proposal.None? then Success(s.(terminalOutcome := Some(NoFeasibleSlot)))
        else Success(s.(proposal := proposal, fallbackTriggered := false))
      case LlmOnly =>
        if !AllPassed(s.rails) then Success(s.(terminalOutcome := Some(ProposalRejected)))
        else Success(s.(fallbackTriggered := false))
      case Hybrid =>
        if s.proposal.None? || s.trustReport.None? || !s.trustReport.value.passed then
          Success(Schedule(cfg, env, s, true))
        else Success(s.(fallbackTriggered := false))
  }

  /** What choosing may change: the action, and an outcome that stops short of it. */
  predicate Chosen(s: NodeState, chosen: NodeState) {
    && chosen.mode == s.mode && chosen.input == s.input && chosen.receipt == s.receipt
    && (|| chosen.terminalOutcome == s.terminalOutcome
        || chosen.terminalOutcome == Some(NoFeasibleSlot)
        || chosen.terminalOutcome == Some(NoSolver)
        || chosen.terminalOutcome == Some(ProposalRejected))
  }

  lemma SchedulingChooses(cfg: WorkflowConfig, env: Environment, s: NodeState, fallback: bool)
    ensures Chosen(s, Schedule(cfg, env, s, fallback))
  {
  }

  lemma ChoosingChooses(cfg: WorkflowConfig, env: Environment, s: NodeState)
    ensures var chosen := ChooseFinalAction(cfg, env, s);
            chosen.Success? ==> Chosen(s, chosen.value)
  {
    SchedulingChooses(cfg, env, s, false);
    SchedulingChooses(cfg, env, s, true);
  }

  /** No deadline check and no dispatch time, unlike the direct flow. */
  function ExecuteNode(env: Environment, s: NodeState): (NodeState, seq<Call>) {
    if s.terminalOutcome.Some? || s.proposal.None? then (s, [])
    else
      var call := CallFor(s.mode, s.input, s.proposal.value, s.fallbackTriggered);
      (match env.execute(call)
       case ExecutorRaised => s.(terminalOutcome := Some(ExecutionFailed))
       case Returned(raw) =>
         var receipt := WithSloStatus(raw, s.input);
         s.(receipt := Some(receipt), terminalOutcome := Some(OutcomeOf(receipt))),
       [Execute(call)])
  }

  function RecordResult(s: NodeState): CycleResult {
    Plain(s.mode, s.input, s.proposal, s.trustReport, s.scheduleResult, s.receipt,
          s.terminalOutcome.GetOr(ProposalMissing))
  }

  /** The last three nodes. */
  function Conclude(cfg: WorkflowConfig, env: Environment, s: NodeState, agent: Option<ActionProposal>,
                    asked: seq<Call>): Attempt {
    match ChooseFinalAction(cfg, env, s)
    case Failure(e) => Attempt(Result.Failure(e), agent, asked)
    case Success(chosen) =>
      var (executed, calls) := ExecuteNode(env, chosen);
      Attempt(Success(RecordResult(executed)), agent, asked + calls)
  }

  /** Everything after the proposal node. */
  ghost function Proceed(cfg: WorkflowConfig, env: Environment, s: NodeState): Attempt
    requires s.input.Valid()
  {
    var (evaluated, asked) := EvaluateTrustNode(cfg, env, s);
    match evaluated
    case Failure(e) => Attempt(Result.Failure(e), s.proposal, asked)
    case Success(judged) => Conclude(cfg, env, judged, s.proposal, asked)
  }

  ghost function LangGraphRun(cfg: WorkflowConfig, env: Environment, mode: DecisionMode, input: DecisionInput,
                              graph: GraphContext, retrieved: seq<string>): Attempt
    requires input.Valid()
  {
    Proceed(cfg, env, ProposeAction(cfg, env, CollectContext(Initial(mode, input, graph, retrieved))))
  }

  // ---- agreement

  function WithoutDispatchTime(receipt: Option<ExecutionReceipt>): Option<ExecutionReceipt> {
    match receipt
    case None => None
    case Some(r) => Some(r.(dispatchedAt := None))
  }

  /** The two results are the same except for the `proposal` field and the
      recorded dispatch time. */
  predicate SameDecision(d: CycleResult, l: CycleResult) {
    && l.(proposal := d.proposal, executionReceipt := d.executionReceipt) == d
    && WithoutDispatchTime(l.executionReceipt) == WithoutDispatchTime(d.executionReceipt)
  }

  /** The two flows agree: same exception or same decision, same agent proposal,
      and the same evaluator and executor calls in the same order. */
  predicate Agree(d: Attempt, l: Attempt) {
    && d.agentProposal == l.agentProposal
    && d.calls == l.calls
    && match (d.result, l.result)
       case (Success(r), Success(r')) => SameDecision(r, r')
       case (Failure(e), Failure(e')) => e == e'
       case _ => false
  }

  /** A receipt with the dispatch reading, when there is a clock. */
  function Dispatched(now: Option<int>, receipt: Option<ExecutionReceipt>): Option<ExecutionReceipt> {
    if now.Some? && receipt.Some? then Some(receipt.value.(dispatchedAt := now)) else receipt
  }

  /** The exact difference of two agreeing results: the node keeps the agent's
      proposal when the solver selected nothing, and the direct flow alone
      records the dispatch reading. */
  predicate DiffersOnlyIn(now: Option<int>, d: Attempt, l: Attempt) {
    d.result.Success? && l.result.Success? ==>
      var r, r' := d.result.value, l.result.value;
      var nothing := r.scheduleResult.Some? && !r.scheduleResult.value.Selected?;
      && r'.proposal == (if nothing then d.agentProposal else r.proposal)
      && r == r'.(proposal := r.proposal, executionReceipt := Dispatched(now, r'.executionReceipt))
  }

  predicate Dispatches(calls: seq<Call>) {
    exists i :: 0 <= i < |calls| && calls[i].Execute?
  }

  lemma GateNeverExecutes(cfg: WorkflowConfig, env: Environment, input: DecisionInput, proposal: ActionProposal,
                          rails: seq<RailCheck>, documents: seq<string>, graph: GraphContext)
    requires input.Valid()
    ensures !Dispatches(Gate(cfg, env, input, proposal, rails, documents, graph).1)
  {
  }

  /** The attempts differ in the calls made, or in whether an exception escaped. */
  predicate Apart(d: Attempt, l: Attempt) {
    d.calls != l.calls || d.result.Success? != l.result.Success?
  }

  /** Whether each flow executes an action is known, and the two attempts agree
      unless the direct flow refuses that action at the deadline. */
  ghost predicate AgreeUnlessRefused(cfg: WorkflowConfig, env: Environment, input: DecisionInput, performs: bool,
                                     d: Attempt, l: Attempt)
  {
    && (Dispatches(l.calls) <==> performs)
    && (Dispatches(d.calls) <==> performs && !PastDeadline(cfg, env, input))
    && (if PastDeadline(cfg, env, input) && performs then Apart(d, l)
        else Agree(d, l) && DiffersOnlyIn(DispatchedAt(cfg, env), d, l))
  }

  lemma DispatchesAppend(asked: seq<Call>, call: Call)
    requires !Dispatches(asked)
    ensures Dispatches(asked + [call]) <==> call.Execute?
  {
    assert (asked + [call])[|asked|] == call;
  }

  /** Executing a chosen action agrees with the direct step up to its refusal. */
  lemma ExecuteAgrees(cfg: WorkflowConfig, env: Environment, s: NodeState, agent: Option<ActionProposal>,
                      asked: seq<Call>)
    requires s.terminalOutcome.None? && s.proposal.Some? && s.receipt.None?
    requires s.scheduleResult.Some? ==> s.scheduleResult.value.Selected?
    requires !Dispatches(asked)
    ensures var (d, dCalls) := Perform(cfg, env, s.mode, s.input, s.proposal.value, s.trustReport, s.scheduleResult,
                                       s.fallbackTriggered);
            var (l, lCalls) := ExecuteNode(env, s);
            AgreeUnlessRefused(cfg, env, s.input, true, Attempt(Success(d), agent, asked + dCalls),
                               Attempt(Success(RecordResult(l)), agent, asked + lCalls))
  {
    var call := Execute(CallFor(s.mode, s.input, s.proposal.value, s.fallbackTriggered));
    DispatchesAppend(asked, call);
    assert asked + [] == asked && |asked + [call]| != |asked|;
  }

  /** A flow that stops before executing. */
  lemma StopAgrees(cfg: WorkflowConfig, env: Environment, s: NodeState, d: CycleResult, agent: Option<ActionProposal>,
                   asked: seq<Call>)
    requires s.terminalOutcome.Some? && s.receipt.None?
    requires !Dispatches(asked)
    requires RecordResult(s) == d.(proposal :=
      if d.scheduleResult.Some? && !d.scheduleResult.value.Selected? then agent else d.proposal)
    ensures var (l, lCalls) := ExecuteNode(env, s);
            AgreeUnlessRefused(cfg, env, s.input, false, Attempt(Success(d), agent, asked + []),
                               Attempt(Success(RecordResult(l)), agent, asked + lCalls))
  {
    assert asked + [] == asked;
  }

  predicate ReferenceSelected(cfg: WorkflowConfig, env: Environment, input: DecisionInput) {
    Reference(cfg, env, input).Success? && Reference(cfg, env, input).value.1.Selected?
  }

  /** What scheduling and executing do: agree up to a refusal when the reference
      can be built; otherwise the direct flow raises and the node reports an
      infeasible cycle. */
  ghost predicate AgreeOnReference(cfg: WorkflowConfig, env: Environment, input: DecisionInput, d: Attempt,
                                   l: Attempt) {
    if Reference(cfg, env, input).Success? then
      AgreeUnlessRefused(cfg, env, input, ReferenceSelected(cfg, env, input), d, l)
    else
      Apart(d, l) && !Dispatches(l.calls) && !Dispatches(d.calls)
  }

  lemma ScheduleAgrees(cfg: WorkflowConfig, env: Environment, s: NodeState, fallback: bool,
                       agent: Option<ActionProposal>, asked: seq<Call>)
    requires s.terminalOutcome.None? && s.receipt.None? && s.scheduleResult.None?
    requires s.mode == if fallback then Hybrid else MilpOnly
    requires s.proposal == agent && !Dispatches(asked)
    ensures var (d, dCalls) := RunMilp(cfg, env, s.input, fallback, s.trustReport);
            var (l, lCalls) := ExecuteNode(env, Schedule(cfg, env, s, fallback));
            AgreeOnReference(cfg, env, s.input, Attempt(d, agent, asked + dCalls),
                             Attempt(Success(RecordResult(l)), agent, asked + lCalls))
  {
    var chosen := Schedule(cfg, env, s, fallback);
    assert asked + [] == asked;
    if chosen.terminalOutcome.None? {
      ExecuteAgrees(cfg, env, chosen, agent, asked);
    } else if Reference(cfg, env, s.input).Success? {
      StopAgrees(cfg, env, chosen, RunMilp(cfg, env, s.input, fallback, s.trustReport).0.value, agent, asked);
    }
  }

  // ---- when the flows part

  /** The guards under which a flow gets as far as executing an action. */
  ghost predicate Performs(cfg: WorkflowConfig, env: Environment, mode: DecisionMode, input: DecisionInput,
                           graph: GraphContext, retrieved: seq<string>)
    requires input.Valid()
  {
    match mode
    case MilpOnly => ReferenceSelected(cfg, env, input)
    case StaticReference => StaticProposal(cfg, input).Success? && StaticProposal(cfg, input).value.Some?
    case LlmOnly =>
      var reply := AskAgent(cfg, env, input, graph, NonBlank(retrieved));
      reply.Proposed? && AllPassed(ProposalRails(input, graph, reply.proposal))
    case Hybrid =>
      match AskAgent(cfg, env, input, graph, NonBlank(retrieved))
      case AgentFailed => ReferenceSelected(cfg, env, input)
      case Proposed(proposal) =>
        var gated := Verdict(cfg, env, input, graph, retrieved, proposal);
        gated.Success? && (gated.value.passed || ReferenceSelected(cfg, env, input))
  }

  /** The gate's verdict on a proposal. */
  ghost function Verdict(cfg: WorkflowConfig, env: Environment, input: DecisionInput, graph: GraphContext,
                         retrieved: seq<string>, proposal: ActionProposal): Result<TrustReport, Failure>
    requires input.Valid()
  {
    Gate(cfg, env, input, proposal, ProposalRails(input, graph, proposal), NonBlank(retrieved), graph).0
  }

  /** The guards under which a flow consults the reference schedule to choose what to run. */
  ghost predicate NeedsReference(cfg: WorkflowConfig, env: Environment, mode: DecisionMode, input: DecisionInput,
                                 graph: GraphContext, retrieved: seq<string>)
    requires input.Valid()
  {
    match mode
    case MilpOnly => true
    case StaticReference => false
    case LlmOnly => false
    case Hybrid =>
      match AskAgent(cfg, env, input, graph, NonBlank(retrieved))
      case AgentFailed => true
      case Proposed(proposal) =>
        var gated := Verdict(cfg, env, input, graph, retrieved, proposal);
        gated.Success? && !gated.value.passed
  }

  /** The conditions under which the two flows part: the reference is needed and
      cannot be built, or an action is executed past an enforced deadline. */
  ghost predicate Parts(cfg: WorkflowConfig, env: Environment, mode: DecisionMode, input: DecisionInput,
                        graph: GraphContext, retrieved: seq<string>)
    requires input.Valid()
  {
    || (NeedsReference(cfg, env, mode, input, graph, retrieved) && Reference(cfg, env, input).Failure?)
    || (PastDeadline(cfg, env, input) && Performs(cfg, env, mode, input, graph, retrieved))
  }

  /** How two attempts relate, given whether the guards lead to an action, whether
      the reference is needed and can be built, and whether a refusal is due. */
  ghost predicate Relate(performs: bool, needs: bool, built: bool, late: bool, now: Option<int>, d: Attempt,
                         l: Attempt)
  {
    var parts := (needs && !built) || (late && performs);
    && (Dispatches(l.calls) <==> performs)
    && (Dispatches(d.calls) <==> performs && !late)
    && (if parts then Apart(d, l) else Agree(d, l) && DiffersOnlyIn(now, d, l))
  }

  ghost predicate FlowsRelate(cfg: WorkflowConfig, env: Environment, mode: DecisionMode, input: DecisionInput,
                              graph: GraphContext, retrieved: seq<string>)
    requires input.Valid()
  {
    Relate(Performs(cfg, env, mode, input, graph, retrieved), NeedsReference(cfg, env, mode, input, graph, retrieved),
           Reference(cfg, env, input).Success?, PastDeadline(cfg, env, input), DispatchedAt(cfg, env),
           DirectFlow(cfg, env, mode, input, graph, retrieved), LangGraphRun(cfg, env, mode, input, graph, retrieved))
  }

  lemma MilpRelates(cfg: WorkflowConfig, env: Environment, input: DecisionInput, graph: GraphContext,
                    retrieved: seq<string>)
    requires input.Valid()
    ensures FlowsRelate(cfg, env, MilpOnly, input, graph, retrieved)
  {
    var s := CollectContext(Initial(MilpOnly, input, graph, retrieved));
    ScheduleAgrees(cfg, env, s, false, None, []);
    var direct := RunMilp(cfg, env, input, false, None).1;
    assert [] + direct == direct;
    assert LangGraphRun(cfg, env, MilpOnly, input, graph, retrieved) == Conclude(cfg, env, s, None, []);
  }

  lemma StaticRelates(cfg: WorkflowConfig, env: Environment, input: DecisionInput, graph: GraphContext,
                      retrieved: seq<string>)
    requires input.Valid()
    ensures FlowsRelate(cfg, env, StaticReference, input, graph, retrieved)
  {
    var s := CollectContext(Initial(StaticReference, input, graph, retrieved));
    assert LangGraphRun(cfg, env, StaticReference, input, graph, retrieved) == Conclude(cfg, env, s, None, []);
    var (result, direct) := RunStatic(cfg, env, input);
    assert [] + direct == direct;
    var chosen := ChooseFinalAction(cfg, env, s);
    if chosen.Success? {
      if chosen.value.terminalOutcome.None? {
        ExecuteAgrees(cfg, env, chosen.value, None, []);
      } else {
        StopAgrees(cfg, env, chosen.value, result.value, None, []);
      }
    }
  }

  lemma LlmOnlyRelates(cfg: WorkflowConfig, env: Environment, input: DecisionInput, graph: GraphContext,
                       retrieved: seq<string>)
    requires input.Valid()
    ensures FlowsRelate(cfg, env, LlmOnly, input, graph, retrieved)
  {
    match AskAgent(cfg, env, input, graph, NonBlank(retrieved))
    case AgentFailed =>
      var stopped := CollectContext(Initial(LlmOnly, input, graph,
                                            retrieved)).(terminalOutcome := Some(ProposalMissing));
      assert LangGraphRun(cfg, env, LlmOnly, input, graph, retrieved) == Conclude(cfg, env, stopped, None, []);
      StopAgrees(cfg, env, stopped, Plain(LlmOnly, input, None, None, None, None, ProposalMissing), None, []);
    case Proposed(proposal) =>
      LlmProposedRelates(cfg, env, input, graph, retrieved, proposal);
  }

  lemma LlmProposedRelates(cfg: WorkflowConfig, env: Environment, input: DecisionInput, graph: GraphContext,
                           retrieved: seq<string>, proposal: ActionProposal)
    requires input.Valid()
    requires AskAgent(cfg, env, input, graph, NonBlank(retrieved)) == Proposed(proposal)
    ensures FlowsRelate(cfg, env, LlmOnly, input, graph, retrieved)
  {
    var s := CollectContext(Initial(LlmOnly, input, graph, retrieved))
             .(proposal := Some(proposal), rails := ProposalRails(input, graph, proposal));
    assert LangGraphRun(cfg, env, LlmOnly, input, graph, retrieved) == Conclude(cfg, env, s, Some(proposal), []);
    var (d, direct) := LlmOnlyOn(cfg, env, input, graph, proposal);
    assert [] + direct == direct;
    if AllPassed(s.rails) {
      ExecuteAgrees(cfg, env, s, Some(proposal), []);
    } else {
      StopAgrees(cfg, env, s.(terminalOutcome := Some(ProposalRejected)), d, Some(proposal), []);
    }
  }

  lemma HybridRelates(cfg: WorkflowConfig, env: Environment, input: DecisionInput, graph: GraphContext,
                      retrieved: seq<string>)
    requires input.Valid()
    ensures FlowsRelate(cfg, env, Hybrid, input, graph, retrieved)
  {
    match AskAgent(cfg, env, input, graph, NonBlank(retrieved))
    case AgentFailed => UnansweredRelates(cfg, env, input, graph, retrieved);
    case Proposed(proposal) => JudgedRelates(cfg, env, input, graph, retrieved, proposal);
  }

  /** The node state after an agent that gave no proposal. */
  function Unanswered(cfg: WorkflowConfig, input: DecisionInput, graph: GraphContext,
                      retrieved: seq<string>): NodeState {
    CollectContext(Initial(Hybrid, input, graph, retrieved)).(trustReport := Some(FailedReport(cfg)))
  }

  lemma UnansweredRun(cfg: WorkflowConfig, env: Environment, input: DecisionInput, graph: GraphContext,
                      retrieved: seq<string>)
    requires input.Valid()
    requires AskAgent(cfg, env, input, graph, NonBlank(retrieved)).AgentFailed?
    ensures LangGraphRun(cfg, env, Hybrid, input, graph, retrieved)
            == Conclude(cfg, env, Unanswered(cfg, input, graph, retrieved), None, [])
  {
  }

  lemma UnansweredRelates(cfg: WorkflowConfig, env: Environment, input: DecisionInput, graph: GraphContext,
                          retrieved: seq<string>)
    requires input.Valid()
    requires AskAgent(cfg, env, input, graph, NonBlank(retrieved)).AgentFailed?
    ensures FlowsRelate(cfg, env, Hybrid, input, graph, retrieved)
  {
    UnansweredRun(cfg, env, input, graph, retrieved);
    ScheduleAgrees(cfg, env, Unanswered(cfg, input, graph, retrieved), true, None, []);
    var direct := RunMilp(cfg, env, input, true, Some(FailedReport(cfg))).1;
    assert [] + direct == direct;
  }

  /** The node state after the proposal node and a report. */
  function Judged(input: DecisionInput, graph: GraphContext, retrieved: seq<string>, proposal: ActionProposal,
                  report: TrustReport): NodeState
  {
    CollectContext(Initial(Hybrid, input, graph, retrieved))
    .(proposal := Some(proposal), rails := ProposalRails(input, graph, proposal), trustReport := Some(report))
  }

  lemma JudgedRun(cfg: WorkflowConfig, env: Environment, input: DecisionInput, graph: GraphContext,
                  retrieved: seq<string>,
                  proposal: ActionProposal)
    requires input.Valid()
    requires AskAgent(cfg, env, input, graph, NonBlank(retrieved)) == Proposed(proposal)
    ensures var (gated, asked) := Gate(cfg, env, input, proposal, ProposalRails(input, graph, proposal),
                                       NonBlank(retrieved), graph);
            LangGraphRun(cfg, env, Hybrid, input, graph, retrieved)
            == if gated.Failure? then Attempt(Result.Failure(gated.error), Some(proposal), asked)
               else Conclude(cfg, env, Judged(input, graph, retrieved, proposal, gated.value), Some(proposal), asked)
  {
  }

  lemma JudgedDirect(cfg: WorkflowConfig, env: Environment, input: DecisionInput, graph: GraphContext,
                     retrieved: seq<string>, proposal: ActionProposal)
    requires input.Valid()
    requires AskAgent(cfg, env, input, graph, NonBlank(retrieved)) == Proposed(proposal)
    ensures var (gated, asked) := Gate(cfg, env, input, proposal, ProposalRails(input, graph, proposal),
                                       NonBlank(retrieved), graph);
            DirectFlow(cfg, env, Hybrid, input, graph, retrieved)
            == if gated.Failure? then Attempt(Result.Failure(gated.error), Some(proposal), asked)
               else Acting(cfg, env, input, proposal, gated.value, asked)
  {
  }

  function Acting(cfg: WorkflowConfig, env: Environment, input: DecisionInput, proposal: ActionProposal,
                  report: TrustReport, asked: seq<Call>): Attempt
  {
    var (d, calls) := ActOn(cfg, env, input, proposal, report);
    Attempt(d, Some(proposal), asked + calls)
  }

  lemma JudgedRelates(cfg: WorkflowConfig, env: Environment, input: DecisionInput, graph: GraphContext,
                      retrieved: seq<string>, proposal: ActionProposal)
    requires input.Valid()
    requires AskAgent(cfg, env, input, graph, NonBlank(retrieved)) == Proposed(proposal)
    ensures FlowsRelate(cfg, env, Hybrid, input, graph, retrieved)
  {
    var rails := ProposalRails(input, graph, proposal);
    var (gated, asked) := Gate(cfg, env, input, proposal, rails, NonBlank(retrieved), graph);
    GateNeverExecutes(cfg, env, input, proposal, rails, NonBlank(retrieved), graph);
    JudgedRun(cfg, env, input, graph, retrieved, proposal);
    JudgedDirect(cfg, env, input, graph, retrieved, proposal);
    if gated.Success? {
      JudgedAgrees(cfg, env, Judged(input, graph, retrieved, proposal, gated.value), asked);
    }
  }

  /** A judged node state: run the proposal if the report passed, else the schedule. */
  lemma JudgedAgrees(cfg: WorkflowConfig, env: Environment, s: NodeState, asked: seq<Call>)
    requires s.mode == Hybrid && s.proposal.Some? && s.trustReport.Some?
    requires s.terminalOutcome.None? && s.receipt.None? && s.scheduleResult.None? && !s.fallbackTriggered
    requires !Dispatches(asked)
    ensures var passed := s.trustReport.value.passed;
            Relate(passed || ReferenceSelected(cfg, env, s.input), !passed, Reference(cfg, env, s.input).Success?,
                   PastDeadline(cfg, env, s.input), DispatchedAt(cfg, env),
                   Acting(cfg, env, s.input, s.proposal.value, s.trustReport.value, asked),
                   Conclude(cfg, env, s, s.proposal, asked))
  {
    if s.trustReport.value.passed {
      ExecuteAgrees(cfg, env, s, s.proposal, asked);
    } else {
      ScheduleAgrees(cfg, env, s, true, s.proposal, asked);
    }
  }

  lemma ModesRelate(cfg: WorkflowConfig, env: Environment, mode: DecisionMode, input: DecisionInput,
                    graph: GraphContext, retrieved: seq<string>)
    requires input.Valid()
    ensures FlowsRelate(cfg, env, mode, input, graph, retrieved)
  {
    match mode
    case MilpOnly => MilpRelates(cfg, env, input, graph, retrieved);
    case StaticReference => StaticRelates(cfg, env, input, graph, retrieved);
    case LlmOnly => LlmOnlyRelates(cfg, env, input, graph, retrieved);
    case Hybrid => HybridRelates(cfg, env, input, graph, retrieved);
  }

  /** The nodes execute an action exactly under the guards that lead to one; the
      direct flow exactly under the same guards and before the deadline it enforces. */
  lemma DispatchIff(cfg: WorkflowConfig, env: Environment, mode: DecisionMode, input: DecisionInput,
                    graph: GraphContext, retrieved: seq<string>)
    requires input.Valid()
    ensures Dispatches(LangGraphRun(cfg, env, mode, input, graph, retrieved).calls)
            <==> Performs(cfg, env, mode, input, graph, retrieved)
    ensures Dispatches(DirectFlow(cfg, env, mode, input, graph, retrieved).calls)
            <==> Performs(cfg, env, mode, input, graph, retrieved) && !PastDeadline(cfg, env, input)
  {
    ModesRelate(cfg, env, mode, input, graph, retrieved);
  }

  /** The refinement, exactly. The LangGraph nodes and the direct flow agree on
      the outcome, the executed action, the fallback flag, the report, the
      schedule, the receipt, the calls made and the exception raised if and only
      if neither the reference schedule is needed and cannot be built, nor the
      guards lead to an action after a deadline the direct flow enforces.
      Agreeing results differ in two fields and no more: the node keeps the
      agent's proposal when the solver selected nothing, and with a clock the
      direct flow alone records the dispatch reading. */
  lemma FlowsAgreeIff(cfg: WorkflowConfig, env: Environment, mode: DecisionMode, input: DecisionInput,
                      graph: GraphContext, retrieved: seq<string>)
    requires input.Valid()
    ensures var d := DirectFlow(cfg, env, mode, input, graph, retrieved);
            var l := LangGraphRun(cfg, env, mode, input, graph, retrieved);
            && (Agree(d, l) <==> !Parts(cfg, env, mode, input, graph, retrieved))
            && (Agree(d, l) ==> DiffersOnlyIn(DispatchedAt(cfg, env), d, l))
  {
    ModesRelate(cfg, env, mode, input, graph, retrieved);
    if Parts(cfg, env, mode, input, graph, retrieved) {
      ApartDisagree(DirectFlow(cfg, env, mode, input, graph, retrieved),
                    LangGraphRun(cfg, env, mode, input, graph, retrieved));
    }
  }

  lemma ApartDisagree(d: Attempt, l: Attempt)
    requires Apart(d, l)
    ensures !Agree(d, l)
  {
  }
}
