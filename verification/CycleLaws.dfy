/** The course of a decision cycle, told from its configuration, the carried
    state, its inputs and the answers it gets, and proved of both backends. */
module CycleLaws {
  import opened Wrappers
  import opened Schemas
  import opened Milp
  import opened Request
  import opened Trust
  import opened DataRails
  import opened Decision
  import opened LangGraphFlow
  import opened Runs
  import opened RunLaws
  import opened GateLaws
  import opened ScheduleLaws

  /** What a cycle comes to: an exception, an outcome without an action, or an action. */
  datatype Course = Raises(failure: Failure) | Stops(outcome: Outcome) | Runs(action: ActionProposal, fallback: bool)

  /** The dispatch reading is past a deadline that is enforced. */
  predicate Late(cfg: WorkflowConfig, env: Environment, input: DecisionInput) {
    && cfg.realExecutor && (cfg.gate.profile == V2 || cfg.gate.profile == V21)
    && env.dispatchNow > input.deadline
  }

  /** Hybrid cycles have a report, which passed exactly when the agent's own proposal
      is run; the other modes have none. */
  predicate ReportTells(course: Course, mode: DecisionMode, report: Option<TrustReport>) {
    if mode == Hybrid then report.Some? && (report.value.passed <==> course.Runs? && !course.fallback)
    else report == None
  }

  /** A result and its calls are those of a course: one executor call, with this
      cycle's ids, if an action is run and not refused for being late. */
  predicate Takes(course: Course, late: bool, mode: DecisionMode, input: DecisionInput,
                  result: Result<CycleResult, Failure>, calls: seq<Call>) {
    var made := ExecutorCalls(calls);
    && (result.Success? ==> ReportTells(course, mode, result.value.trustReport))
    && match course
    case Raises(failure) => made == [] && result == Result.Failure(failure)
    case Stops(outcome) => made == [] && result.Success? && result.value.outcome == outcome
    case Runs(action, fallback) =>
      && result.Success? && result.value.proposal == Some(action)
      && if late then
           && made == [] && result.value.outcome == DeadlinePassed
           && result.value.executionReceipt.Some?
           && result.value.executionReceipt.value.finalAction == action
           && result.value.executionReceipt.value.fallbackTriggered == fallback
           && Truthy(result.value.executionReceipt.value.executionFailureReason)
         else
           made == [ExecutorCall(action, mode, input.runId, input.cycleId, input.carbonSnapshot.snapshotId,
                                 input.configHash, fallback)]
  }

  // ---- the courses

  /** The action for a candidate: delayed, or now in the default or another region. */
  function ActionFor(cfg: WorkflowConfig, input: DecisionInput, c: ScheduleCandidate): ActionProposal {
    var kind := if c.scheduledTime > input.earliestStart then DelayUntil
                else if c.targetRegion == cfg.defaultRegion then RunNow
                else RunInRegion;
    ActionProposal(kind, c.targetRegion, input.targetService, Some(c.scheduledTime), input.workloadProfile,
                   c.expectedP95LatencyMs, [])
  }

  /** The scheduler on an input: an optimal candidate of the built request, unless
      nothing is feasible or the solver does not answer. A request that cannot be
      built raises, or counts as infeasible. */
  ghost predicate SchedulerCourse(cfg: WorkflowConfig, solver: Solver, input: DecisionInput, fallback: bool,
                                  raises: bool, course: Course)
  {
    var built := BuildRequest(input, cfg.defaultRegion, cfg.catalog, cfg.slotMinutes);
    if built.Failure? then course == if raises then Raises(built.error) else Stops(NoFeasibleSlot)
    else if !SomeFeasible(built.value) then course == Stops(NoFeasibleSlot)
    else if !Answers(solver, built.value) then course == Stops(NoSolver)
    else exists best :: IsOptimal(best, built.value) && course == Runs(ActionFor(cfg, input, best), fallback)
  }

  /** The catalog latency of a region, or why there is none. */
  predicate LatencyIs(cfg: WorkflowConfig, profile: string, region: string, latency: Result<real, Failure>) {
    if profile !in cfg.catalog then latency == Result.Failure(MissingLatencyProfile)
    else if region !in cfg.catalog[profile] then latency == Result.Failure(MissingLatencyRegion)
    else if cfg.catalog[profile][region] <= 0.0 then latency == Result.Failure(NonPositiveLatency)
    else latency == Success(cfg.catalog[profile][region])
  }

  /** The static reference: the default region at the earliest start. */
  ghost predicate StaticCourse(cfg: WorkflowConfig, input: DecisionInput, course: Course) {
    var region := cfg.defaultRegion;
    if region in input.candidateRegions && region in input.clusterAvailable && input.clusterAvailable[region] then
      exists latency ::
        && LatencyIs(cfg, input.workloadProfile, region, latency)
        && course == if latency.Failure? then Raises(latency.error)
                     else Runs(ActionProposal(RunNow, region, input.targetService, Some(input.earliestStart),
                                              input.workloadProfile, latency.value, []), false)
    else course == Stops(NoFeasibleSlot)
  }

  /** The documents the agent and the evaluator see: those not all of spaces, in order. */
  lemma {:induction false} DocumentsAreNonBlank(a: seq<string>, document: string, b: seq<string>)
    ensures NonBlank(a + [document] + b)
            == NonBlank(a) + (if AllSpace(document) then [] else [document]) + NonBlank(b)
  {
    BlankIff(document);
    if b == [] {
      assert a + [document] + b == a + [document] && (a + [document])[..|a|] == a;
    } else {
      DocumentsAreNonBlank(a, document, b[..|b| - 1]);
      assert (a + [document] + b)[..|a + [document] + b| - 1] == a + [document] + b[..|b| - 1];
    }
  }

  /** What the agent proposed, if there is an agent and it answered. */
  function Proposal(cfg: WorkflowConfig, c: Cycle): Option<ActionProposal> {
    if !cfg.agentConfigured then None
    else
      match c.env.propose(c.input, c.graph, NonBlank(c.retrieved))
      case Proposed(proposal) => Some(proposal)
      case AgentFailed => None
  }

  /** The hard rails of the v2 family hold and the evaluator's mean reaches the threshold. */
  ghost predicate AdmittedByV2(cfg: WorkflowConfig, c: Cycle, proposal: ActionProposal)
    requires c.input.Valid()
  {
    var reply := c.env.evaluate(EvaluatorCall(c.input, proposal, NonBlank(c.retrieved), c.graph));
    && FitsInput(c.input, c.graph, proposal)
    && DataRailsPass(cfg, c.env, c.input)
    && CitesSupplied(c.input, proposal)
    && WorthTheOptimum(cfg, c.env, c.input, proposal)
    && (cfg.gate.modelFeasibilityRail.GetOr(cfg.gate.profile == V21) ==> FeasibleSlot(cfg, c.input, proposal))
    && cfg.evaluatorConfigured && reply.Scores?
    && Reaches(reply.faithfulness, reply.contextPrecision, cfg.policy.weights, cfg.policy.threshold)
  }

  /** The as-built gate on a proposal: an exception, its admission, or the fallback. */
  ghost predicate AsBuiltCourse(cfg: WorkflowConfig, via: Orchestration, c: Cycle, proposal: ActionProposal,
                                course: Course)
  {
    var reply := c.env.evaluate(EvaluatorCall(c.input, proposal, NonBlank(c.retrieved), c.graph));
    var scored := cfg.evaluatorConfigured && reply.Scores?;
    var sum := if scored then FullRailsSum(c.input, cfg.policy.weights, reply.faithfulness, reply.contextPrecision)
               else 0.0;
    var inUnit := scored && 0.0 <= reply.faithfulness <= 1.0 && 0.0 <= reply.contextPrecision <= 1.0;
    var fits := FitsInput(c.input, c.graph, proposal);
    if scored && (!inUnit || (fits && sum > 1.0)) then course == Raises(ScoreOutOfRange)
    else if inUnit && fits && cfg.policy.threshold <= sum then course == Runs(proposal, false)
    else SchedulerCourse(cfg, c.env.solver, c.input, true, via == Direct, course)
  }

  /** The gate on a proposal, of either profile family. */
  ghost predicate JudgedCourse(cfg: WorkflowConfig, via: Orchestration, c: Cycle, proposal: ActionProposal,
                               course: Course)
    requires c.input.Valid()
  {
    if cfg.gate.profile == AsBuilt then AsBuiltCourse(cfg, via, c, proposal, course)
    else if AdmittedByV2(cfg, c, proposal) then course == Runs(proposal, false)
    else SchedulerCourse(cfg, c.env.solver, c.input, true, via == Direct, course)
  }

  /** Every observation of a snapshot is recent enough for a last-known-good cycle. */
  ghost predicate StillGood(cfg: WorkflowConfig, c: Cycle, snapshot: CarbonSnapshot) {
    var at := if cfg.clockSupplied || cfg.realExecutor then c.env.cycleNow else c.input.carbonSnapshot.decisionTime;
    forall r :: r in snapshot.regions ==>
      (at - snapshot.regions[r].current.timestamp) as real / 1000000.0 <= cfg.gate.lastKnownGoodMaxAgeSeconds
  }

  /** The scheduler has an action for this input. */
  ghost predicate Schedulable(cfg: WorkflowConfig, solver: Solver, input: DecisionInput) {
    var built := BuildRequest(input, cfg.defaultRegion, cfg.catalog, cfg.slotMinutes);
    built.Success? && SomeFeasible(built.value) && Answers(solver, built.value)
  }

  /** After failed data rails: the scheduler on the last-known-good snapshot if that
      is recent enough and gives an action, else a hold where the last session ran. */
  ghost predicate DataIntegrityCourse(cfg: WorkflowConfig, state: RunState, c: Cycle, course: Course) {
    var good := state.lastKnownGood;
    if good.Some? && StillGood(cfg, c, good.value)
       && Schedulable(cfg, c.env.solver, c.input.(carbonSnapshot := good.value)) then
      SchedulerCourse(cfg, c.env.solver, c.input.(carbonSnapshot := good.value), true, true, course)
    else
      var placed := state.lastPlacement;
      var region := if placed.Some? && placed.value != "" then placed.value else cfg.defaultRegion;
      exists latency ::
        && LatencyIs(cfg, c.input.workloadProfile, region, latency)
        && course == if latency.Failure? then Raises(latency.error) else Stops(DataIntegrityHold)
  }

  /** The course of a cycle: by mode, and for a hybrid cycle by its data rails, its
      agent and its gate. */
  ghost predicate CourseOf(cfg: WorkflowConfig, via: Orchestration, state: RunState, c: Cycle, course: Course)
    requires c.input.Valid()
  {
    var proposal := Proposal(cfg, c);
    match c.mode
    case MilpOnly => SchedulerCourse(cfg, c.env.solver, c.input, false, via == Direct, course)
    case StaticReference => StaticCourse(cfg, c.input, course)
    case LlmOnly =>
      course == if proposal.None? then Stops(ProposalMissing)
                else if FitsInput(c.input, c.graph, proposal.value) then Runs(proposal.value, false)
                else Stops(ProposalRejected)
    case Hybrid =>
      if cfg.gate.profile != AsBuilt && !DataRailsPass(cfg, c.env, c.input) then
        DataIntegrityCourse(cfg, state, c, course)
      else if proposal.None? then SchedulerCourse(cfg, c.env.solver, c.input, true, via == Direct, course)
      else JudgedCourse(cfg, via, c, proposal.value, course)
  }

  // ---- both backends take it

  lemma PerformTakes(cfg: WorkflowConfig, env: Environment, mode: DecisionMode, input: DecisionInput,
                     proposal: ActionProposal, report: Option<TrustReport>, schedule: Option<ScheduleResult>,
                     fallback: bool)
    requires ReportTells(Runs(proposal, fallback), mode, report)
    ensures var (result, calls) := Perform(cfg, env, mode, input, proposal, report, schedule, fallback);
            Takes(Runs(proposal, fallback), Late(cfg, env, input), mode, input, Success(result), calls)
  {
    OneCall(Execute(CallFor(mode, input, proposal, fallback)));
  }

  lemma ExecuteTakes(env: Environment, s: NodeState)
    requires s.terminalOutcome.None? && s.proposal.Some?
    requires ReportTells(Runs(s.proposal.value, s.fallbackTriggered), s.mode, s.trustReport)
    ensures var (executed, calls) := ExecuteNode(env, s);
            Takes(Runs(s.proposal.value, s.fallbackTriggered), false, s.mode, s.input,
                  Success(RecordResult(executed)), calls)
  {
    OneCall(Execute(CallFor(s.mode, s.input, s.proposal.value, s.fallbackTriggered)));
  }

  lemma TakesAfterAsking(course: Course, late: bool, mode: DecisionMode, input: DecisionInput,
                         result: Result<CycleResult, Failure>, asked: seq<Call>, calls: seq<Call>)
    requires !Dispatches(asked) && Takes(course, late, mode, input, result, calls)
    ensures Takes(course, late, mode, input, result, asked + calls)
  {
    NoDispatchNoCalls(asked);
    ExecutorCallsAppend(asked, calls);
    assert [] + ExecutorCalls(calls) == ExecutorCalls(calls);
  }

  /** The proposal made from a schedule is the action of an optimal candidate. */
  lemma ScheduleIsActionFor(cfg: WorkflowConfig, solver: Solver, input: DecisionInput, request: SchedulingRequest)
    returns (best: ScheduleCandidate)
    requires BuildRequest(input, cfg.defaultRegion, cfg.catalog, cfg.slotMinutes) == Success(request)
    requires SolveSchedule(request, solver).Selected?
    ensures IsOptimal(best, request)
    ensures ProposalFromSchedule(SolveSchedule(request, solver), input) == ActionFor(cfg, input, best)
  {
    SolveIsExact(request, solver);
    best :| IsOptimal(best, request) && Selects(SolveSchedule(request, solver), best, request);
  }

  /** Which course the scheduler takes. */
  lemma SchedulerCourseOf(cfg: WorkflowConfig, solver: Solver, input: DecisionInput, fallback: bool, raises: bool)
    returns (course: Course)
    ensures SchedulerCourse(cfg, solver, input, fallback, raises, course)
    ensures var built := BuildRequest(input, cfg.defaultRegion, cfg.catalog, cfg.slotMinutes);
            course == if built.Failure? then (if raises then Raises(built.error) else Stops(NoFeasibleSlot))
                      else
                        var schedule := SolveSchedule(built.value, solver);
                        if schedule.Selected? then Runs(ProposalFromSchedule(schedule, input), fallback)
                        else if schedule.Infeasible? then Stops(NoFeasibleSlot)
                        else Stops(NoSolver)
  {
    var built := BuildRequest(input, cfg.defaultRegion, cfg.catalog, cfg.slotMinutes);
    if built.Failure? {
      return if raises then Raises(built.error) else Stops(NoFeasibleSlot);
    }
    var schedule := SolveSchedule(built.value, solver);
    SolveIsExact(built.value, solver);
    if schedule.Selected? {
      var best := ScheduleIsActionFor(cfg, solver, input, built.value);
      return Runs(ProposalFromSchedule(schedule, input), fallback);
    }
    return Stops(if schedule.Infeasible? then NoFeasibleSlot else NoSolver);
  }

  lemma RunMilpTakes(cfg: WorkflowConfig, env: Environment, input: DecisionInput, fallback: bool,
                     report: Option<TrustReport>)
    returns (course: Course)
    requires if fallback then report.Some? && !report.value.passed else report == None
    ensures SchedulerCourse(cfg, env.solver, input, fallback, true, course)
    ensures var (result, calls) := RunMilp(cfg, env, input, fallback, report);
            Takes(course, Late(cfg, env, input), if fallback then Hybrid else MilpOnly, input, result, calls)
  {
    course := SchedulerCourseOf(cfg, env.solver, input, fallback, true);
    if ReferenceSelected(cfg, env, input) {
      var schedule := Reference(cfg, env, input).value.1;
      PerformTakes(cfg, env, if fallback then Hybrid else MilpOnly, input, ProposalFromSchedule(schedule, input),
                   report, Some(schedule), fallback);
    }
  }

  /** The course of a node state whose action has been chosen. */
  function ChosenCourse(chosen: Result<NodeState, Failure>): Course {
    if chosen.Failure? then Raises(chosen.error)
    else if chosen.value.terminalOutcome.Some? then Stops(chosen.value.terminalOutcome.value)
    else if chosen.value.proposal.Some? then Runs(chosen.value.proposal.value, chosen.value.fallbackTriggered)
    else Stops(ProposalMissing)
  }

  /** Executing and recording follow what was chosen. */
  lemma ConcludeTakes(cfg: WorkflowConfig, env: Environment, s: NodeState, agent: Option<ActionProposal>,
                      asked: seq<Call>)
    requires !Dispatches(asked)
    requires var chosen := ChooseFinalAction(cfg, env, s);
             chosen.Success? ==> ReportTells(ChosenCourse(chosen), s.mode, chosen.value.trustReport)
    ensures var attempt := Conclude(cfg, env, s, agent, asked);
            Takes(ChosenCourse(ChooseFinalAction(cfg, env, s)), false, s.mode, s.input, attempt.result, attempt.calls)
  {
    NoDispatchNoCalls(asked);
    var chosen := ChooseFinalAction(cfg, env, s);
    if chosen.Success? {
      ChoosingChooses(cfg, env, s);
      var (executed, calls) := ExecuteNode(env, chosen.value);
      if chosen.value.terminalOutcome.None? && chosen.value.proposal.Some? {
        ExecuteTakes(env, chosen.value);
      }
      TakesAfterAsking(ChosenCourse(chosen), false, s.mode, s.input, Success(RecordResult(executed)), asked, calls);
    }
  }

  lemma ScheduleChooses(cfg: WorkflowConfig, env: Environment, s: NodeState, fallback: bool) returns (course: Course)
    requires s.terminalOutcome.None?
    ensures SchedulerCourse(cfg, env.solver, s.input, fallback, false, course)
    ensures course == ChosenCourse(Success(Schedule(cfg, env, s, fallback)))
  {
    course := SchedulerCourseOf(cfg, env.solver, s.input, fallback, false);
  }

  /** The static proposal by field. */
  lemma StaticCourseOf(cfg: WorkflowConfig, input: DecisionInput) returns (course: Course)
    ensures StaticCourse(cfg, input, course)
    ensures var proposal := StaticProposal(cfg, input);
            course == match proposal
                      case Failure(e) => Raises(e)
                      case Success(None) => Stops(NoFeasibleSlot)
                      case Success(Some(p)) => Runs(p, false)
  {
    var latency := ExpectedLatency(cfg, input.workloadProfile, cfg.defaultRegion);
    assert LatencyIs(cfg, input.workloadProfile, cfg.defaultRegion, latency);
    match StaticProposal(cfg, input)
    case Failure(e) => course := Raises(e);
    case Success(None) => course := Stops(NoFeasibleSlot);
    case Success(Some(p)) => course := Runs(p, false);
  }

  /** The gate's verdict tells the course. */
  lemma VerdictTells(cfg: WorkflowConfig, via: Orchestration, c: Cycle, proposal: ActionProposal,
                     scheduled: Course, gated: Result<TrustReport, Failure>)
    requires c.input.Valid() && cfg.policy.weights.Valid()
    requires SchedulerCourse(cfg, c.env.solver, c.input, true, via == Direct, scheduled)
    requires gated == Verdict(cfg, c.env, c.input, c.graph, c.retrieved, proposal)
    ensures JudgedCourse(cfg, via, c, proposal,
                         if gated.Failure? then Raises(gated.error)
                         else if gated.value.passed then Runs(proposal, false)
                         else scheduled)
  {
    var documents := NonBlank(c.retrieved);
    if cfg.gate.profile == AsBuilt {
      AsBuiltAdmitsIff(cfg, c.env, c.input, c.graph, proposal, documents);
      AsBuiltRaises(cfg, c.env, c.input, proposal, ProposalRails(c.input, c.graph, proposal), documents, c.graph);
    } else {
      V2AdmitsIff(cfg, c.env, c.input, c.graph, proposal, documents);
      HardRailsPassIff(cfg, c.env, c.input, c.graph, proposal);
    }
  }

  lemma AsBuiltRaises(cfg: WorkflowConfig, env: Environment, input: DecisionInput, proposal: ActionProposal,
                      rails: seq<RailCheck>, documents: seq<string>, graph: GraphContext)
    ensures var report := AsBuiltGate(cfg, env, input, proposal, rails, documents, graph).0;
            report.Failure? ==> report.error == ScoreOutOfRange
  {
  }

  /** A flow's attempt takes a course of the cycle. */
  ghost predicate Follows(cfg: WorkflowConfig, via: Orchestration, c: Cycle, course: Course) {
    c.input.Valid() &&
    Takes(course, via == Direct && Late(cfg, c.env, c.input), c.mode, c.input, MainFlow(cfg, via, c).result,
          MainFlow(cfg, via, c).calls)
  }

  lemma DirectTakes(cfg: WorkflowConfig, c: Cycle) returns (course: Course)
    requires c.input.Valid() && c.mode != Hybrid
    ensures forall state :: CourseOf(cfg, Direct, state, c, course)
    ensures Follows(cfg, Direct, c, course)
  {
    match c.mode
    case MilpOnly => course := RunMilpTakes(cfg, c.env, c.input, false, None);
    case StaticReference =>
      course := StaticCourseOf(cfg, c.input);
      if course.Runs? {
        PerformTakes(cfg, c.env, StaticReference, c.input, course.action, None, None, false);
      }
    case LlmOnly =>
      course := LlmCourseOf(cfg, c);
      if course.Runs? {
        PerformTakes(cfg, c.env, LlmOnly, c.input, course.action, None, None, false);
      }
  }

  lemma LlmCourseOf(cfg: WorkflowConfig, c: Cycle) returns (course: Course)
    requires c.input.Valid() && c.mode == LlmOnly
    ensures forall via, state :: CourseOf(cfg, via, state, c, course)
    ensures var reply := AskAgent(cfg, c.env, c.input, c.graph, NonBlank(c.retrieved));
            course == match reply
                      case AgentFailed => Stops(ProposalMissing)
                      case Proposed(p) =>
                        if AllPassed(ProposalRails(c.input, c.graph, p)) then Runs(p, false)
                        else Stops(ProposalRejected)
  {
    match AskAgent(cfg, c.env, c.input, c.graph, NonBlank(c.retrieved))
    case AgentFailed => course := Stops(ProposalMissing);
    case Proposed(p) =>
      ProposalRailsPassIff(p, c.input.candidateRegions, AllowedServices(c.graph, c.input), c.input.earliestStart,
                           c.input.deadline, c.input.clusterAvailable, c.input.p95SloLimitMs);
      course := if AllPassed(ProposalRails(c.input, c.graph, p)) then Runs(p, false) else Stops(ProposalRejected);
  }

  /** The node state from which a cycle concludes outside the hybrid mode. */
  function Ready(cfg: WorkflowConfig, c: Cycle): NodeState {
    ProposeAction(cfg, c.env, CollectContext(Initial(c.mode, c.input, c.graph, c.retrieved)))
  }

  lemma NodesConclude(cfg: WorkflowConfig, c: Cycle)
    requires c.input.Valid() && c.mode != Hybrid
    ensures MainFlow(cfg, LangGraph, c) == Conclude(cfg, c.env, Ready(cfg, c), Ready(cfg, c).proposal, [])
  {
  }

  lemma NodesTake(cfg: WorkflowConfig, c: Cycle) returns (course: Course)
    requires c.input.Valid() && c.mode != Hybrid
    ensures forall state :: CourseOf(cfg, LangGraph, state, c, course)
    ensures Follows(cfg, LangGraph, c, course)
  {
    NodesConclude(cfg, c);
    course := ReadyCourse(cfg, c);
    ConcludeTakes(cfg, c.env, Ready(cfg, c), Ready(cfg, c).proposal, []);
  }

  lemma ReadyCourse(cfg: WorkflowConfig, c: Cycle) returns (course: Course)
    requires c.input.Valid() && c.mode != Hybrid
    ensures forall state :: CourseOf(cfg, LangGraph, state, c, course)
    ensures var chosen := ChooseFinalAction(cfg, c.env, Ready(cfg, c));
            && course == ChosenCourse(chosen)
            && (chosen.Success? ==> chosen.value.trustReport == None)
    ensures Ready(cfg, c).mode == c.mode && Ready(cfg, c).input == c.input
  {
    match c.mode
    case MilpOnly => course := ScheduleChooses(cfg, c.env, Ready(cfg, c), false);
    case StaticReference => course := StaticCourseOf(cfg, c.input);
    case LlmOnly => course := LlmCourseOf(cfg, c);
  }

  /** A hybrid cycle whose agent gave no proposal, and one whose agent did. */
  lemma UnansweredTakes(cfg: WorkflowConfig, via: Orchestration, c: Cycle) returns (course: Course)
    requires c.input.Valid() && c.mode == Hybrid && Proposal(cfg, c).None?
    ensures SchedulerCourse(cfg, c.env.solver, c.input, true, via == Direct, course)
    ensures Follows(cfg, via, c, course)
  {
    if via == Direct {
      course := RunMilpTakes(cfg, c.env, c.input, true, Some(FailedReport(cfg)));
    } else {
      UnansweredRun(cfg, c.env, c.input, c.graph, c.retrieved);
      course := FailedNodeTakes(cfg, c.env, Unanswered(cfg, c.input, c.graph, c.retrieved));
    }
  }

  lemma FailedNodeTakes(cfg: WorkflowConfig, env: Environment, s: NodeState) returns (course: Course)
    requires s.mode == Hybrid && s.proposal.None? && s.terminalOutcome.None?
    requires s.trustReport.Some? && !s.trustReport.value.passed
    ensures SchedulerCourse(cfg, env.solver, s.input, true, false, course)
    ensures var attempt := Conclude(cfg, env, s, None, []);
            Takes(course, false, Hybrid, s.input, attempt.result, attempt.calls)
  {
    course := ScheduleChooses(cfg, env, s, true);
    ConcludeTakes(cfg, env, s, None, []);
  }

  /** A judged proposal on the direct backend. */
  lemma ActingTakes(cfg: WorkflowConfig, env: Environment, input: DecisionInput, proposal: ActionProposal,
                    report: TrustReport, asked: seq<Call>)
    returns (scheduled: Course)
    requires !Dispatches(asked)
    ensures SchedulerCourse(cfg, env.solver, input, true, true, scheduled)
    ensures var attempt := Acting(cfg, env, input, proposal, report, asked);
            Takes(if report.passed then Runs(proposal, false) else scheduled, Late(cfg, env, input), Hybrid, input,
                  attempt.result, attempt.calls)
  {
    if report.passed {
      scheduled := SchedulerCourseOf(cfg, env.solver, input, true, true);
      PerformTakes(cfg, env, Hybrid, input, proposal, Some(report), None, false);
    } else {
      scheduled := RunMilpTakes(cfg, env, input, true, Some(report));
    }
    var (result, calls) := ActOn(cfg, env, input, proposal, report);
    TakesAfterAsking(if report.passed then Runs(proposal, false) else scheduled, Late(cfg, env, input), Hybrid, input,
                     result, asked, calls);
  }

  /** A judged proposal on the nodes. */
  lemma JudgedNodeTakes(cfg: WorkflowConfig, env: Environment, s: NodeState, asked: seq<Call>)
    returns (scheduled: Course)
    requires s.mode == Hybrid && s.proposal.Some? && s.trustReport.Some? && s.terminalOutcome.None?
    requires !Dispatches(asked)
    ensures SchedulerCourse(cfg, env.solver, s.input, true, false, scheduled)
    ensures var attempt := Conclude(cfg, env, s, s.proposal, asked);
            Takes(if s.trustReport.value.passed then Runs(s.proposal.value, false) else scheduled, false, Hybrid,
                  s.input, attempt.result, attempt.calls)
  {
    ConcludeTakes(cfg, env, s, s.proposal, asked);
    scheduled := ScheduleChooses(cfg, env, s, true);
  }

  /** The same for either gate verdict, an exception included. */
  lemma GatedTakes(cfg: WorkflowConfig, via: Orchestration, c: Cycle, proposal: ActionProposal,
                   gated: Result<TrustReport, Failure>, asked: seq<Call>, attempt: Attempt)
    returns (scheduled: Course)
    requires c.mode == Hybrid && !Dispatches(asked)
    requires attempt == if gated.Failure? then Attempt(Result.Failure(gated.error), Some(proposal), asked)
                        else if via == Direct then Acting(cfg, c.env, c.input, proposal, gated.value, asked)
                        else Conclude(cfg, c.env, Judged(c.input, c.graph, c.retrieved, proposal, gated.value),
                                      Some(proposal), asked)
    ensures SchedulerCourse(cfg, c.env.solver, c.input, true, via == Direct, scheduled)
    ensures Takes(if gated.Failure? then Raises(gated.error)
                  else if gated.value.passed then Runs(proposal, false)
                  else scheduled,
                  via == Direct && Late(cfg, c.env, c.input), Hybrid, c.input, attempt.result, attempt.calls)
  {
    if gated.Failure? {
      scheduled := SchedulerCourseOf(cfg, c.env.solver, c.input, true, via == Direct);
      NoDispatchNoCalls(asked);
    } else if via == Direct {
      scheduled := ActingTakes(cfg, c.env, c.input, proposal, gated.value, asked);
    } else {
      scheduled := JudgedNodeTakes(cfg, c.env, Judged(c.input, c.graph, c.retrieved, proposal, gated.value), asked);
    }
  }

  lemma JudgedTakes(cfg: WorkflowConfig, via: Orchestration, c: Cycle, proposal: ActionProposal)
    returns (course: Course)
    requires c.input.Valid() && c.mode == Hybrid && Proposal(cfg, c) == Some(proposal) && cfg.policy.weights.Valid()
    ensures JudgedCourse(cfg, via, c, proposal, course)
    ensures Follows(cfg, via, c, course)
  {
    var (gated, asked) := Gate(cfg, c.env, c.input, proposal, ProposalRails(c.input, c.graph, proposal),
                               NonBlank(c.retrieved), c.graph);
    GateNeverExecutes(cfg, c.env, c.input, proposal, ProposalRails(c.input, c.graph, proposal), NonBlank(c.retrieved),
                      c.graph);
    JudgedRun(cfg, c.env, c.input, c.graph, c.retrieved, proposal);
    JudgedDirect(cfg, c.env, c.input, c.graph, c.retrieved, proposal);
    var scheduled := GatedTakes(cfg, via, c, proposal, gated, asked, MainFlow(cfg, via, c));
    VerdictTells(cfg, via, c, proposal, scheduled, gated);
    course := if gated.Failure? then Raises(gated.error)
              else if gated.value.passed then Runs(proposal, false)
              else scheduled;
  }

  lemma DataIntegrityTakes(cfg: WorkflowConfig, state: RunState, c: Cycle) returns (course: Course)
    requires c.input.Valid() && Healthy(state)
    ensures DataIntegrityCourse(cfg, state, c, course)
    ensures var attempt := DataIntegrityFlow(cfg, c.env, state, c.input);
            Takes(course, Late(cfg, c.env, c.input), Hybrid, c.input, attempt.result, attempt.calls)
  {
    UsableIff(cfg, state, c);
    if LastKnownGoodUsable(cfg, c.env, state, c.input) {
      var good := OnLastKnownGood(c.input, state.lastKnownGood.value);
      var schedule := Reference(cfg, c.env, good).value.1;
      var failed := FailedChecks(DataRailChecks(cfg, c.env, c.input));
      course := SchedulerCourseOf(cfg, c.env.solver, good, true, true);
      PerformTakes(cfg, c.env, Hybrid, c.input, ProposalFromSchedule(schedule, good),
                   Some(DataIntegrityReport(cfg, failed)), Some(schedule), true);
    } else {
      var latency := ExpectedLatency(cfg, c.input.workloadProfile, HeldRegion(cfg, state));
      assert LatencyIs(cfg, c.input.workloadProfile, HeldRegion(cfg, state), latency);
      course := if latency.Failure? then Raises(latency.error) else Stops(DataIntegrityHold);
    }
  }

  /** When the last-known-good snapshot can be used. */
  lemma UsableIff(cfg: WorkflowConfig, state: RunState, c: Cycle)
    ensures LastKnownGoodUsable(cfg, c.env, state, c.input)
            <==> && state.lastKnownGood.Some?
                 && StillGood(cfg, c, state.lastKnownGood.value)
                 && Schedulable(cfg, c.env.solver, c.input.(carbonSnapshot := state.lastKnownGood.value))
  {
    if state.lastKnownGood.Some? {
      var good := c.input.(carbonSnapshot := state.lastKnownGood.value);
      var built := BuildRequest(good, cfg.defaultRegion, cfg.catalog, cfg.slotMinutes);
      if built.Success? {
        SolveIsExact(built.value, c.env.solver);
      }
      var at := AgeReference(cfg, c.env, c.input);
      forall r | r in state.lastKnownGood.value.regions
        ensures ObservationAge(state.lastKnownGood.value.regions[r], at)
                == (at - state.lastKnownGood.value.regions[r].current.timestamp) as real / 1000000.0
      {
      }
    }
  }

  // ---- whole cycles

  /** Stamping keeps what a course says. */
  lemma FinishTakes(cfg: WorkflowConfig, state: RunState, attempt: Attempt, course: Course, late: bool,
                    mode: DecisionMode, input: DecisionInput)
    requires Takes(course, late, mode, input, attempt.result, attempt.calls)
    ensures var step := Finish(cfg, state, attempt); Takes(course, late, mode, input, step.result, step.calls)
    ensures var step := Finish(cfg, state, Annotated(attempt));
            Takes(course, late, mode, input, step.result, step.calls)
  {
  }

  lemma MainTakes(cfg: WorkflowConfig, via: Orchestration, state: RunState, c: Cycle) returns (course: Course)
    requires c.input.Valid() && cfg.policy.weights.Valid()
    requires Gated(cfg, c) ==> Clean(cfg, c)
    ensures CourseOf(cfg, via, state, c, course)
    ensures Follows(cfg, via, c, course)
  {
    if c.mode == Hybrid {
      if Proposal(cfg, c).None? {
        course := UnansweredTakes(cfg, via, c);
      } else {
        course := JudgedTakes(cfg, via, c, Proposal(cfg, c).value);
      }
    } else if via == Direct {
      course := DirectTakes(cfg, c);
    } else {
      course := NodesTake(cfg, c);
    }
  }

  /** Every cycle takes its course, on either backend and from any healthy state:
      it raises, stops or calls the executor once, as the mode, the data rails, the
      agent, the gate, the scheduler and the deadline say, and not otherwise. The
      nodes have no deadline test, except after failed data rails. */
  lemma CycleTakesItsCourse(cfg: WorkflowConfig, via: Orchestration, state: RunState, c: Cycle)
    returns (course: Course)
    requires c.input.Valid() && Healthy(state) && cfg.policy.weights.Valid()
    ensures CourseOf(cfg, via, state, c, course)
    ensures var step := CycleStep(cfg, via, state, c);
            var checked := via == Direct || (Gated(cfg, c) && !Clean(cfg, c));
            Takes(course, checked && Late(cfg, c.env, c.input), c.mode, c.input, step.result, step.calls)
  {
    if Gated(cfg, c) && !Clean(cfg, c) {
      course := DataIntegrityTakes(cfg, state, c);
      FinishTakes(cfg, state, DataIntegrityFlow(cfg, c.env, state, c.input), course, Late(cfg, c.env, c.input), c.mode,
                  c.input);
    } else {
      course := MainTakes(cfg, via, state, c);
      var late := via == Direct && Late(cfg, c.env, c.input);
      FinishTakes(cfg, state, MainFlow(cfg, via, c), course, late, c.mode, c.input);
      FinishTakes(cfg, state.(lastKnownGood := Some(c.input.carbonSnapshot)), MainFlow(cfg, via, c), course, late,
                  c.mode, c.input);
    }
  }

  /** A cycle has one course: its configuration, state, inputs and answers leave
      no choice. */
  lemma CourseIsUnique(cfg: WorkflowConfig, via: Orchestration, state: RunState, c: Cycle, a: Course, b: Course)
    requires c.input.Valid() && Healthy(state)
    requires CourseOf(cfg, via, state, c, a) && CourseOf(cfg, via, state, c, b)
    ensures a == b
  {
    if c.mode == Hybrid && cfg.gate.profile != AsBuilt && !DataRailsPass(cfg, c.env, c.input) {
      DataIntegrityIsUnique(cfg, state, c, a, b);
    } else {
      SchedulerIsUnique(cfg, c.env.solver, c.input, c.mode == Hybrid, via == Direct, a, b);
      if c.mode == Hybrid && Proposal(cfg, c).Some? {
        JudgedIsUnique(cfg, via, c, Proposal(cfg, c).value, a, b);
      }
    }
  }

  lemma JudgedIsUnique(cfg: WorkflowConfig, via: Orchestration, c: Cycle, proposal: ActionProposal, a: Course,
                       b: Course)
    requires c.input.Valid()
    requires JudgedCourse(cfg, via, c, proposal, a) && JudgedCourse(cfg, via, c, proposal, b)
    ensures a == b || (SchedulerCourse(cfg, c.env.solver, c.input, true, via == Direct, a)
                       && SchedulerCourse(cfg, c.env.solver, c.input, true, via == Direct, b))
  {
  }

  lemma DataIntegrityIsUnique(cfg: WorkflowConfig, state: RunState, c: Cycle, a: Course, b: Course)
    requires c.input.Valid() && Healthy(state)
    ensures a == b || !(DataIntegrityCourse(cfg, state, c, a) && DataIntegrityCourse(cfg, state, c, b))
  {
    if state.lastKnownGood.Some? {
      var good := c.input.(carbonSnapshot := state.lastKnownGood.value);
      BuildableIff(good, cfg.defaultRegion, cfg.catalog, cfg.slotMinutes);
      SchedulerIsUnique(cfg, c.env.solver, good, true, true, a, b);
    }
  }

  lemma SchedulerIsUnique(cfg: WorkflowConfig, solver: Solver, input: DecisionInput, fallback: bool, raises: bool,
                          a: Course, b: Course)
    ensures a == b || !(&& input.Valid()
                        && SchedulerCourse(cfg, solver, input, fallback, raises, a)
                        && SchedulerCourse(cfg, solver, input, fallback, raises, b))
  {
    var built := BuildRequest(input, cfg.defaultRegion, cfg.catalog, cfg.slotMinutes);
    if built.Success? && input.Valid() {
      BuiltOptimaShareLatency(input, cfg.defaultRegion, cfg.catalog, cfg.slotMinutes, built.value);
      KeyLessIsStrictWeakOrder();
      forall x, y | IsOptimal(x, built.value) && IsOptimal(y, built.value)
        ensures ActionFor(cfg, input, x) == ActionFor(cfg, input, y)
      {
        assert SameKey(x, y);
      }
    }
  }

  /** The proposal and the profile on record: the agent's own proposal where it was
      asked, whatever was done with it, and no proposal where it was not. */
  lemma AgentIsRecorded(cfg: WorkflowConfig, via: Orchestration, state: RunState, c: Cycle)
    requires c.input.Valid() && Healthy(state)
    ensures var result := CycleStep(cfg, via, state, c).result;
            var asked := c.mode == LlmOnly || (c.mode == Hybrid && (Gated(cfg, c) ==> Clean(cfg, c)));
            result.Success? ==>
              && result.value.agentProposal == (if asked then Proposal(cfg, c) else None)
              && result.value.gateProfile == Some(cfg.gate.profile)
  {
    if !Gated(cfg, c) || Clean(cfg, c) {
      AgentIsCaptured(cfg, via, c);
    }
  }

  lemma AgentIsCaptured(cfg: WorkflowConfig, via: Orchestration, c: Cycle)
    requires c.input.Valid()
    ensures MainFlow(cfg, via, c).agentProposal
            == if c.mode == LlmOnly || c.mode == Hybrid then Proposal(cfg, c) else None
  {
  }
}
