/** What one decision cycle does, as functions of the configuration, the state
    carried between cycles, the inputs and the behaviour of the agent, the
    evaluator, the solver, the clock and the executor. There is no memo here:
    the reference schedule is built and solved wherever it is needed. */
module Decision {
  import opened Wrappers
  import opened Schemas
  import opened Milp
  import opened Request
  import opened Trust
  import opened DataRails

  // ---- configuration and environment

  datatype Orchestration = Direct | LangGraph

  datatype WorkflowConfig = WorkflowConfig(
    agentConfigured: bool,
    evaluatorConfigured: bool,
    policy: TrustPolicy,
    defaultRegion: string,
    catalog: LatencyCatalog,
    slotMinutes: Option<int>,
    gate: GatePolicy,
    realExecutor: bool,
    clockSupplied: bool) {

    /** A real executor gets the wall clock when none is supplied. */
    predicate HasClock() {
      clockSupplied || realExecutor
    }

    predicate ChecksDeadline() {
      realExecutor && gate.profile.IsV2Family()
    }
  }

  /** The graph context: the service allow-list, when present, and the rest. */
  datatype GraphContext = GraphContext(allowedServices: Option<seq<string>>, payload: string)

  function AllowedServices(graph: GraphContext, input: DecisionInput): seq<string> {
    graph.allowedServices.GetOr([input.targetService])
  }

  datatype AgentReply = Proposed(proposal: ActionProposal) | AgentFailed

  datatype EvaluatorCall = EvaluatorCall(input: DecisionInput, proposal: ActionProposal, documents: seq<string>,
                                         graph: GraphContext)

  datatype EvaluatorReply = Scores(faithfulness: real, contextPrecision: real) | EvaluatorRaised(message: string)

  datatype ExecutorCall = ExecutorCall(
    action: ActionProposal,
    mode: DecisionMode,
    runId: string,
    cycleId: string,
    carbonSnapshotId: string,
    configHash: string,
    fallbackTriggered: bool)

  datatype ExecutorReply = Returned(receipt: ExecutionReceipt) | ExecutorRaised

  /** The behaviour of everything outside the controller during one cycle. The
      two clock readings are those at the start of the cycle and at dispatch. */
  datatype Environment = Environment(
    cycleNow: int,
    dispatchNow: int,
    propose: (DecisionInput, GraphContext, seq<string>) -> AgentReply,
    evaluate: EvaluatorCall -> EvaluatorReply,
    solver: Solver,
    execute: ExecutorCall -> ExecutorReply)

  /** The calls a cycle makes to the evaluator and the executor, in order. */
  datatype Call = Evaluate(evaluation: EvaluatorCall) | Execute(execution: ExecutorCall)

  function CycleNow(cfg: WorkflowConfig, env: Environment): Option<int> {
    if cfg.HasClock() then Some(env.cycleNow) else None
  }

  function DispatchedAt(cfg: WorkflowConfig, env: Environment): Option<int> {
    if cfg.HasClock() then Some(env.dispatchNow) else None
  }

  // ---- results

  datatype Outcome =
    | DryRun | Executed | ExecutionFailed | DeadlinePassed | DataIntegrityHold
    | ProposalMissing | ProposalRejected | NoFeasibleSlot | NoSolver

  datatype LastKnownGoodUse = LastKnownGoodUse(snapshotId: string, age: int)

  datatype CycleResult = CycleResult(
    mode: DecisionMode,
    decisionInput: DecisionInput,
    proposal: Option<ActionProposal>,
    trustReport: Option<TrustReport>,
    scheduleResult: Option<ScheduleResult>,
    executionReceipt: Option<ExecutionReceipt>,
    outcome: Outcome,
    agentProposal: Option<ActionProposal>,
    gateProfile: Option<GateProfile>,
    decisionSource: Option<DecisionSource>,
    alert: bool,
    alertLevel: Option<AlertLevel>,
    failedDataRails: Option<seq<RailName>>,
    lastKnownGood: Option<LastKnownGoodUse>)

  function Plain(
    mode: DecisionMode,
    input: DecisionInput,
    proposal: Option<ActionProposal>,
    report: Option<TrustReport>,
    schedule: Option<ScheduleResult>,
    receipt: Option<ExecutionReceipt>,
    outcome: Outcome): CycleResult
  {
    CycleResult(mode, input, proposal, report, schedule, receipt, outcome, None, None, None, false, None, None, None)
  }

  /** What part of a cycle produced: a result or an exception, and its calls. */
  datatype Attempt = Attempt(result: Result<CycleResult, Failure>, agentProposal: Option<ActionProposal>,
                             calls: seq<Call>)

  // ---- execution

  const DRY_RUN_PREFIX := "dry-run:"

  function WithSloStatus(receipt: ExecutionReceipt, input: DecisionInput): ExecutionReceipt {
    if Truthy(receipt.executionFailureReason) then receipt.(sloPassed := None)
    else if receipt.actualP95LatencyMs.None? || receipt.actualErrorRate.None? then receipt
    else receipt.(sloPassed := Some(receipt.actualP95LatencyMs.value <= input.p95SloLimitMs
                                    && receipt.actualErrorRate.value <= input.errorRateLimit))
  }

  /** An empty failure reason counts as none. */
  function OutcomeOf(receipt: ExecutionReceipt): Outcome {
    var reason := receipt.executionFailureReason.GetOr("");
    if DRY_RUN_PREFIX <= reason then DryRun
    else if Truthy(receipt.executionFailureReason) then ExecutionFailed
    else Executed
  }

  function CallFor(mode: DecisionMode, input: DecisionInput, proposal: ActionProposal, fallback: bool): ExecutorCall {
    ExecutorCall(proposal, mode, input.runId, input.cycleId, input.carbonSnapshot.snapshotId, input.configHash,
                 fallback)
  }

  /** The dispatch check: real execution under the v2 family after the deadline. */
  predicate PastDeadline(cfg: WorkflowConfig, env: Environment, input: DecisionInput) {
    cfg.ChecksDeadline() && cfg.HasClock() && env.dispatchNow > input.deadline
  }

  function RefusedReceipt(mode: DecisionMode, input: DecisionInput, proposal: ActionProposal, fallback: bool,
                          at: int): ExecutionReceipt {
    ExecutionReceipt(input.runId, input.cycleId, mode, proposal, fallback, None, None, None,
                     Some("deadline passed"), None, None, true, Some(Critical), Some(at))
  }

  function Perform(cfg: WorkflowConfig, env: Environment, mode: DecisionMode, input: DecisionInput,
                   proposal: ActionProposal,
                   report: Option<TrustReport>, schedule: Option<ScheduleResult>, fallback: bool)
    : (CycleResult, seq<Call>)
  {
    if PastDeadline(cfg, env, input) then
      (Plain(mode, input, Some(proposal), report, schedule,
             Some(RefusedReceipt(mode, input, proposal, fallback, env.dispatchNow)), DeadlinePassed)
       .(alert := true, alertLevel := Some(Critical)), [])
    else
      var call := CallFor(mode, input, proposal, fallback);
      (match env.execute(call)
       case ExecutorRaised => Plain(mode, input, Some(proposal), report, schedule, None, ExecutionFailed)
       case Returned(raw) =>
         var checked := WithSloStatus(raw, input);
         var receipt := if cfg.HasClock() then checked.(dispatchedAt := Some(env.dispatchNow)) else checked;
         Plain(mode, input, Some(proposal), report, schedule, Some(receipt), OutcomeOf(receipt)),
       [Execute(call)])
  }

  // ---- the reference schedule

  function Reference(cfg: WorkflowConfig, env: Environment, input: DecisionInput)
    : Result<(SchedulingRequest, ScheduleResult), Failure>
  {
    var request :- BuildRequest(input, cfg.defaultRegion, cfg.catalog, cfg.slotMinutes);
    Success((request, SolveSchedule(request, env.solver)))
  }

  function OutcomeOfStatus(schedule: ScheduleResult): Outcome
    requires !schedule.Selected?
  {
    if schedule.Infeasible? then NoFeasibleSlot else NoSolver
  }

  function RunMilp(cfg: WorkflowConfig, env: Environment, input: DecisionInput, fallback: bool,
                   report: Option<TrustReport>)
    : (Result<CycleResult, Failure>, seq<Call>)
  {
    var mode := if fallback then Hybrid else MilpOnly;
    match Reference(cfg, env, input)
    case Failure(e) => (Result.Failure(e), [])
    case Success((_, schedule)) =>
      if schedule.Selected? then
        var (result, calls) := Perform(cfg, env, mode, input, ProposalFromSchedule(schedule, input), report,
                                       Some(schedule), fallback);
        (Success(result), calls)
      else
        (Success(Plain(mode, input, None, report, Some(schedule), None, OutcomeOfStatus(schedule))), [])
  }

  // ---- static reference and latency lookups

  function ExpectedLatency(cfg: WorkflowConfig, profile: string, region: string): Result<real, Failure> {
    if profile !in cfg.catalog then Result.Failure(MissingLatencyProfile)
    else if region !in cfg.catalog[profile] then Result.Failure(MissingLatencyRegion)
    else if cfg.catalog[profile][region] <= 0.0 then Result.Failure(NonPositiveLatency)
    else Success(cfg.catalog[profile][region])
  }

  /** The static action; absent when the default region is no candidate or unavailable. */
  function StaticProposal(cfg: WorkflowConfig, input: DecisionInput): Result<Option<ActionProposal>, Failure> {
    if cfg.defaultRegion !in input.candidateRegions then Success(None)
    else if !Lookup(input.clusterAvailable, cfg.defaultRegion, false) then Success(None)
    else
      var latency :- ExpectedLatency(cfg, input.workloadProfile, cfg.defaultRegion);
      Success(Some(ActionProposal(RunNow, cfg.defaultRegion, input.targetService, Some(input.earliestStart),
                                  input.workloadProfile, latency, [])))
  }

  function RunStatic(cfg: WorkflowConfig, env: Environment, input: DecisionInput)
    : (Result<CycleResult, Failure>, seq<Call>)
  {
    match StaticProposal(cfg, input)
    case Failure(e) => (Result.Failure(e), [])
    case Success(None) => (Success(Plain(StaticReference, input, None, None, None, None, NoFeasibleSlot)), [])
    case Success(Some(proposal)) =>
      var (result, calls) := Perform(cfg, env, StaticReference, input, proposal, None, None, false);
      (Success(result), calls)
  }

  // ---- the trust gate

  datatype Answer = Answer(scores: Option<(real, real)>, error: Option<string>, calls: seq<Call>)

  function AskEvaluator(cfg: WorkflowConfig, env: Environment, call: EvaluatorCall): Answer {
    if !cfg.evaluatorConfigured then Answer(None, Some("RAGAS evaluator is not configured"), [])
    else
      match env.evaluate(call)
      case Scores(f, p) => Answer(Some((f, p)), None, [Evaluate(call)])
      case EvaluatorRaised(message) => Answer(None, Some(message), [Evaluate(call)])
  }

  function Unit(b: bool): Option<real> {
    Some(if b then 1.0 else 0.0)
  }

  /** The declared binary freshness rule: no cached region, no replayed fallback. */
  predicate FreshSources(snapshot: CarbonSnapshot) {
    forall r :: r in snapshot.regions ==>
      && !snapshot.regions[r].source.Cache?
      && !(snapshot.regions[r].source.Replay? && Truthy(snapshot.regions[r].fallbackReason))
  }

  /** Components without RAGAS scores. */
  function RailComponents(input: DecisionInput, proposal: ActionProposal, rails: seq<RailCheck>,
                          recent: bool): TrustComponentScores {
    TrustComponentScores(None, None, Unit(rails != [] && AllPassed(rails)), Unit(recent),
                         Unit(Lookup(input.clusterAvailable, proposal.targetRegion, false)))
  }

  function WithScores(components: TrustComponentScores, scores: Option<(real, real)>): TrustComponentScores {
    match scores
    case None => components
    case Some((f, p)) => components.(ragasFaithfulness := Some(f), ragasContextPrecision := Some(p))
  }

  function AsBuiltGate(cfg: WorkflowConfig, env: Environment, input: DecisionInput, proposal: ActionProposal,
                       rails: seq<RailCheck>, documents: seq<string>, graph: GraphContext)
    : (Result<TrustReport, Failure>, seq<Call>)
  {
    var answer := AskEvaluator(cfg, env, EvaluatorCall(input, proposal, documents, graph));
    var components := WithScores(RailComponents(input, proposal, rails, FreshSources(input.carbonSnapshot)),
                                 answer.scores);
    (if !components.Valid() then Result.Failure(ScoreOutOfRange)
     else EvaluateTrust(Some(proposal), components, cfg.policy, rails, answer.error),
     answer.calls)
  }

  /** The two rails about the decision's inputs. */
  ghost function DataRailChecks(cfg: WorkflowConfig, env: Environment, input: DecisionInput): seq<RailCheck>
    requires input.Valid()
  {
    [RailCheck(DataAge, DataAgeOk(input.carbonSnapshot, cfg.gate.maxDataAgeSeconds, CycleNow(cfg, env))),
     RailCheck(ZoneProvenance, ProvenanceOk(input.carbonSnapshot, input.candidateRegions, cfg.gate,
                                            input.earliestStart, input.deadline))]
  }

  ghost predicate DataRailsPass(cfg: WorkflowConfig, env: Environment, input: DecisionInput)
    requires input.Valid()
  {
    AllPassed(DataRailChecks(cfg, env, input))
  }

  function ProposalRails(input: DecisionInput, graph: GraphContext, proposal: ActionProposal): seq<RailCheck> {
    ValidateProposal(Some(proposal), input.candidateRegions, AllowedServices(graph, input), input.earliestStart,
                     input.deadline, input.clusterAvailable, Some(input.p95SloLimitMs))
  }

  function RegretFor(cfg: WorkflowConfig, env: Environment, input: DecisionInput,
                     proposal: ActionProposal): RegretOutcome {
    match Reference(cfg, env, input)
    case Failure(_) => CheckCarbonRegret(proposal, None, None, cfg.gate.carbonRegretTolerance)
    case Success((request, schedule)) =>
      CheckCarbonRegret(proposal, Some(request), Some(schedule), cfg.gate.carbonRegretTolerance)
  }

  function FeasibilityFor(cfg: WorkflowConfig, env: Environment, input: DecisionInput,
                          proposal: ActionProposal): RailCheck {
    match Reference(cfg, env, input)
    case Failure(_) => CheckModelFeasibility(proposal, None)
    case Success((request, _)) => CheckModelFeasibility(proposal, Some(request))
  }

  /** All hard rails of the v2 gate, in the order the report lists them. */
  ghost function HardRails(cfg: WorkflowConfig, env: Environment, input: DecisionInput, proposal: ActionProposal,
                           rails: seq<RailCheck>): seq<RailCheck>
    requires input.Valid()
  {
    rails + DataRailChecks(cfg, env, input)
    + [CheckEvidence(proposal, input.retrievalContextIds), RegretFor(cfg, env, input, proposal).check]
    + if cfg.gate.FeasibilityRailEnabled() then [FeasibilityFor(cfg, env, input, proposal)] else []
  }

  function WithRegret(report: TrustReport, regret: RegretOutcome): TrustReport {
    report.(proposalIntensity := regret.proposalIntensity, referenceIntensity := regret.referenceIntensity,
            carbonRegret := regret.regret)
  }

  ghost function V2Gate(cfg: WorkflowConfig, env: Environment, input: DecisionInput, proposal: ActionProposal,
                        rails: seq<RailCheck>, documents: seq<string>, graph: GraphContext): (TrustReport, seq<Call>)
    requires input.Valid()
  {
    var checks := HardRails(cfg, env, input, proposal, rails);
    var components := RailComponents(input, proposal, rails, DataRailChecks(cfg, env, input)[0].passed);
    var regret := RegretFor(cfg, env, input, proposal);
    if !AllPassed(checks) then
      (WithRegret(EvaluateTrustV2(Some(proposal), components, cfg.policy, checks, None), regret), [])
    else
      var answer := AskEvaluator(cfg, env, EvaluatorCall(input, proposal, documents, graph));
      (WithRegret(EvaluateTrustV2(Some(proposal), WithScores(components, answer.scores), cfg.policy, checks,
                                  answer.error), regret),
       answer.calls)
  }

  ghost function Gate(cfg: WorkflowConfig, env: Environment, input: DecisionInput, proposal: ActionProposal,
                      rails: seq<RailCheck>, documents: seq<string>, graph: GraphContext)
    : (Result<TrustReport, Failure>, seq<Call>)
    requires input.Valid()
  {
    if cfg.gate.profile.IsV2Family() then
      var (report, calls) := V2Gate(cfg, env, input, proposal, rails, documents, graph);
      (Success(report), calls)
    else
      AsBuiltGate(cfg, env, input, proposal, rails, documents, graph)
  }

  function FailedReport(cfg: WorkflowConfig): TrustReport {
    TrustReport(NO_SCORES, [], None, cfg.policy.threshold, false, Some(AgentUnavailable), None, None, None, None)
  }

  // ---- the direct flow

  function NonBlank(documents: seq<string>): seq<string> {
    if documents == [] then []
    else
      var front, last := documents[..|documents| - 1], documents[|documents| - 1];
      if Strip(last) != "" then NonBlank(front) + [last] else NonBlank(front)
  }

  function AskAgent(cfg: WorkflowConfig, env: Environment, input: DecisionInput, graph: GraphContext,
                    documents: seq<string>): AgentReply {
    if cfg.agentConfigured then env.propose(input, graph, documents) else AgentFailed
  }

  /** Run the proposal the gate passed, else the scheduler program. */
  function ActOn(cfg: WorkflowConfig, env: Environment, input: DecisionInput, proposal: ActionProposal,
                 report: TrustReport)
    : (Result<CycleResult, Failure>, seq<Call>)
  {
    if report.passed then
      var (result, calls) := Perform(cfg, env, Hybrid, input, proposal, Some(report), None, false);
      (Success(result), calls)
    else
      RunMilp(cfg, env, input, true, Some(report))
  }

  ghost function HybridOn(cfg: WorkflowConfig, env: Environment, input: DecisionInput, graph: GraphContext,
                          documents: seq<string>, proposal: ActionProposal): (Result<CycleResult, Failure>, seq<Call>)
    requires input.Valid()
  {
    var (gated, asked) := Gate(cfg, env, input, proposal, ProposalRails(input, graph, proposal), documents, graph);
    match gated
    case Failure(e) => (Result.Failure(e), asked)
    case Success(report) =>
      var (result, calls) := ActOn(cfg, env, input, proposal, report);
      (result, asked + calls)
  }

  function LlmOnlyOn(cfg: WorkflowConfig, env: Environment, input: DecisionInput, graph: GraphContext,
                     proposal: ActionProposal)
    : (CycleResult, seq<Call>)
  {
    if AllPassed(ProposalRails(input, graph, proposal)) then
      Perform(cfg, env, LlmOnly, input, proposal, None, None, false)
    else
      (Plain(LlmOnly, input, Some(proposal), None, None, None, ProposalRejected), [])
  }

  ghost function DirectFlow(cfg: WorkflowConfig, env: Environment, mode: DecisionMode, input: DecisionInput,
                            graph: GraphContext, retrieved: seq<string>): Attempt
    requires input.Valid()
  {
    var documents := NonBlank(retrieved);
    match mode
    case MilpOnly =>
      var (result, calls) := RunMilp(cfg, env, input, false, None);
      Attempt(result, None, calls)
    case StaticReference =>
      var (result, calls) := RunStatic(cfg, env, input);
      Attempt(result, None, calls)
    case LlmOnly =>
      (match AskAgent(cfg, env, input, graph, documents)
       case AgentFailed => Attempt(Success(Plain(LlmOnly, input, None, None, None, None, ProposalMissing)), None, [])
       case Proposed(proposal) =>
         var (result, calls) := LlmOnlyOn(cfg, env, input, graph, proposal);
         Attempt(Success(result), Some(proposal), calls))
    case Hybrid =>
      (match AskAgent(cfg, env, input, graph, documents)
       case AgentFailed =>
         var (result, calls) := RunMilp(cfg, env, input, true, Some(FailedReport(cfg)));
         Attempt(result, None, calls)
       case Proposed(proposal) =>
         var (result, calls) := HybridOn(cfg, env, input, graph, documents, proposal);
         Attempt(result, Some(proposal), calls))
  }

  // ---- data-integrity handling

  /** What the workflow carries from one cycle to the next. */
  datatype RunState = RunState(lastKnownGood: Option<CarbonSnapshot>, lastPlacement: Option<string>)

  const FRESH := RunState(None, None)

  ghost predicate Healthy(state: RunState) {
    state.lastKnownGood.Some? ==> state.lastKnownGood.value.Valid()
  }

  function FailedNames(checks: seq<RailCheck>): seq<RailName> {
    if checks == [] then []
    else
      var front, last := checks[..|checks| - 1], checks[|checks| - 1];
      if last.passed then FailedNames(front) else FailedNames(front) + [last.name]
  }

  function FailedChecks(checks: seq<RailCheck>): seq<RailCheck> {
    if checks == [] then []
    else
      var front, last := checks[..|checks| - 1], checks[|checks| - 1];
      if last.passed then FailedChecks(front) else FailedChecks(front) + [last]
  }

  function DataIntegrityReport(cfg: WorkflowConfig, failed: seq<RailCheck>): TrustReport {
    TrustReport(NO_SCORES, failed, None, cfg.policy.threshold, false, Some(DataIntegrity), Some(V2), None, None, None)
  }

  /** The reference instant for the age of the last-known-good snapshot. */
  function AgeReference(cfg: WorkflowConfig, env: Environment, input: DecisionInput): int {
    CycleNow(cfg, env).GetOr(input.carbonSnapshot.decisionTime)
  }

  /** The region a hold keeps: the last placement, or the default region. */
  function HeldRegion(cfg: WorkflowConfig, state: RunState): string {
    if Truthy(state.lastPlacement) then state.lastPlacement.value else cfg.defaultRegion
  }

  function HoldOn(cfg: WorkflowConfig, state: RunState, input: DecisionInput,
                  failed: seq<RailCheck>): Result<CycleResult, Failure> {
    var region := HeldRegion(cfg, state);
    var latency :- ExpectedLatency(cfg, input.workloadProfile, region);
    var action := ActionProposal(RunNow, region, input.targetService, None, input.workloadProfile, latency, []);
    var receipt := ExecutionReceipt(input.runId, input.cycleId, Hybrid, action, true, None, None, None, Some("hold"),
                                    None, Some(FromHold), true, Some(Critical), None);
    Success(Plain(Hybrid, input, None, Some(DataIntegrityReport(cfg, failed)), None, Some(receipt), DataIntegrityHold)
            .(decisionSource := Some(FromHold), alert := true, alertLevel := Some(Critical),
              failedDataRails := Some(FailedNames(failed))))
  }

  /** The last-known-good snapshot put in place of the failing one. */
  function OnLastKnownGood(input: DecisionInput, snapshot: CarbonSnapshot): DecisionInput {
    input.(carbonSnapshot := snapshot)
  }

  /** A last-known-good schedule can be used: recent enough, buildable and selected. */
  ghost predicate LastKnownGoodUsable(cfg: WorkflowConfig, env: Environment, state: RunState, input: DecisionInput) {
    && state.lastKnownGood.Some?
    && RecentEnough(state.lastKnownGood.value, AgeReference(cfg, env, input), cfg.gate.lastKnownGoodMaxAgeSeconds)
    && var reference := Reference(cfg, env, OnLastKnownGood(input, state.lastKnownGood.value));
    && reference.Success? && reference.value.1.Selected?
  }

  /** The scheduler program on the last-known-good snapshot, else a hold. */
  ghost function DataIntegrityFlow(cfg: WorkflowConfig, env: Environment, state: RunState,
                                   input: DecisionInput): Attempt
    requires input.Valid() && Healthy(state)
  {
    var failed := FailedChecks(DataRailChecks(cfg, env, input));
    if LastKnownGoodUsable(cfg, env, state, input) then
      var good := state.lastKnownGood.value;
      var age := OldestAge(good, AgeReference(cfg, env, input));
      var schedule := Reference(cfg, env, OnLastKnownGood(input, good)).value.1;
      var (result, calls) := Perform(cfg, env, Hybrid, input,
                                     ProposalFromSchedule(schedule, OnLastKnownGood(input, good)),
                                     Some(DataIntegrityReport(cfg, failed)), Some(schedule), true);
      Attempt(Success(result.(decisionSource := Some(FromLastKnownGood), alert := true, alertLevel := Some(Warning),
                              failedDataRails := Some(FailedNames(failed)),
                              lastKnownGood := Some(LastKnownGoodUse(good.snapshotId, age)))),
              None, calls)
    else
      Attempt(HoldOn(cfg, state, input, failed), None, [])
  }

  // ---- stamping

  function SourceOf(result: CycleResult): Option<DecisionSource> {
    if result.decisionSource.Some? || result.executionReceipt.None? then result.decisionSource
    else if result.mode == StaticReference then Some(FromStaticReference)
    else if result.mode == LlmOnly then Some(FromLlm)
    else if result.executionReceipt.value.fallbackTriggered || result.mode == MilpOnly then Some(FromMilp)
    else Some(FromLlm)
  }

  function Stamped(cfg: WorkflowConfig, result: CycleResult, agentProposal: Option<ActionProposal>): CycleResult {
    var profile := Some(cfg.gate.profile);
    var source := SourceOf(result);
    result.(
      gateProfile := profile,
      agentProposal := agentProposal,
      decisionSource := source,
      trustReport := match result.trustReport
        case None => None
        case Some(report) => Some(report.(gateProfile := profile)),
      executionReceipt := match result.executionReceipt
        case None => None
        case Some(receipt) =>
          Some(receipt.(gateProfile := profile, decisionSource := source, alert := result.alert,
                        alertLevel := result.alertLevel)))
  }

  /** A cycle that placed a session: the outcomes that move the last placement. */
  predicate Placed(result: CycleResult) {
    result.executionReceipt.Some? && (result.outcome == DryRun || result.outcome == Executed)
  }

  function PlacementAfter(previous: Option<string>, result: CycleResult): Option<string> {
    if Placed(result) then Some(result.executionReceipt.value.finalAction.targetRegion) else previous
  }
}
