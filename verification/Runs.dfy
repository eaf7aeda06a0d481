/** Whole decision cycles and unbounded runs of them: what every executor call
    of a run is justified by, when it happens, and when a run stays held. */
module Runs {
  import opened Wrappers
  import opened Schemas
  import opened Milp
  import opened Request
  import opened Trust
  import opened DataRails
  import opened Decision
  import opened LangGraphFlow

  // ---- one cycle

  datatype Cycle = Cycle(mode: DecisionMode, input: DecisionInput, graph: GraphContext, retrieved: seq<string>,
                         env: Environment)

  datatype Step = Step(state: RunState, result: Result<CycleResult, Failure>, calls: seq<Call>)

  /** Cycles whose inputs the data rails gate. */
  predicate Gated(cfg: WorkflowConfig, c: Cycle) {
    c.mode == Hybrid && cfg.gate.profile.IsV2Family()
  }

  ghost predicate Clean(cfg: WorkflowConfig, c: Cycle)
    requires c.input.Valid()
  {
    DataRailsPass(cfg, c.env, c.input)
  }

  ghost function MainFlow(cfg: WorkflowConfig, via: Orchestration, c: Cycle): Attempt
    requires c.input.Valid()
  {
    if via == Direct then DirectFlow(cfg, c.env, c.mode, c.input, c.graph, c.retrieved)
    else LangGraphRun(cfg, c.env, c.mode, c.input, c.graph, c.retrieved)
  }

  /** Stamp a result and move the last placement; an exception leaves both alone. */
  function Finish(cfg: WorkflowConfig, state: RunState, attempt: Attempt): Step {
    match attempt.result
    case Failure(e) => Step(state, Result.Failure(e), attempt.calls)
    case Success(result) =>
      Step(state.(lastPlacement := PlacementAfter(state.lastPlacement, result)),
           Success(Stamped(cfg, result, attempt.agentProposal)), attempt.calls)
  }

  /** A passing gated cycle records that no data rail failed. */
  function Annotated(attempt: Attempt): Attempt {
    match attempt.result
    case Failure(_) => attempt
    case Success(result) => attempt.(result := Success(result.(failedDataRails := Some([]))))
  }

  ghost function CycleStep(cfg: WorkflowConfig, via: Orchestration, state: RunState, c: Cycle): (step: Step)
    requires c.input.Valid() && Healthy(state)
    ensures Healthy(step.state)
  {
    if !Gated(cfg, c) then Finish(cfg, state, MainFlow(cfg, via, c))
    else if Clean(cfg, c) then
      Finish(cfg, state.(lastKnownGood := Some(c.input.carbonSnapshot)), Annotated(MainFlow(cfg, via, c)))
    else Finish(cfg, state, DataIntegrityFlow(cfg, c.env, state, c.input))
  }

  /** What one cycle does to the carried state. */
  lemma StepEffects(cfg: WorkflowConfig, via: Orchestration, state: RunState, c: Cycle)
    requires c.input.Valid() && Healthy(state)
    ensures var step := CycleStep(cfg, via, state, c);
            && step.state.lastKnownGood
               == (if Gated(cfg, c) && Clean(cfg, c) then Some(c.input.carbonSnapshot) else state.lastKnownGood)
            && step.state.lastPlacement == PlacementNext(state.lastPlacement, step.result)
  {
    if !Gated(cfg, c) {
      FinishEffects(cfg, state, MainFlow(cfg, via, c));
    } else if Clean(cfg, c) {
      FinishEffects(cfg, state.(lastKnownGood := Some(c.input.carbonSnapshot)), Annotated(MainFlow(cfg, via, c)));
    } else {
      FinishEffects(cfg, state, DataIntegrityFlow(cfg, c.env, state, c.input));
    }
  }

  /** An exception leaves the last placement alone. */
  function PlacementNext(previous: Option<string>, result: Result<CycleResult, Failure>): Option<string> {
    if result.Success? then PlacementAfter(previous, result.value) else previous
  }

  lemma FinishEffects(cfg: WorkflowConfig, state: RunState, attempt: Attempt)
    ensures var step := Finish(cfg, state, attempt);
            && step.state.lastKnownGood == state.lastKnownGood
            && step.state.lastPlacement == PlacementNext(state.lastPlacement, step.result)
  {
  }

  // ---- runs of a fresh workflow

  ghost predicate ValidRun(cycles: seq<Cycle>) {
    forall i :: 0 <= i < |cycles| ==> cycles[i].input.Valid()
  }

  /** The state after a run; a cycle that raised does not end the run. */
  ghost function StateAfter(cfg: WorkflowConfig, via: Orchestration, cycles: seq<Cycle>): (state: RunState)
    requires ValidRun(cycles)
    ensures Healthy(state)
  {
    if cycles == [] then FRESH
    else CycleStep(cfg, via, StateAfter(cfg, via, cycles[..|cycles| - 1]), cycles[|cycles| - 1]).state
  }

  ghost function StepAt(cfg: WorkflowConfig, via: Orchestration, cycles: seq<Cycle>, i: nat): Step
    requires ValidRun(cycles) && i < |cycles|
  {
    CycleStep(cfg, via, StateAfter(cfg, via, cycles[..i]), cycles[i])
  }

  /** Cycle `j` is the latest one that passed both data rails. */
  ghost predicate LatestClean(cfg: WorkflowConfig, cycles: seq<Cycle>, j: int)
    requires ValidRun(cycles)
  {
    && 0 <= j < |cycles|
    && Gated(cfg, cycles[j]) && Clean(cfg, cycles[j])
    && (forall k :: j < k < |cycles| && Gated(cfg, cycles[k]) ==> !Clean(cfg, cycles[k]))
  }

  /** `good` is the snapshot of the latest clean cycle, absent when there is none. */
  ghost predicate Tracks(cfg: WorkflowConfig, cycles: seq<Cycle>, good: Option<CarbonSnapshot>)
    requires ValidRun(cycles)
  {
    match good
    case Some(snapshot) => exists j :: LatestClean(cfg, cycles, j) && snapshot == cycles[j].input.carbonSnapshot
    case None => forall j :: 0 <= j < |cycles| && Gated(cfg, cycles[j]) ==> !Clean(cfg, cycles[j])
  }

  lemma TracksGrows(cfg: WorkflowConfig, front: seq<Cycle>, last: Cycle, good: Option<CarbonSnapshot>)
    requires ValidRun(front) && last.input.Valid()
    requires Tracks(cfg, front, good)
    ensures ValidRun(front + [last])
    ensures Tracks(cfg, front + [last],
                   if Gated(cfg, last) && Clean(cfg, last) then Some(last.input.carbonSnapshot) else good)
  {
    if Gated(cfg, last) && Clean(cfg, last) {
      assert LatestClean(cfg, front + [last], |front|);
    } else if good.Some? {
      var j :| LatestClean(cfg, front, j) && good.value == front[j].input.carbonSnapshot;
      StillLatestClean(cfg, front, last, j);
    }
  }

  lemma StillLatestClean(cfg: WorkflowConfig, front: seq<Cycle>, last: Cycle, j: int)
    requires ValidRun(front) && last.input.Valid() && LatestClean(cfg, front, j)
    requires !(Gated(cfg, last) && Clean(cfg, last))
    ensures ValidRun(front + [last]) && LatestClean(cfg, front + [last], j)
    ensures (front + [last])[j] == front[j]
  {
  }

  /** The carried state after one more cycle. */
  lemma StateAfterNext(cfg: WorkflowConfig, via: Orchestration, before: seq<Cycle>, next: Cycle)
    requires ValidRun(before) && next.input.Valid()
    ensures ValidRun(before + [next])
    ensures StateAfter(cfg, via, before + [next]) == CycleStep(cfg, via, StateAfter(cfg, via, before), next).state
  {
    assert (before + [next])[..|before|] == before;
  }

  lemma LastKnownGoodAfterNext(cfg: WorkflowConfig, via: Orchestration, before: seq<Cycle>, next: Cycle)
    requires ValidRun(before) && next.input.Valid()
    ensures ValidRun(before + [next])
    ensures StateAfter(cfg, via, before + [next]).lastKnownGood
            == if Gated(cfg, next) && Clean(cfg, next) then Some(next.input.carbonSnapshot)
               else StateAfter(cfg, via, before).lastKnownGood
  {
    StateAfterNext(cfg, via, before, next);
    StepEffects(cfg, via, StateAfter(cfg, via, before), next);
  }

  /** The last-known-good snapshot is exactly that of the latest clean cycle. */
  lemma {:induction false} LastKnownGoodIsLatestClean(cfg: WorkflowConfig, via: Orchestration, cycles: seq<Cycle>)
    requires ValidRun(cycles)
    ensures Tracks(cfg, cycles, StateAfter(cfg, via, cycles).lastKnownGood)
  {
    if cycles != [] {
      var front, last := cycles[..|cycles| - 1], cycles[|cycles| - 1];
      assert cycles == front + [last];
      LastKnownGoodIsLatestClean(cfg, via, front);
      TracksGrows(cfg, front, last, StateAfter(cfg, via, front).lastKnownGood);
      LastKnownGoodAfterNext(cfg, via, front, last);
    }
  }

  // ---- run safety

  /** The action is the region, start and latency of an exact minimum: a feasible
      candidate of the request built from `input` with none before it. */
  ghost predicate ExactMinimum(cfg: WorkflowConfig, input: DecisionInput, action: ActionProposal) {
    exists request, best ::
      && BuildRequest(input, cfg.defaultRegion, cfg.catalog, cfg.slotMinutes) == Success(request)
      && IsOptimal(best, request)
      && Realises(action, best, input)
  }

  predicate Realises(action: ActionProposal, best: ScheduleCandidate, input: DecisionInput) {
    && action.targetRegion == best.targetRegion
    && action.scheduledTime == Some(best.scheduledTime)
    && action.expectedP95LatencyMs == best.expectedP95LatencyMs
    && action.workloadProfile == input.workloadProfile
    && action.targetService == input.targetService
  }

  /** The agent proposed the action, every hard rail passed, and the weighted
      evaluator score reached the threshold. */
  ghost predicate Admitted(cfg: WorkflowConfig, c: Cycle, action: ActionProposal)
    requires c.input.Valid()
  {
    && AskAgent(cfg, c.env, c.input, c.graph, NonBlank(c.retrieved)) == Proposed(action)
    && AllPassed(HardRails(cfg, c.env, c.input, action, ProposalRails(c.input, c.graph, action)))
    && var report := V2Gate(cfg, c.env, c.input, action, ProposalRails(c.input, c.graph, action),
                            NonBlank(c.retrieved), c.graph).0;
    && report.weightedScore.Some? && report.weightedScore.value >= cfg.policy.threshold
  }

  lemma V2PassMeansAdmitted(cfg: WorkflowConfig, env: Environment, input: DecisionInput, proposal: ActionProposal,
                            rails: seq<RailCheck>, documents: seq<string>, graph: GraphContext)
    requires input.Valid()
    requires V2Gate(cfg, env, input, proposal, rails, documents, graph).0.passed
    ensures AllPassed(HardRails(cfg, env, input, proposal, rails))
    ensures var report := V2Gate(cfg, env, input, proposal, rails, documents, graph).0;
            report.weightedScore.Some? && report.weightedScore.value >= cfg.policy.threshold
  {
    var checks := HardRails(cfg, env, input, proposal, rails);
    var components := RailComponents(input, proposal, rails, DataRailChecks(cfg, env, input)[0].passed);
    if AllPassed(checks) {
      var answer := AskEvaluator(cfg, env, EvaluatorCall(input, proposal, documents, graph));
      PassedIsScored(proposal, WithScores(components, answer.scores), cfg.policy, checks, answer.error);
    } else {
      PassedIsScored(proposal, components, cfg.policy, checks, None);
    }
  }

  lemma PassedIsScored(proposal: ActionProposal, components: TrustComponentScores, policy: TrustPolicy,
                       checks: seq<RailCheck>, error: Option<string>)
    ensures var report := EvaluateTrustV2(Some(proposal), components, policy, checks, error);
            report.passed ==>
              AllPassed(checks) && report.weightedScore.Some? && report.weightedScore.value >= policy.threshold
  {
  }

  lemma SelectedIsExactMinimum(cfg: WorkflowConfig, env: Environment, input: DecisionInput)
    requires Reference(cfg, env, input).Success? && Reference(cfg, env, input).value.1.Selected?
    ensures ExactMinimum(cfg, input, ProposalFromSchedule(Reference(cfg, env, input).value.1, input))
  {
    var (request, schedule) := Reference(cfg, env, input).value;
    SolveIsExact(request, env.solver);
    var best :| IsOptimal(best, request) && Selects(schedule, best, request);
    assert Realises(ProposalFromSchedule(schedule, input), best, input);
  }

  /** The action of an executor call is one of the two a clean cycle may run. */
  ghost predicate Justified(cfg: WorkflowConfig, c: Cycle, call: ExecutorCall)
    requires c.input.Valid()
  {
    if call.fallbackTriggered then ExactMinimum(cfg, c.input, call.action) else Admitted(cfg, c, call.action)
  }

  ghost predicate AllJustified(cfg: WorkflowConfig, c: Cycle, calls: seq<Call>)
    requires c.input.Valid()
  {
    forall i :: 0 <= i < |calls| && calls[i].Execute? ==> Justified(cfg, c, calls[i].execution)
  }

  lemma JustifiedAppend(cfg: WorkflowConfig, c: Cycle, asked: seq<Call>, calls: seq<Call>)
    requires c.input.Valid()
    requires !Dispatches(asked) && AllJustified(cfg, c, calls)
    ensures AllJustified(cfg, c, asked + calls)
  {
  }

  lemma RunMilpJustified(cfg: WorkflowConfig, c: Cycle, report: Option<TrustReport>)
    requires c.input.Valid()
    ensures AllJustified(cfg, c, RunMilp(cfg, c.env, c.input, true, report).1)
  {
    if Reference(cfg, c.env, c.input).Success? && Reference(cfg, c.env, c.input).value.1.Selected? {
      SelectedIsExactMinimum(cfg, c.env, c.input);
    }
  }

  lemma PerformJustified(cfg: WorkflowConfig, c: Cycle, proposal: ActionProposal, report: Option<TrustReport>)
    requires c.input.Valid()
    requires Admitted(cfg, c, proposal)
    ensures AllJustified(cfg, c, Perform(cfg, c.env, Hybrid, c.input, proposal, report, None, false).1)
  {
  }

  lemma DirectJustified(cfg: WorkflowConfig, c: Cycle)
    requires c.input.Valid() && Gated(cfg, c)
    ensures AllJustified(cfg, c, MainFlow(cfg, Direct, c).calls)
  {
    var documents := NonBlank(c.retrieved);
    match AskAgent(cfg, c.env, c.input, c.graph, documents)
    case AgentFailed => RunMilpJustified(cfg, c, Some(FailedReport(cfg)));
    case Proposed(proposal) =>
      var rails := ProposalRails(c.input, c.graph, proposal);
      var (report, asked) := V2Gate(cfg, c.env, c.input, proposal, rails, documents, c.graph);
      GateNeverExecutes(cfg, c.env, c.input, proposal, rails, documents, c.graph);
      if report.passed {
        V2PassMeansAdmitted(cfg, c.env, c.input, proposal, rails, documents, c.graph);
        PerformJustified(cfg, c, proposal, Some(report));
        JustifiedAppend(cfg, c, asked, Perform(cfg, c.env, Hybrid, c.input, proposal, Some(report), None, false).1);
      } else {
        RunMilpJustified(cfg, c, Some(report));
        JustifiedAppend(cfg, c, asked, RunMilp(cfg, c.env, c.input, true, Some(report)).1);
      }
  }

  lemma ScheduledNodeJustified(cfg: WorkflowConfig, c: Cycle, s: NodeState)
    requires c.input.Valid() && s.input == c.input && s.terminalOutcome.None?
    ensures AllJustified(cfg, c, ExecuteNode(c.env, Schedule(cfg, c.env, s, true)).1)
  {
    if Reference(cfg, c.env, c.input).Success? && Reference(cfg, c.env, c.input).value.1.Selected? {
      SelectedIsExactMinimum(cfg, c.env, c.input);
    }
  }

  lemma JudgedNodeJustified(cfg: WorkflowConfig, c: Cycle, proposal: ActionProposal)
    requires c.input.Valid() && Gated(cfg, c)
    requires AskAgent(cfg, c.env, c.input, c.graph, NonBlank(c.retrieved)) == Proposed(proposal)
    ensures AllJustified(cfg, c, MainFlow(cfg, LangGraph, c).calls)
  {
    var rails, documents := ProposalRails(c.input, c.graph, proposal), NonBlank(c.retrieved);
    var (report, asked) := V2Gate(cfg, c.env, c.input, proposal, rails, documents, c.graph);
    GateNeverExecutes(cfg, c.env, c.input, proposal, rails, documents, c.graph);
    JudgedRun(cfg, c.env, c.input, c.graph, c.retrieved, proposal);
    var judged := Judged(c.input, c.graph, c.retrieved, proposal, report);
    if report.passed {
      V2PassMeansAdmitted(cfg, c.env, c.input, proposal, rails, documents, c.graph);
      assert AllJustified(cfg, c, ExecuteNode(c.env, judged).1);
      JustifiedAppend(cfg, c, asked, ExecuteNode(c.env, judged).1);
    } else {
      ScheduledNodeJustified(cfg, c, judged);
      JustifiedAppend(cfg, c, asked, ExecuteNode(c.env, Schedule(cfg, c.env, judged, true)).1);
    }
  }

  lemma NodesJustified(cfg: WorkflowConfig, c: Cycle)
    requires c.input.Valid() && Gated(cfg, c)
    ensures AllJustified(cfg, c, MainFlow(cfg, LangGraph, c).calls)
  {
    match AskAgent(cfg, c.env, c.input, c.graph, NonBlank(c.retrieved))
    case AgentFailed => UnansweredNodeJustified(cfg, c);
    case Proposed(proposal) => JudgedNodeJustified(cfg, c, proposal);
  }

  lemma UnansweredNodeJustified(cfg: WorkflowConfig, c: Cycle)
    requires c.input.Valid() && Gated(cfg, c)
    requires AskAgent(cfg, c.env, c.input, c.graph, NonBlank(c.retrieved)).AgentFailed?
    ensures AllJustified(cfg, c, MainFlow(cfg, LangGraph, c).calls)
  {
    UnansweredRun(cfg, c.env, c.input, c.graph, c.retrieved);
    var failed := Unanswered(cfg, c.input, c.graph, c.retrieved);
    ScheduledNodeJustified(cfg, c, failed);
    JustifiedAppend(cfg, c, [], ExecuteNode(c.env, Schedule(cfg, c.env, failed, true)).1);
  }

  /** What justifies a hybrid executor call in cycle `i` of a run: on inputs that
      pass both data rails, an admitted agent proposal or the exact minimum; on
      inputs that fail, the exact minimum on the snapshot of the latest earlier
      cycle that passed, recent enough at the reference instant. */
  ghost predicate JustifiedInRun(cfg: WorkflowConfig, cycles: seq<Cycle>, i: nat, call: ExecutorCall)
    requires ValidRun(cycles) && i < |cycles|
  {
    var c := cycles[i];
    if Clean(cfg, c) then Justified(cfg, c, call)
    else
      && call.fallbackTriggered
      && exists j ::
           && LatestClean(cfg, cycles[..i], j)
           && RecentEnough(cycles[j].input.carbonSnapshot, AgeReference(cfg, c.env, c.input),
                           cfg.gate.lastKnownGoodMaxAgeSeconds)
           && ExactMinimum(cfg, OnLastKnownGood(c.input, cycles[j].input.carbonSnapshot), call.action)
  }

  /** Run safety, on either backend: in every run of a fresh v2-family workflow,
      every executor call of a hybrid cycle is justified. */
  lemma RunSafety(cfg: WorkflowConfig, via: Orchestration, cycles: seq<Cycle>, i: nat, call: ExecutorCall)
    requires ValidRun(cycles) && i < |cycles|
    requires Gated(cfg, cycles[i])
    requires Execute(call) in StepAt(cfg, via, cycles, i).calls
    ensures JustifiedInRun(cfg, cycles, i, call)
  {
    var state := StateAfter(cfg, via, cycles[..i]);
    if Clean(cfg, cycles[i]) {
      CleanCallJustified(cfg, via, state, cycles[i], call);
    } else {
      LastKnownGoodIsLatestClean(cfg, via, cycles[..i]);
      FailingStepCalls(cfg, via, state, cycles[i]);
      FailingCallJustified(cfg, cycles, i, state, call);
    }
  }

  lemma FailingStepCalls(cfg: WorkflowConfig, via: Orchestration, state: RunState, c: Cycle)
    requires c.input.Valid() && Healthy(state)
    requires Gated(cfg, c) && !Clean(cfg, c)
    ensures CycleStep(cfg, via, state, c).calls == DataIntegrityFlow(cfg, c.env, state, c.input).calls
  {
  }

  lemma FailingCallJustified(cfg: WorkflowConfig, cycles: seq<Cycle>, i: nat, state: RunState, call: ExecutorCall)
    requires ValidRun(cycles) && i < |cycles| && Healthy(state)
    requires Tracks(cfg, cycles[..i], state.lastKnownGood)
    requires !Clean(cfg, cycles[i])
    requires Execute(call) in DataIntegrityFlow(cfg, cycles[i].env, state, cycles[i].input).calls
    ensures JustifiedInRun(cfg, cycles, i, call)
  {
    LastKnownGoodCallJustified(cfg, state, cycles[i], call);
    var j :| LatestClean(cfg, cycles[..i], j) && state.lastKnownGood.value == cycles[..i][j].input.carbonSnapshot;
    assert cycles[..i][j] == cycles[j];
  }

  lemma CleanCallJustified(cfg: WorkflowConfig, via: Orchestration, state: RunState, c: Cycle, call: ExecutorCall)
    requires c.input.Valid() && Healthy(state)
    requires Gated(cfg, c) && Clean(cfg, c)
    requires Execute(call) in CycleStep(cfg, via, state, c).calls
    ensures Justified(cfg, c, call)
  {
    if via == Direct {
      DirectJustified(cfg, c);
    } else {
      NodesJustified(cfg, c);
    }
  }

  lemma LastKnownGoodCallJustified(cfg: WorkflowConfig, state: RunState, c: Cycle, call: ExecutorCall)
    requires c.input.Valid() && Healthy(state)
    requires Execute(call) in DataIntegrityFlow(cfg, c.env, state, c.input).calls
    ensures state.lastKnownGood.Some? && call.fallbackTriggered
    ensures RecentEnough(state.lastKnownGood.value, AgeReference(cfg, c.env, c.input),
                         cfg.gate.lastKnownGoodMaxAgeSeconds)
    ensures ExactMinimum(cfg, OnLastKnownGood(c.input, state.lastKnownGood.value), call.action)
  {
    if LastKnownGoodUsable(cfg, c.env, state, c.input) {
      SelectedIsExactMinimum(cfg, c.env, OnLastKnownGood(c.input, state.lastKnownGood.value));
    }
  }

  /** With the model-feasibility rail on, an admitted action emits at least the
      exact optimum of its own inputs and at most (1 + tolerance + slack) times it. */
  lemma AdmittedWithinRegret(cfg: WorkflowConfig, c: Cycle, action: ActionProposal)
    requires c.input.Valid()
    requires Admitted(cfg, c, action)
    requires cfg.gate.FeasibilityRailEnabled()
    ensures var reference := Reference(cfg, c.env, c.input);
            && reference.Success? && reference.value.1.Selected?
            && WithinRegret(ExpectedIntensity(action, reference.value.0), reference.value.1.intensity,
                            cfg.gate.carbonRegretTolerance)
  {
    var rails := ProposalRails(c.input, c.graph, action);
    HardRailsInclude(cfg, c.env, c.input, action, rails);
    var (request, schedule) := Reference(cfg, c.env, c.input).value;
    RegretSandwich(c.input, cfg.defaultRegion, cfg.catalog, cfg.slotMinutes, request, c.env.solver, action,
                   cfg.gate.carbonRegretTolerance);
  }

  lemma HardRailsInclude(cfg: WorkflowConfig, env: Environment, input: DecisionInput, action: ActionProposal,
                         rails: seq<RailCheck>)
    requires input.Valid()
    requires AllPassed(HardRails(cfg, env, input, action, rails))
    ensures AllPassed(rails) && DataRailsPass(cfg, env, input)
    ensures RegretFor(cfg, env, input, action).check.passed
    ensures cfg.gate.FeasibilityRailEnabled() ==> FeasibilityFor(cfg, env, input, action).passed
    ensures Reference(cfg, env, input).Success?
  {
    var pair := [CheckEvidence(action, input.retrievalContextIds), RegretFor(cfg, env, input, action).check];
    var last := if cfg.gate.FeasibilityRailEnabled() then [FeasibilityFor(cfg, env, input, action)] else [];
    PassedSplits(rails, DataRailChecks(cfg, env, input), pair, last);
    assert pair[1].passed;
    if cfg.gate.FeasibilityRailEnabled() {
      assert last[0].passed;
    }
  }

  lemma PassedSplits(a: seq<RailCheck>, b: seq<RailCheck>, c: seq<RailCheck>, d: seq<RailCheck>)
    requires AllPassed(a + b + c + d)
    ensures AllPassed(a) && AllPassed(b) && AllPassed(c) && AllPassed(d)
  {
    var all := a + b + c + d;
    assert forall i :: 0 <= i < |a| ==> a[i] == all[i];
    assert forall i :: 0 <= i < |b| ==> b[i] == all[|a| + i];
    assert forall i :: 0 <= i < |c| ==> c[i] == all[|a| + |b| + i];
    assert forall i :: 0 <= i < |d| ==> d[i] == all[|a| + |b| + |c| + i];
  }
}
