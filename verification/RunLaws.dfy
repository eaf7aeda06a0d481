/** When a cycle calls the executor and the evaluator, how long a stale hold
    lasts, and how runs on the two backends compare. */
module RunLaws {
  import opened Wrappers
  import opened Schemas
  import opened Milp
  import opened Trust
  import opened DataRails
  import opened Decision
  import opened LangGraphFlow
  import opened Runs

  // ---- executor calls

  function ExecutorCalls(calls: seq<Call>): seq<ExecutorCall> {
    if calls == [] then []
    else
      var front, last := ExecutorCalls(calls[..|calls| - 1]), calls[|calls| - 1];
      if last.Execute? then front + [last.execution] else front
  }

  lemma {:induction false} ExecutorCallsAppend(a: seq<Call>, b: seq<Call>)
    ensures ExecutorCalls(a + b) == ExecutorCalls(a) + ExecutorCalls(b)
  {
    if b == [] {
      assert a + b == a;
    } else {
      ExecutorCallsAppend(a, b[..|b| - 1]);
      assert (a + b)[..|a + b| - 1] == a + b[..|b| - 1];
    }
  }

  lemma {:induction false} NoDispatchNoCalls(calls: seq<Call>)
    requires !Dispatches(calls)
    ensures ExecutorCalls(calls) == []
  {
    if calls != [] {
      var front := calls[..|calls| - 1];
      assert forall i :: 0 <= i < |front| ==> front[i] == calls[i];
      NoDispatchNoCalls(front);
    }
  }

  predicate ReachedExecutor(outcome: Outcome) {
    outcome == DryRun || outcome == Executed || outcome == ExecutionFailed
  }

  /** A call is about this cycle: its ids, its snapshot and its configuration. */
  predicate AboutCycle(call: ExecutorCall, input: DecisionInput) {
    && call.runId == input.runId
    && call.cycleId == input.cycleId
    && call.carbonSnapshotId == input.carbonSnapshot.snapshotId
    && call.configHash == input.configHash
  }

  /** A receipt's reason that says a session was placed: a dry run's, or none. */
  predicate Placing(reason: Option<string>) {
    reason.None? || reason.value == "" || "dry-run:" <= reason.value
  }

  /** The receipt on record is the executor's own, up to what the cycle stamps on it. */
  predicate SameSession(recorded: ExecutionReceipt, returned: ExecutionReceipt) {
    recorded.(sloPassed := returned.sloPassed, gateProfile := returned.gateProfile,
              decisionSource := returned.decisionSource, alert := returned.alert, alertLevel := returned.alertLevel,
              dispatchedAt := returned.dispatchedAt)
    == returned
  }

  /** What an executor's answer is recorded as: a receipt whose reason starts with
      "dry-run:" as a dry run, one with any other nonempty reason as a failure, one
      without a reason as an execution, and an exception as a failure. */
  predicate RecordedAs(reply: ExecutorReply, result: CycleResult) {
    match reply
    case ExecutorRaised => result.outcome == ExecutionFailed && result.executionReceipt == None
    case Returned(receipt) =>
      var reason := receipt.executionFailureReason;
      && (result.outcome == DryRun <==> reason.Some? && "dry-run:" <= reason.value)
      && (result.outcome == ExecutionFailed <==> reason.Some? && reason.value != "" && !("dry-run:" <= reason.value))
      && (result.outcome == Executed <==> reason.None? || reason.value == "")
      && result.executionReceipt.Some?
      && SameSession(result.executionReceipt.value, receipt)
  }

  /** One executor call if the outcome says so, about this cycle and for the
      proposal on record, whose answer decides the outcome and is on the receipt;
      none otherwise, nor when an exception escaped. */
  ghost predicate CallsFitOutcome(env: Environment, input: DecisionInput, result: Result<CycleResult, Failure>,
                                  calls: seq<Call>) {
    var made := ExecutorCalls(calls);
    && |made| == (if result.Success? && ReachedExecutor(result.value.outcome) then 1 else 0)
    && (made != [] ==>
          && AboutCycle(made[0], input)
          && result.value.proposal == Some(made[0].action)
          && made[0].mode == result.value.mode
          && RecordedAs(env.execute(made[0]), result.value))
  }

  lemma OneCall(call: Call)
    ensures ExecutorCalls([call]) == if call.Execute? then [call.execution] else []
  {
    assert [call][..0] == [];
  }

  lemma PerformFits(cfg: WorkflowConfig, env: Environment, mode: DecisionMode, input: DecisionInput,
                    proposal: ActionProposal,
                    report: Option<TrustReport>, schedule: Option<ScheduleResult>, fallback: bool)
    ensures var (result, calls) := Perform(cfg, env, mode, input, proposal, report, schedule, fallback);
            CallsFitOutcome(env, input, Success(result), calls)
  {
    var call := CallFor(mode, input, proposal, fallback);
    OneCall(Execute(call));
    if env.execute(call).Returned? {
      ReceiptIsRecorded(cfg, env, input, env.execute(call).receipt);
    }
  }

  /** The receipt on record and the outcome read from it. */
  lemma ReceiptIsRecorded(cfg: WorkflowConfig, env: Environment, input: DecisionInput, raw: ExecutionReceipt)
    ensures var checked := WithSloStatus(raw, input);
            var receipt := if cfg.HasClock() then checked.(dispatchedAt := Some(env.dispatchNow)) else checked;
            SameSession(receipt, raw) && OutcomeOf(receipt) == OutcomeOf(raw)
  {
  }

  lemma FitsAfterAsking(env: Environment, input: DecisionInput, result: Result<CycleResult, Failure>, asked: seq<Call>,
                        calls: seq<Call>)
    requires !Dispatches(asked) && CallsFitOutcome(env, input, result, calls)
    ensures CallsFitOutcome(env, input, result, asked + calls)
  {
    NoDispatchNoCalls(asked);
    ExecutorCallsAppend(asked, calls);
    assert [] + ExecutorCalls(calls) == ExecutorCalls(calls);
  }

  lemma RunMilpFits(cfg: WorkflowConfig, env: Environment, input: DecisionInput, fallback: bool,
                    report: Option<TrustReport>)
    ensures var (result, calls) := RunMilp(cfg, env, input, fallback, report);
            CallsFitOutcome(env, input, result, calls)
  {
    if Reference(cfg, env, input).Success? && Reference(cfg, env, input).value.1.Selected? {
      var schedule := Reference(cfg, env, input).value.1;
      PerformFits(cfg, env, if fallback then Hybrid else MilpOnly, input, ProposalFromSchedule(schedule, input),
                  report, Some(schedule), fallback);
    }
  }

  lemma HybridOnFits(cfg: WorkflowConfig, env: Environment, input: DecisionInput, graph: GraphContext,
                     documents: seq<string>,
                     proposal: ActionProposal)
    requires input.Valid()
    ensures var (result, calls) := HybridOn(cfg, env, input, graph, documents, proposal);
            CallsFitOutcome(env, input, result, calls)
  {
    var rails := ProposalRails(input, graph, proposal);
    var (gated, asked) := Gate(cfg, env, input, proposal, rails, documents, graph);
    GateNeverExecutes(cfg, env, input, proposal, rails, documents, graph);
    NoDispatchNoCalls(asked);
    if gated.Success? {
      if gated.value.passed {
        PerformFits(cfg, env, Hybrid, input, proposal, Some(gated.value), None, false);
        var (result, calls) := Perform(cfg, env, Hybrid, input, proposal, Some(gated.value), None, false);
        FitsAfterAsking(env, input, Success(result), asked, calls);
      } else {
        RunMilpFits(cfg, env, input, true, Some(gated.value));
        var (result, calls) := RunMilp(cfg, env, input, true, Some(gated.value));
        FitsAfterAsking(env, input, result, asked, calls);
      }
    }
  }

  lemma DirectFits(cfg: WorkflowConfig, env: Environment, mode: DecisionMode, input: DecisionInput,
                   graph: GraphContext, retrieved: seq<string>)
    requires input.Valid()
    ensures var attempt := DirectFlow(cfg, env, mode, input, graph, retrieved);
            CallsFitOutcome(env, input, attempt.result, attempt.calls)
  {
    var documents := NonBlank(retrieved);
    match mode
    case MilpOnly => RunMilpFits(cfg, env, input, false, None);
    case StaticReference =>
      if StaticProposal(cfg, input).Success? && StaticProposal(cfg, input).value.Some? {
        PerformFits(cfg, env, StaticReference, input, StaticProposal(cfg, input).value.value, None, None, false);
      }
    case LlmOnly =>
      var reply := AskAgent(cfg, env, input, graph, documents);
      if reply.Proposed? {
        PerformFits(cfg, env, LlmOnly, input, reply.proposal, None, None, false);
      }
    case Hybrid =>
      var reply := AskAgent(cfg, env, input, graph, documents);
      if reply.Proposed? {
        HybridOnFits(cfg, env, input, graph, documents, reply.proposal);
      } else {
        RunMilpFits(cfg, env, input, true, Some(FailedReport(cfg)));
      }
  }

  /** A node state that has not executed yet. */
  predicate NotYetExecuted(s: NodeState) {
    s.receipt.None? && (s.terminalOutcome.Some? ==> !ReachedExecutor(s.terminalOutcome.value))
  }

  lemma ChoosingDoesNotExecute(cfg: WorkflowConfig, env: Environment, s: NodeState)
    requires NotYetExecuted(s)
    ensures var chosen := ChooseFinalAction(cfg, env, s);
            chosen.Success? ==> NotYetExecuted(chosen.value) && chosen.value.input == s.input
  {
    ChoosingChooses(cfg, env, s);
  }

  lemma ExecuteNodeFits(env: Environment, s: NodeState)
    requires NotYetExecuted(s)
    ensures var (executed, calls) := ExecuteNode(env, s);
            CallsFitOutcome(env, s.input, Success(RecordResult(executed)), calls)
  {
    var (_, calls) := ExecuteNode(env, s);
    if calls != [] {
      OneCall(calls[0]);
      assert calls == [calls[0]];
    }
  }

  lemma ConcludeFits(cfg: WorkflowConfig, env: Environment, s: NodeState, agent: Option<ActionProposal>,
                     asked: seq<Call>)
    requires !Dispatches(asked) && NotYetExecuted(s)
    ensures var attempt := Conclude(cfg, env, s, agent, asked);
            CallsFitOutcome(env, s.input, attempt.result, attempt.calls)
  {
    NoDispatchNoCalls(asked);
    ChoosingDoesNotExecute(cfg, env, s);
    var chosen := ChooseFinalAction(cfg, env, s);
    if chosen.Success? {
      ExecuteNodeFits(env, chosen.value);
      var (executed, calls) := ExecuteNode(env, chosen.value);
      FitsAfterAsking(env, s.input, Success(RecordResult(executed)), asked, calls);
    }
  }

  lemma NodesFit(cfg: WorkflowConfig, env: Environment, mode: DecisionMode, input: DecisionInput, graph: GraphContext,
                 retrieved: seq<string>)
    requires input.Valid()
    ensures var attempt := LangGraphRun(cfg, env, mode, input, graph, retrieved);
            CallsFitOutcome(env, input, attempt.result, attempt.calls)
  {
    var s := ProposeAction(cfg, env, CollectContext(Initial(mode, input, graph, retrieved)));
    if mode == Hybrid && s.proposal.Some? {
      GateNeverExecutes(cfg, env, input, s.proposal.value, s.rails, s.documents, graph);
    }
    var (evaluated, asked) := EvaluateTrustNode(cfg, env, s);
    NoDispatchNoCalls(asked);
    if evaluated.Success? {
      ConcludeFits(cfg, env, evaluated.value, s.proposal, asked);
    }
  }

  lemma DataIntegrityFits(cfg: WorkflowConfig, env: Environment, state: RunState, input: DecisionInput)
    requires input.Valid() && Healthy(state)
    ensures var attempt := DataIntegrityFlow(cfg, env, state, input);
            CallsFitOutcome(env, input, attempt.result, attempt.calls)
  {
    if LastKnownGoodUsable(cfg, env, state, input) {
      var good := OnLastKnownGood(input, state.lastKnownGood.value);
      var schedule := Reference(cfg, env, good).value.1;
      var failed := FailedChecks(DataRailChecks(cfg, env, input));
      PerformFits(cfg, env, Hybrid, input, ProposalFromSchedule(schedule, good),
                  Some(DataIntegrityReport(cfg, failed)), Some(schedule), true);
    }
  }

  lemma FinishFits(cfg: WorkflowConfig, env: Environment, state: RunState, attempt: Attempt, input: DecisionInput)
    requires CallsFitOutcome(env, input, attempt.result, attempt.calls)
    ensures CallsFitOutcome(env, input, Finish(cfg, state, attempt).result, Finish(cfg, state, attempt).calls)
    ensures CallsFitOutcome(env, input, Finish(cfg, state, Annotated(attempt)).result,
                            Finish(cfg, state, Annotated(attempt)).calls)
  {
  }

  /** `run_cycle` calls the executor exactly once if the outcome is a dry run, an
      execution or an execution failure, and never otherwise, on either backend;
      the call carries the proposal on record and this cycle's identifiers. */
  lemma ExecutorCalledIffReached(cfg: WorkflowConfig, via: Orchestration, state: RunState, c: Cycle)
    requires c.input.Valid() && Healthy(state)
    ensures var step := CycleStep(cfg, via, state, c);
            CallsFitOutcome(c.env, c.input, step.result, step.calls)
  {
    if Gated(cfg, c) && !Clean(cfg, c) {
      DataIntegrityFits(cfg, c.env, state, c.input);
      FinishFits(cfg, c.env, state, DataIntegrityFlow(cfg, c.env, state, c.input), c.input);
    } else {
      if via == Direct {
        DirectFits(cfg, c.env, c.mode, c.input, c.graph, c.retrieved);
      } else {
        NodesFit(cfg, c.env, c.mode, c.input, c.graph, c.retrieved);
      }
      FinishFits(cfg, c.env, state, MainFlow(cfg, via, c), c.input);
      FinishFits(cfg, c.env, state.(lastKnownGood := Some(c.input.carbonSnapshot)), MainFlow(cfg, via, c), c.input);
    }
  }

  /** The region an executor's answer places a session in, if any. */
  function PlacedIn(reply: ExecutorReply): Option<string> {
    if reply.Returned? && Placing(reply.receipt.executionFailureReason) then
      Some(reply.receipt.finalAction.targetRegion)
    else None
  }

  /** The region a cycle placed a session in, told from its executor call alone. */
  function PlacementOf(env: Environment, calls: seq<Call>): Option<string> {
    if ExecutorCalls(calls) == [] then None else PlacedIn(env.execute(ExecutorCalls(calls)[0]))
  }

  /** The last placement moves exactly when the executor was called and answered
      with a dry run's reason or none, and then to the receipt's region. */
  lemma PlacementMovesIff(cfg: WorkflowConfig, via: Orchestration, state: RunState, c: Cycle)
    requires c.input.Valid() && Healthy(state)
    ensures var step := CycleStep(cfg, via, state, c);
            var placed := PlacementOf(c.env, step.calls);
            step.state.lastPlacement == if placed.Some? then placed else state.lastPlacement
  {
    var step := CycleStep(cfg, via, state, c);
    ExecutorCalledIffReached(cfg, via, state, c);
    StepEffects(cfg, via, state, c);
    PlacementFollows(c.env, c.input, state.lastPlacement, step.result, step.calls);
  }

  lemma PlacementFollows(env: Environment, input: DecisionInput, before: Option<string>,
                         result: Result<CycleResult, Failure>, calls: seq<Call>)
    requires CallsFitOutcome(env, input, result, calls)
    ensures var placed := PlacementOf(env, calls);
            PlacementNext(before, result) == if placed.Some? then placed else before
  {
  }

  /** The region of the latest cycle that placed a session. */
  ghost function LatestPlacement(cfg: WorkflowConfig, via: Orchestration, cycles: seq<Cycle>): Option<string>
    requires ValidRun(cycles)
  {
    if cycles == [] then None
    else
      var last := |cycles| - 1;
      var placed := PlacementOf(cycles[last].env, StepAt(cfg, via, cycles, last).calls);
      if placed.Some? then placed else LatestPlacement(cfg, via, cycles[..last])
  }

  lemma {:induction false} PlacementIsLatest(cfg: WorkflowConfig, via: Orchestration, cycles: seq<Cycle>)
    requires ValidRun(cycles)
    ensures StateAfter(cfg, via, cycles).lastPlacement == LatestPlacement(cfg, via, cycles)
  {
    if cycles != [] {
      var front, last := cycles[..|cycles| - 1], cycles[|cycles| - 1];
      PlacementIsLatest(cfg, via, front);
      PlacementMovesIff(cfg, via, StateAfter(cfg, via, front), last);
    }
  }

  /** On the direct backend no executor call happens when the dispatch reading is
      past a deadline that is enforced: real executor and v2-family gate. */
  lemma NoDispatchPastDeadline(cfg: WorkflowConfig, state: RunState, c: Cycle)
    requires c.input.Valid() && Healthy(state)
    requires cfg.realExecutor && (cfg.gate.profile == V2 || cfg.gate.profile == V21)
    requires c.env.dispatchNow > c.input.deadline
    ensures !Dispatches(CycleStep(cfg, Direct, state, c).calls)
  {
    LateFlowsRefuse(cfg, state, c);
  }

  lemma LateFlowsRefuse(cfg: WorkflowConfig, state: RunState, c: Cycle)
    requires c.input.Valid() && Healthy(state)
    requires cfg.realExecutor && (cfg.gate.profile == V2 || cfg.gate.profile == V21)
    requires c.env.dispatchNow > c.input.deadline
    ensures !Dispatches(MainFlow(cfg, Direct, c).calls)
    ensures !Dispatches(DataIntegrityFlow(cfg, c.env, state, c.input).calls)
  {
    DispatchIff(cfg, c.env, c.mode, c.input, c.graph, c.retrieved);
  }

  /** As built, a proposal whose rails all pass is never rejected on its score
      when the threshold is at most the rail plus feasibility weights, whatever
      scores in [0, 1] the evaluator returns: it passes, or the report raises,
      exactly when the weighted sum exceeds one. */
  lemma AsBuiltScoreNeverRejects(cfg: WorkflowConfig, env: Environment, input: DecisionInput, proposal: ActionProposal,
                                 documents: seq<string>, graph: GraphContext, faithfulness: real, precision: real)
    requires cfg.evaluatorConfigured && cfg.policy.weights.Valid()
    requires cfg.policy.threshold <= cfg.policy.weights.nemoRails + cfg.policy.weights.executionFeasibility
    requires AllPassed(ProposalRails(input, graph, proposal))
    requires env.evaluate(EvaluatorCall(input, proposal, documents, graph)) == Scores(faithfulness, precision)
    requires 0.0 <= faithfulness <= 1.0 && 0.0 <= precision <= 1.0
    ensures var rails := ProposalRails(input, graph, proposal);
            var report := AsBuiltGate(cfg, env, input, proposal, rails, documents, graph).0;
            && (report.Success? <==> AsBuiltScore(AllRailComponents(input, faithfulness, precision),
                                                  cfg.policy.weights) <= 1.0)
            && (report.Success? ==> report.value.passed)
  {
    var rails := ProposalRails(input, graph, proposal);
    ProposalRailsPassIff(proposal, input.candidateRegions, AllowedServices(graph, input), input.earliestStart,
                         input.deadline, input.clusterAvailable, input.p95SloLimitMs);
    var components := WithScores(RailComponents(input, proposal, rails, FreshSources(input.carbonSnapshot)),
                                 Some((faithfulness, precision)));
    assert components == AllRailComponents(input, faithfulness, precision);
    AsBuiltFloor(proposal, components, cfg.policy, rails);
    AsBuiltPassesIff(proposal, components, cfg.policy, rails, None);
    AsBuiltScoreNonnegative(components, cfg.policy.weights);
  }

  /** The components of a proposal whose rails all passed. */
  function AllRailComponents(input: DecisionInput, faithfulness: real, precision: real): TrustComponentScores {
    TrustComponentScores(Some(faithfulness), Some(precision), Some(1.0), Unit(FreshSources(input.carbonSnapshot)),
                         Some(1.0))
  }

  // ---- stale holds

  /** There is no last-known-good snapshot recent enough for the cycle. */
  ghost predicate Stale(cfg: WorkflowConfig, state: RunState, c: Cycle) {
    state.lastKnownGood.None?
    || !RecentEnough(state.lastKnownGood.value, AgeReference(cfg, c.env, c.input), cfg.gate.lastKnownGoodMaxAgeSeconds)
  }

  /** The cycle held: no call, and either the recorded hold in the held region or
      the exception raised when that region has no latency on record. */
  ghost predicate Held(cfg: WorkflowConfig, state: RunState, c: Cycle, step: Step) {
    var latency := ExpectedLatency(cfg, c.input.workloadProfile, HeldRegion(cfg, state));
    && step.calls == []
    && step.state == state
    && (latency.Failure? ==> step.result == Result.Failure(latency.error))
    && (latency.Success? ==>
          && step.result.Success?
          && step.result.value.outcome == DataIntegrityHold
          && step.result.value.alertLevel == Some(Critical)
          && step.result.value.proposal == None
          && step.result.value.executionReceipt.Some?
          && step.result.value.alert && step.result.value.decisionSource == Some(FromHold)
          && step.result.value.executionReceipt.value.finalAction
             == ActionProposal(RunNow, HeldRegion(cfg, state), c.input.targetService, None, c.input.workloadProfile,
                               latency.value, [])
          && step.result.value.executionReceipt.value.fallbackTriggered
          && Truthy(step.result.value.executionReceipt.value.executionFailureReason))
  }

  lemma StaleHolds(cfg: WorkflowConfig, via: Orchestration, state: RunState, c: Cycle)
    requires c.input.Valid() && Healthy(state)
    requires Gated(cfg, c) && !Clean(cfg, c)
    requires !LastKnownGoodUsable(cfg, c.env, state, c.input)
    ensures Held(cfg, state, c, CycleStep(cfg, via, state, c))
  {
  }

  /** Until some gated cycle is clean, the last-known-good snapshot stays what it was. */
  lemma {:induction false} LastKnownGoodKept(cfg: WorkflowConfig, via: Orchestration, cycles: seq<Cycle>, i: nat)
    requires ValidRun(cycles) && i <= |cycles|
    requires forall k :: i <= k < |cycles| && Gated(cfg, cycles[k]) ==> !Clean(cfg, cycles[k])
    ensures StateAfter(cfg, via, cycles).lastKnownGood == StateAfter(cfg, via, cycles[..i]).lastKnownGood
    decreases |cycles|
  {
    if i == |cycles| {
      assert cycles[..i] == cycles;
    } else {
      var front, last := cycles[..|cycles| - 1], cycles[|cycles| - 1];
      assert front[..i] == cycles[..i];
      LastKnownGoodKept(cfg, via, front, i);
      StepEffects(cfg, via, StateAfter(cfg, via, front), last);
    }
  }

  /** A stale hold is absorbing. With a scheduler clock that does not run
      backwards, once a data-failing cycle has no last-known-good snapshot or
      only one that is too old, every later data-failing cycle holds as well,
      with no executor call, until some cycle passes both data rails. */
  lemma StaleHoldIsAbsorbing(cfg: WorkflowConfig, via: Orchestration, cycles: seq<Cycle>, i: nat, k: nat)
    requires ValidRun(cycles) && i <= k < |cycles|
    requires cfg.HasClock()
    requires cycles[i].env.cycleNow <= cycles[k].env.cycleNow
    requires Gated(cfg, cycles[i]) && Gated(cfg, cycles[k])
    requires forall j :: i <= j <= k && Gated(cfg, cycles[j]) ==> !Clean(cfg, cycles[j])
    requires Stale(cfg, StateAfter(cfg, via, cycles[..i]), cycles[i])
    ensures Held(cfg, StateAfter(cfg, via, cycles[..k]), cycles[k], StepAt(cfg, via, cycles, k))
  {
    StaleStays(cfg, via, cycles, i, k);
    StaleHolds(cfg, via, StateAfter(cfg, via, cycles[..k]), cycles[k]);
  }

  lemma StaleStays(cfg: WorkflowConfig, via: Orchestration, cycles: seq<Cycle>, i: nat, k: nat)
    requires ValidRun(cycles) && i <= k < |cycles|
    requires cfg.HasClock()
    requires cycles[i].env.cycleNow <= cycles[k].env.cycleNow
    requires forall j :: i <= j < k && Gated(cfg, cycles[j]) ==> !Clean(cfg, cycles[j])
    requires Stale(cfg, StateAfter(cfg, via, cycles[..i]), cycles[i])
    ensures !LastKnownGoodUsable(cfg, cycles[k].env, StateAfter(cfg, via, cycles[..k]), cycles[k].input)
  {
    assert cycles[..k][..i] == cycles[..i];
    LastKnownGoodKept(cfg, via, cycles[..k], i);
    StalenessStays(cfg, StateAfter(cfg, via, cycles[..i]), StateAfter(cfg, via, cycles[..k]), cycles[i], cycles[k]);
  }

  lemma StalenessStays(cfg: WorkflowConfig, before: RunState, after: RunState, c: Cycle, d: Cycle)
    requires cfg.HasClock() && c.env.cycleNow <= d.env.cycleNow
    requires after.lastKnownGood == before.lastKnownGood
    requires Stale(cfg, before, c)
    ensures !LastKnownGoodUsable(cfg, d.env, after, d.input)
  {
    if before.lastKnownGood.Some?
       && RecentEnough(before.lastKnownGood.value, d.env.cycleNow, cfg.gate.lastKnownGoodMaxAgeSeconds) {
      RecencyOnlyFades(before.lastKnownGood.value, c.env.cycleNow, d.env.cycleNow, cfg.gate.lastKnownGoodMaxAgeSeconds);
    }
  }

  /** Every hold names the region of the latest recorded dry run or execution in
      the run, or the default region when there is none. */
  lemma HoldNamesLatestPlacement(cfg: WorkflowConfig, via: Orchestration, cycles: seq<Cycle>, i: nat)
    requires ValidRun(cycles) && i < |cycles|
    requires Gated(cfg, cycles[i]) && !Clean(cfg, cycles[i])
    requires !LastKnownGoodUsable(cfg, cycles[i].env, StateAfter(cfg, via, cycles[..i]), cycles[i].input)
    ensures var placed := LatestPlacement(cfg, via, cycles[..i]);
            var step := StepAt(cfg, via, cycles, i);
            step.result.Success? ==>
              && step.result.value.outcome == DataIntegrityHold
              && step.result.value.executionReceipt.value.finalAction.targetRegion
                 == if Truthy(placed) then placed.value else cfg.defaultRegion
  {
    PlacementIsLatest(cfg, via, cycles[..i]);
    StaleHolds(cfg, via, StateAfter(cfg, via, cycles[..i]), cycles[i]);
  }
}
