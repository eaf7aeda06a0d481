/** What the recorded result of a cycle tells: which source ran, what the SLO
    verdict means, and how urgent a deadline refusal is. */
module ResultLaws {
  import opened Wrappers
  import opened Schemas
  import opened Milp
  import opened Trust
  import opened DataRails
  import opened Decision
  import opened LangGraphFlow
  import opened Runs
  import opened RunLaws

  // ---- results before stamping

  /** An SLO verdict is there for executed sessions only, and for a measured one
      says that both measurements are within limits. */
  predicate VerdictFits(result: CycleResult, input: DecisionInput) {
    result.executionReceipt.Some? ==>
      var r := result.executionReceipt.value;
      && (result.outcome != Executed ==> r.sloPassed.None?)
      && (result.outcome == Executed && r.actualP95LatencyMs.Some? && r.actualErrorRate.Some? ==>
            r.sloPassed == Some(&& r.actualP95LatencyMs.value <= input.p95SloLimitMs
                                && r.actualErrorRate.value <= input.errorRateLimit))
  }

  /** What the stamp builds on. */
  predicate Stampable(result: Result<CycleResult, Failure>, mode: DecisionMode, input: DecisionInput) {
    result.Success? ==>
      && result.value.decisionSource == None && result.value.mode == mode
      && (result.value.alert <==> result.value.alertLevel.Some?)
      && (result.value.outcome == DeadlinePassed ==> result.value.alertLevel == Some(Critical))
      && VerdictFits(result.value, input)
  }

  /** What either flow of a cycle leaves for the stamp. */
  predicate Raw(result: Result<CycleResult, Failure>, mode: DecisionMode, input: DecisionInput) {
    && Stampable(result, mode, input)
    && (result.Success? ==> result.value.failedDataRails == None && result.value.lastKnownGood == None)
  }

  lemma PerformIsRaw(cfg: WorkflowConfig, env: Environment, mode: DecisionMode, input: DecisionInput,
                     proposal: ActionProposal,
                     report: Option<TrustReport>, schedule: Option<ScheduleResult>, fallback: bool)
    ensures Raw(Success(Perform(cfg, env, mode, input, proposal, report, schedule, fallback).0), mode, input)
  {
    var reply := env.execute(CallFor(mode, input, proposal, fallback));
    if !PastDeadline(cfg, env, input) && reply.Returned? {
      var checked := WithSloStatus(reply.receipt, input);
      SloStatusFits(reply.receipt, input);
      assert checked.(dispatchedAt := Some(env.dispatchNow)).sloPassed == checked.sloPassed;
    }
  }

  lemma SloStatusFits(receipt: ExecutionReceipt, input: DecisionInput)
    ensures var checked := WithSloStatus(receipt, input);
            && (OutcomeOf(checked) != Executed ==> checked.sloPassed.None?)
            && (OutcomeOf(checked) == Executed && checked.actualP95LatencyMs.Some? && checked.actualErrorRate.Some? ==>
                  checked.sloPassed == Some(&& checked.actualP95LatencyMs.value <= input.p95SloLimitMs
                                            && checked.actualErrorRate.value <= input.errorRateLimit))
  {
  }

  lemma MilpIsRaw(cfg: WorkflowConfig, env: Environment, input: DecisionInput, fallback: bool,
                  report: Option<TrustReport>)
    ensures Raw(RunMilp(cfg, env, input, fallback, report).0, if fallback then Hybrid else MilpOnly, input)
  {
    if ReferenceSelected(cfg, env, input) {
      var schedule := Reference(cfg, env, input).value.1;
      PerformIsRaw(cfg, env, if fallback then Hybrid else MilpOnly, input, ProposalFromSchedule(schedule, input),
                   report,
                   Some(schedule), fallback);
    }
  }

  lemma HybridIsRaw(cfg: WorkflowConfig, env: Environment, input: DecisionInput, graph: GraphContext,
                    documents: seq<string>, proposal: ActionProposal)
    requires input.Valid()
    ensures Raw(HybridOn(cfg, env, input, graph, documents, proposal).0, Hybrid, input)
  {
    var gated := Gate(cfg, env, input, proposal, ProposalRails(input, graph, proposal), documents, graph).0;
    if gated.Success? {
      if gated.value.passed {
        PerformIsRaw(cfg, env, Hybrid, input, proposal, Some(gated.value), None, false);
      } else {
        MilpIsRaw(cfg, env, input, true, Some(gated.value));
      }
    }
  }

  lemma AgentIsRaw(cfg: WorkflowConfig, env: Environment, input: DecisionInput, graph: GraphContext,
                   retrieved: seq<string>)
    requires input.Valid()
    ensures Raw(DirectFlow(cfg, env, Hybrid, input, graph, retrieved).result, Hybrid, input)
  {
    match AskAgent(cfg, env, input, graph, NonBlank(retrieved))
    case AgentFailed => MilpIsRaw(cfg, env, input, true, Some(FailedReport(cfg)));
    case Proposed(proposal) => HybridIsRaw(cfg, env, input, graph, NonBlank(retrieved), proposal);
  }

  lemma DirectIsRaw(cfg: WorkflowConfig, env: Environment, mode: DecisionMode, input: DecisionInput,
                    graph: GraphContext, retrieved: seq<string>)
    requires input.Valid()
    ensures Raw(DirectFlow(cfg, env, mode, input, graph, retrieved).result, mode, input)
  {
    match mode
    case MilpOnly => MilpIsRaw(cfg, env, input, false, None);
    case StaticReference =>
      var built := StaticProposal(cfg, input);
      if built.Success? && built.value.Some? {
        PerformIsRaw(cfg, env, StaticReference, input, built.value.value, None, None, false);
      }
    case LlmOnly =>
      var reply := AskAgent(cfg, env, input, graph, NonBlank(retrieved));
      if reply.Proposed? {
        PerformIsRaw(cfg, env, LlmOnly, input, reply.proposal, None, None, false);
      }
    case Hybrid => AgentIsRaw(cfg, env, input, graph, retrieved);
  }

  /** A node state with no receipt and no outcome that an execution gives. */
  predicate Untouched(s: NodeState) {
    s.receipt.None? && (s.terminalOutcome.Some? ==> s.terminalOutcome.value != DeadlinePassed)
  }

  lemma ExecuteNodeIsRaw(env: Environment, s: NodeState)
    requires Untouched(s)
    ensures Raw(Success(RecordResult(ExecuteNode(env, s).0)), s.mode, s.input)
  {
  }

  lemma ChoosingKeeps(cfg: WorkflowConfig, env: Environment, s: NodeState)
    requires Untouched(s)
    ensures var chosen := ChooseFinalAction(cfg, env, s);
            chosen.Success? ==> Untouched(chosen.value) && chosen.value.mode == s.mode && chosen.value.input == s.input
  {
    ChoosingChooses(cfg, env, s);
  }

  lemma ConcludeIsRaw(cfg: WorkflowConfig, env: Environment, s: NodeState, agent: Option<ActionProposal>,
                      asked: seq<Call>)
    requires Untouched(s)
    ensures Raw(Conclude(cfg, env, s, agent, asked).result, s.mode, s.input)
  {
    ChoosingKeeps(cfg, env, s);
    var chosen := ChooseFinalAction(cfg, env, s);
    if chosen.Success? {
      ExecuteNodeIsRaw(env, chosen.value);
    }
  }

  lemma NodesAreRaw(cfg: WorkflowConfig, env: Environment, mode: DecisionMode, input: DecisionInput,
                    graph: GraphContext, retrieved: seq<string>)
    requires input.Valid()
    ensures Raw(LangGraphRun(cfg, env, mode, input, graph, retrieved).result, mode, input)
  {
    var s := ProposeAction(cfg, env, CollectContext(Initial(mode, input, graph, retrieved)));
    assert s.mode == mode && s.input == input && Untouched(s);
    var (evaluated, asked) := EvaluateTrustNode(cfg, env, s);
    if evaluated.Success? {
      assert evaluated.value.mode == mode && evaluated.value.input == input && Untouched(evaluated.value);
      ConcludeIsRaw(cfg, env, evaluated.value, s.proposal, asked);
    }
  }

  lemma MainFlowIsRaw(cfg: WorkflowConfig, via: Orchestration, c: Cycle)
    requires c.input.Valid()
    ensures Raw(MainFlow(cfg, via, c).result, c.mode, c.input)
  {
    if via == Direct {
      DirectIsRaw(cfg, c.env, c.mode, c.input, c.graph, c.retrieved);
    } else {
      NodesAreRaw(cfg, c.env, c.mode, c.input, c.graph, c.retrieved);
    }
  }

  // ---- the SLO verdict and the urgency of a refusal

  /** The recorded result of a cycle, whatever its mode and data rails: a refusal
      at the deadline is a warning on the last-known-good path and critical
      anywhere else, on the receipt too, and the SLO verdict fits the outcome. */
  predicate Recorded(step: Step, lastKnownGoodPath: bool, input: DecisionInput) {
    step.result.Success? ==>
      var result := step.result.value;
      && VerdictFits(result, input)
      && (result.alert <==> result.alertLevel.Some?)
      && (result.executionReceipt.Some? ==>
            && result.executionReceipt.value.alertLevel == result.alertLevel
            && result.executionReceipt.value.alert == result.alert)
      && (result.outcome == DeadlinePassed ==>
            result.alertLevel == Some(if lastKnownGoodPath then Warning else Critical))
  }

  lemma FinishRecords(cfg: WorkflowConfig, state: RunState, attempt: Attempt, mode: DecisionMode, input: DecisionInput)
    requires Stampable(attempt.result, mode, input)
    ensures Recorded(Finish(cfg, state, attempt), false, input)
  {
  }

  lemma AnnotatedIsStampable(attempt: Attempt, mode: DecisionMode, input: DecisionInput)
    requires Stampable(attempt.result, mode, input)
    ensures Stampable(Annotated(attempt).result, mode, input)
  {
  }

  lemma DataIntegrityRecords(cfg: WorkflowConfig, env: Environment, state: RunState, input: DecisionInput)
    requires input.Valid() && Healthy(state)
    ensures Recorded(Finish(cfg, state, DataIntegrityFlow(cfg, env, state, input)), true, input)
  {
    var failed := FailedChecks(DataRailChecks(cfg, env, input));
    if LastKnownGoodUsable(cfg, env, state, input) {
      var good := OnLastKnownGood(input, state.lastKnownGood.value);
      var schedule := Reference(cfg, env, good).value.1;
      var report := Some(DataIntegrityReport(cfg, failed));
      var proposal := ProposalFromSchedule(schedule, good);
      PerformIsRaw(cfg, env, Hybrid, input, proposal, report, Some(schedule), true);
      var result := Perform(cfg, env, Hybrid, input, proposal, report, Some(schedule), true).0;
      WarnedRecords(cfg, state, DataIntegrityFlow(cfg, env, state, input), result, input);
    } else {
      HoldRecords(cfg, state, input, failed);
    }
  }

  lemma WarnedRecords(cfg: WorkflowConfig, state: RunState, attempt: Attempt, result: CycleResult, input: DecisionInput)
    requires Raw(Success(result), Hybrid, input)
    requires attempt.result.Success? && attempt.result.value.alertLevel == Some(Warning) && attempt.result.value.alert
    requires attempt.result.value.executionReceipt == result.executionReceipt
    requires attempt.result.value.outcome == result.outcome
    ensures Recorded(Finish(cfg, state, attempt), true, input)
  {
  }

  lemma HoldRecords(cfg: WorkflowConfig, state: RunState, input: DecisionInput, failed: seq<RailCheck>)
    ensures Recorded(Finish(cfg, state, Attempt(HoldOn(cfg, state, input, failed), None, [])), true, input)
  {
  }

  /** On either backend: an SLO verdict is recorded for executed sessions only, and
      means both limits were kept; a deadline refusal is critical exactly when
      the cycle was not answered from last-known-good data. */
  lemma CycleIsRecorded(cfg: WorkflowConfig, via: Orchestration, state: RunState, c: Cycle)
    requires c.input.Valid() && Healthy(state)
    ensures Recorded(CycleStep(cfg, via, state, c), Gated(cfg, c) && !Clean(cfg, c), c.input)
  {
    if Gated(cfg, c) && !Clean(cfg, c) {
      DataIntegrityRecords(cfg, c.env, state, c.input);
    } else {
      MainFlowIsRaw(cfg, via, c);
      AnnotatedIsStampable(MainFlow(cfg, via, c), c.mode, c.input);
      FinishRecords(cfg, state, MainFlow(cfg, via, c), c.mode, c.input);
      FinishRecords(cfg, state.(lastKnownGood := Some(c.input.carbonSnapshot)), Annotated(MainFlow(cfg, via, c)),
                    c.mode, c.input);
    }
  }

  /** So a refusal is recorded as critical if and only if the cycle's data rails
      passed or did not apply. */
  lemma RefusalIsCriticalIff(cfg: WorkflowConfig, via: Orchestration, state: RunState, c: Cycle)
    requires c.input.Valid() && Healthy(state)
    ensures var result := CycleStep(cfg, via, state, c).result;
            result.Success? && result.value.outcome == DeadlinePassed ==>
              (result.value.alertLevel == Some(Critical) <==> !(Gated(cfg, c) && !Clean(cfg, c)))
  {
    CycleIsRecorded(cfg, via, state, c);
  }

  /** A last-known-good cycle refused at the deadline is recorded as a warning:
      the fallback overwrites the critical alert of the refusal. */
  lemma LastKnownGoodRefusalIsWarning(cfg: WorkflowConfig, via: Orchestration, state: RunState, c: Cycle)
    requires c.input.Valid() && Healthy(state)
    requires Gated(cfg, c) && !Clean(cfg, c)
    requires LastKnownGoodUsable(cfg, c.env, state, c.input)
    requires PastDeadline(cfg, c.env, c.input)
    ensures var result := CycleStep(cfg, via, state, c).result;
            && result.Success?
            && result.value.outcome == DeadlinePassed
            && result.value.alertLevel == Some(Warning)
            && result.value.executionReceipt.value.alertLevel == Some(Warning)
  {
  }

  // ---- what the data rails leave on record

  lemma {:induction false} FailedNamesAre(checks: seq<RailCheck>, name: RailName)
    ensures name in FailedNames(checks) <==> RailCheck(name, false) in checks
  {
    if checks != [] {
      FailedNamesAre(checks[..|checks| - 1], name);
      assert checks == checks[..|checks| - 1] + [checks[|checks| - 1]];
    }
  }

  /** The failed data rails on record: none where they do not apply, the empty list
      where they passed, and otherwise each of the two that failed. */
  ghost predicate RailsRecorded(cfg: WorkflowConfig, c: Cycle, result: CycleResult)
    requires c.input.Valid()
  {
    if !Gated(cfg, c) then result.failedDataRails == None
    else if Clean(cfg, c) then result.failedDataRails == Some([])
    else
      && result.failedDataRails.Some?
      && var now := if cfg.clockSupplied || cfg.realExecutor then Some(c.env.cycleNow) else None;
         var names := result.failedDataRails.value;
      && (DataAge in names <==> !DataAgeOk(c.input.carbonSnapshot, cfg.gate.maxDataAgeSeconds, now))
      && (ZoneProvenance in names
          <==> !ProvenanceOk(c.input.carbonSnapshot, c.input.candidateRegions, cfg.gate, c.input.earliestStart,
                             c.input.deadline))
      && forall name :: name in names ==> name == DataAge || name == ZoneProvenance
  }

  /** The last-known-good entry on record names the stored snapshot, and is there
      exactly on the cycles answered from it. */
  ghost predicate UseRecorded(cfg: WorkflowConfig, state: RunState, c: Cycle, result: CycleResult)
    requires c.input.Valid()
  {
    var used := Gated(cfg, c) && !Clean(cfg, c) && LastKnownGoodUsable(cfg, c.env, state, c.input);
    && (result.lastKnownGood.Some? <==> used)
    && (used ==>
          && result.lastKnownGood.value.snapshotId == state.lastKnownGood.value.snapshotId
          && IsSnapshotAge(state.lastKnownGood.value, AgeReference(cfg, c.env, c.input),
                           result.lastKnownGood.value.age))
  }

  lemma DataRailsAreRecorded(cfg: WorkflowConfig, via: Orchestration, state: RunState, c: Cycle)
    requires c.input.Valid() && Healthy(state)
    ensures var result := CycleStep(cfg, via, state, c).result;
            result.Success? ==> RailsRecorded(cfg, c, result.value) && UseRecorded(cfg, state, c, result.value)
  {
    if Gated(cfg, c) && !Clean(cfg, c) {
      FailedDataRailsAre(cfg, c);
      FailureIsRecorded(cfg, state, c);
    } else {
      MainFlowIsRaw(cfg, via, c);
    }
  }

  lemma FailureIsRecorded(cfg: WorkflowConfig, state: RunState, c: Cycle)
    requires c.input.Valid() && Healthy(state)
    ensures var result := Finish(cfg, state, DataIntegrityFlow(cfg, c.env, state, c.input)).result;
            result.Success? ==>
              && result.value.failedDataRails == Some(FailedNames(FailedChecks(DataRailChecks(cfg, c.env, c.input))))
              && (result.value.lastKnownGood.Some? <==> LastKnownGoodUsable(cfg, c.env, state, c.input))
              && (result.value.lastKnownGood.Some? ==>
                    && result.value.lastKnownGood.value.snapshotId == state.lastKnownGood.value.snapshotId
                    && IsSnapshotAge(state.lastKnownGood.value, AgeReference(cfg, c.env, c.input),
                                     result.value.lastKnownGood.value.age))
  {
    var result := Finish(cfg, state, DataIntegrityFlow(cfg, c.env, state, c.input)).result;
    if LastKnownGoodUsable(cfg, c.env, state, c.input) {
      assert result.value.lastKnownGood.Some?;
    } else if result.Success? {
      assert result.value.lastKnownGood.None?;
    }
  }

  lemma FailedDataRailsAre(cfg: WorkflowConfig, c: Cycle)
    requires c.input.Valid()
    ensures var names := FailedNames(FailedChecks(DataRailChecks(cfg, c.env, c.input)));
            var now := if cfg.clockSupplied || cfg.realExecutor then Some(c.env.cycleNow) else None;
            && (DataAge in names <==> !DataAgeOk(c.input.carbonSnapshot, cfg.gate.maxDataAgeSeconds, now))
            && (ZoneProvenance in names
                <==> !ProvenanceOk(c.input.carbonSnapshot, c.input.candidateRegions, cfg.gate, c.input.earliestStart,
                                   c.input.deadline))
            && forall name :: name in names ==> name == DataAge || name == ZoneProvenance
  {
    var checks := DataRailChecks(cfg, c.env, c.input);
    FailedOfFailed(checks);
    forall name ensures name in FailedNames(FailedChecks(checks)) <==> RailCheck(name, false) in checks {
      FailedNamesAre(checks, name);
    }
  }

  lemma {:induction false} FailedOfFailed(checks: seq<RailCheck>)
    ensures FailedNames(FailedChecks(checks)) == FailedNames(checks)
  {
    if checks != [] {
      var front, last := checks[..|checks| - 1], checks[|checks| - 1];
      FailedOfFailed(front);
      assert (FailedChecks(front) + [last])[..|FailedChecks(front)|] == FailedChecks(front);
    }
  }

  // ---- the decision source

  /** The executor echoes the action and fallback flag it was given, as both of
      the repository's executors do. */
  ghost predicate Echoes(env: Environment) {
    forall call :: env.execute(call).Returned? ==>
      && env.execute(call).receipt.finalAction == call.action
      && env.execute(call).receipt.fallbackTriggered == call.fallbackTriggered
  }

  /** The source the stamp derives from the mode and the fallback flag. */
  predicate Labelled(step: Step, mode: DecisionMode) {
    step.result.Success? && step.result.value.executionReceipt.Some? ==>
      step.result.value.decisionSource
      == Some(SourceFor(mode, step.result.value.executionReceipt.value.fallbackTriggered))
  }

  lemma FinishLabels(cfg: WorkflowConfig, state: RunState, attempt: Attempt, mode: DecisionMode, input: DecisionInput)
    requires Raw(attempt.result, mode, input)
    ensures Labelled(Finish(cfg, state, attempt), mode)
    ensures Labelled(Finish(cfg, state, Annotated(attempt)), mode)
  {
  }

  lemma DataIntegrityLabels(cfg: WorkflowConfig, via: Orchestration, state: RunState, c: Cycle)
    requires c.input.Valid() && Healthy(state)
    requires Gated(cfg, c) && !Clean(cfg, c)
    ensures var step := CycleStep(cfg, via, state, c);
            step.calls != [] ==> step.result.Success? && step.result.value.decisionSource == Some(FromLastKnownGood)
  {
  }

  /** The decision source of a cycle that the data rails let through. */
  function SourceFor(mode: DecisionMode, fallback: bool): DecisionSource {
    match mode
    case StaticReference => FromStaticReference
    case LlmOnly => FromLlm
    case MilpOnly => FromMilp
    case Hybrid => if fallback then FromMilp else FromLlm
  }

  /** With an echoing executor the recorded decision source tells what ran: the
      last-known-good label exactly on cycles whose data rails failed, otherwise
      the mode's own, which for a hybrid cycle is the scheduler's exactly when
      the call was a fallback. */
  lemma SourceTellsWhatRan(cfg: WorkflowConfig, via: Orchestration, state: RunState, c: Cycle, step: Step,
                           call: ExecutorCall)
    requires c.input.Valid() && Healthy(state) && Echoes(c.env)
    requires step == CycleStep(cfg, via, state, c)
    requires ExecutorCalls(step.calls) == [call] && step.result.Success? && step.result.value.executionReceipt.Some?
    ensures step.result.value.executionReceipt.value.finalAction == call.action
    ensures step.result.value.decisionSource == Some(FromLastKnownGood) <==> Gated(cfg, c) && !Clean(cfg, c)
    ensures !Gated(cfg, c) || Clean(cfg, c) ==>
              step.result.value.decisionSource == Some(SourceFor(c.mode, call.fallbackTriggered))
  {
    ExecutorCalledIffReached(cfg, via, state, c);
    if Gated(cfg, c) && !Clean(cfg, c) {
      DataIntegrityLabels(cfg, via, state, c);
    } else {
      MainFlowIsRaw(cfg, via, c);
      FinishLabels(cfg, state, MainFlow(cfg, via, c), c.mode, c.input);
      FinishLabels(cfg, state.(lastKnownGood := Some(c.input.carbonSnapshot)), MainFlow(cfg, via, c), c.mode, c.input);
    }
  }
}
