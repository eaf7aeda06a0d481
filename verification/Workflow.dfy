/** The scheduler workflow object. Its methods update the per-run and per-cycle
    fields in the order the controller does, memoise the reference schedule,
    and are proved to compute exactly the memo-free cycle of `Decision`,
    `LangGraphFlow` and `Runs`. */
module Workflow {
  import opened Wrappers
  import opened Schemas
  import opened Milp
  import opened Request
  import opened Trust
  import opened DataRails
  import opened Decision
  import opened LangGraphFlow
  import opened Runs

  /** The cached reference of one cycle, under the cycle's identifiers. */
  datatype Memo = Memo(key: (string, string), request: SchedulingRequest, schedule: ScheduleResult)

  function Key(input: DecisionInput): (string, string) {
    (input.runId, input.cycleId)
  }

  class SchedulerWorkflow {
    const cfg: WorkflowConfig
    const via: Orchestration
    var lastKnownGood: Option<CarbonSnapshot>
    var lastPlacement: Option<string>
    var reference: Option<Memo>
    var cycleNow: Option<int>
    var agentProposal: Option<ActionProposal>
    /** Every evaluator and executor call of the run. */
    ghost var calls: seq<Call>
    /** How many schedules have been solved. */
    ghost var solves: nat

    constructor (cfg: WorkflowConfig, via: Orchestration)
      requires cfg.defaultRegion != ""
      requires cfg.slotMinutes.Some? ==> cfg.slotMinutes.value > 0
      ensures this.cfg == cfg && this.via == via
      ensures State() == FRESH && calls == [] && solves == 0
    {
      this.cfg, this.via := cfg, via;
      lastKnownGood, lastPlacement, reference, cycleNow, agentProposal := None, None, None, None, None;
      calls, solves := [], 0;
    }

    function State(): RunState
      reads this
    {
      RunState(lastKnownGood, lastPlacement)
    }

    /** Re-seed the per-run state when a run is resumed from saved records. */
    method RestoreState(good: Option<CarbonSnapshot>, placement: Option<string>)
      modifies this`lastKnownGood, this`lastPlacement
      ensures State() == RunState(good, placement)
    {
      lastKnownGood, lastPlacement := good, placement;
    }

    // ---- the memo

    predicate Cached(input: DecisionInput)
      reads this
    {
      reference.Some? && reference.value.key == Key(input)
    }

    /** Reading the memo gives what building and solving `input` would give. */
    predicate Coherent(env: Environment, input: DecisionInput)
      reads this
    {
      Cached(input) ==> Reference(cfg, env, input) == Success((reference.value.request, reference.value.schedule))
    }

    /** At most one solve since `before`, and then the memo holds it. */
    twostate predicate SolvedAtMostOnce(input: DecisionInput)
      reads this
    {
      && old(solves) <= solves
      && (old(Cached(input)) ==> Cached(input) && solves == old(solves))
      && solves - old(solves) <= (if Cached(input) then 1 else 0)
    }

    method ReferenceSchedule(env: Environment, input: DecisionInput)
      returns (r: Result<(SchedulingRequest, ScheduleResult), Failure>)
      requires Coherent(env, input)
      modifies this`reference, this`solves
      ensures r == Reference(cfg, env, input)
      ensures Coherent(env, input) && SolvedAtMostOnce(input)
      ensures r.Success? ==> Cached(input)
    {
      if reference.Some? && reference.value.key == Key(input) {
        return Success((reference.value.request, reference.value.schedule));
      }
      var built := BuildSchedulingRequest(input, cfg.defaultRegion, cfg.catalog, cfg.slotMinutes);
      if built.Failure? {
        return Result.Failure(built.error);
      }
      var schedule := SolveSchedule(built.value, env.solver);
      solves := solves + 1;
      reference := Some(Memo(Key(input), built.value, schedule));
      return Success((built.value, schedule));
    }

    // ---- execution and the deterministic flows

    method Execute(env: Environment, mode: DecisionMode, input: DecisionInput, proposal: ActionProposal,
                   report: Option<TrustReport>, schedule: Option<ScheduleResult>, fallback: bool)
      returns (result: CycleResult)
      modifies this`calls
      ensures (result, calls) ==
              (Perform(cfg, env, mode, input, proposal, report, schedule, fallback).0,
               old(calls) + Perform(cfg, env, mode, input, proposal, report, schedule, fallback).1)
    {
      var dispatchedAt := DispatchedAt(cfg, env);
      if cfg.ChecksDeadline() && dispatchedAt.Some? && dispatchedAt.value > input.deadline {
        result := Plain(mode, input, Some(proposal), report, schedule,
                        Some(RefusedReceipt(mode, input, proposal, fallback, dispatchedAt.value)), DeadlinePassed)
                  .(alert := true, alertLevel := Some(Critical));
        assert calls + [] == calls;
        return;
      }
      var call := CallFor(mode, input, proposal, fallback);
      var reply := env.execute(call);
      calls := calls + [Call.Execute(call)];
      if reply.ExecutorRaised? {
        return Plain(mode, input, Some(proposal), report, schedule, None, ExecutionFailed);
      }
      var receipt := WithSloStatus(reply.receipt, input);
      if dispatchedAt.Some? {
        receipt := receipt.(dispatchedAt := dispatchedAt);
      }
      result := Plain(mode, input, Some(proposal), report, schedule, Some(receipt), OutcomeOf(receipt));
    }

    method RunMilpFlow(env: Environment, input: DecisionInput, fallback: bool, report: Option<TrustReport>)
      returns (r: Result<CycleResult, Failure>)
      requires Coherent(env, input)
      modifies this`reference, this`solves, this`calls
      ensures r == RunMilp(cfg, env, input, fallback, report).0
      ensures calls == old(calls) + RunMilp(cfg, env, input, fallback, report).1
      ensures Coherent(env, input) && SolvedAtMostOnce(input)
    {
      var mode := if fallback then Hybrid else MilpOnly;
      var found := ReferenceSchedule(env, input);
      if found.Failure? {
        assert calls + [] == calls;
        return Result.Failure(found.error);
      }
      var schedule := found.value.1;
      if !schedule.Selected? {
        assert calls + [] == calls;
        return Success(Plain(mode, input, None, report, Some(schedule), None, OutcomeOfStatus(schedule)));
      }
      var result := Execute(env, mode, input, ProposalFromSchedule(schedule, input), report, Some(schedule), fallback);
      return Success(result);
    }

    method RunStaticFlow(env: Environment, input: DecisionInput) returns (r: Result<CycleResult, Failure>)
      modifies this`calls
      ensures r == RunStatic(cfg, env, input).0
      ensures calls == old(calls) + RunStatic(cfg, env, input).1
    {
      var built := StaticProposal(cfg, input);
      if built.Failure? {
        assert calls + [] == calls;
        return Result.Failure(built.error);
      }
      if built.value.None? {
        assert calls + [] == calls;
        return Success(Plain(StaticReference, input, None, None, None, None, NoFeasibleSlot));
      }
      var result := Execute(env, StaticReference, input, built.value.value, None, None, false);
      return Success(result);
    }

    // ---- the gate

    method DataRailsOf(env: Environment, input: DecisionInput) returns (checks: seq<RailCheck>)
      requires input.Valid() && cycleNow == CycleNow(cfg, env)
      ensures checks == DataRailChecks(cfg, env, input)
    {
      var age := CheckDataAge(input.carbonSnapshot, cfg.gate.maxDataAgeSeconds, cycleNow);
      var provenance := CheckZoneProvenance(input.carbonSnapshot, input.candidateRegions, cfg.gate,
                                            input.earliestStart, input.deadline);
      return [age, provenance];
    }

    method Ask(env: Environment, call: EvaluatorCall) returns (answer: Answer)
      modifies this`calls
      ensures answer == AskEvaluator(cfg, env, call)
      ensures calls == old(calls) + answer.calls
    {
      answer := AskEvaluator(cfg, env, call);
      calls := calls + answer.calls;
    }

    method EvaluateHybridTrustV2(env: Environment, input: DecisionInput, proposal: ActionProposal,
                                 rails: seq<RailCheck>,
                                 documents: seq<string>, graph: GraphContext) returns (report: TrustReport)
      requires input.Valid() && cycleNow == CycleNow(cfg, env) && Coherent(env, input)
      modifies this`reference, this`solves, this`calls
      ensures report == V2Gate(cfg, env, input, proposal, rails, documents, graph).0
      ensures calls == old(calls) + V2Gate(cfg, env, input, proposal, rails, documents, graph).1
      ensures Coherent(env, input) && SolvedAtMostOnce(input)
    {
      var data := DataRailsOf(env, input);
      var evidence := CheckEvidence(proposal, input.retrievalContextIds);
      var found := ReferenceSchedule(env, input);
      var request := if found.Success? then Some(found.value.0) else None;
      var schedule := if found.Success? then Some(found.value.1) else None;
      var regret := CheckCarbonRegret(proposal, request, schedule, cfg.gate.carbonRegretTolerance);
      var checks := rails + data + [evidence, regret.check];
      if cfg.gate.FeasibilityRailEnabled() {
        checks := checks + [CheckModelFeasibility(proposal, request)];
      }
      assert checks == HardRails(cfg, env, input, proposal, rails);
      assert regret == RegretFor(cfg, env, input, proposal);
      var components := RailComponents(input, proposal, rails, data[0].passed);
      if !AllPassed(checks) {
        assert calls + [] == calls;
        return WithRegret(EvaluateTrustV2(Some(proposal), components, cfg.policy, checks, None), regret);
      }
      var answer := Ask(env, EvaluatorCall(input, proposal, documents, graph));
      report := WithRegret(EvaluateTrustV2(Some(proposal), WithScores(components, answer.scores), cfg.policy, checks,
                                           answer.error), regret);
    }

    method EvaluateHybridTrust(env: Environment, input: DecisionInput, proposal: ActionProposal, rails: seq<RailCheck>,
                               documents: seq<string>, graph: GraphContext) returns (r: Result<TrustReport, Failure>)
      requires input.Valid() && cycleNow == CycleNow(cfg, env) && Coherent(env, input)
      modifies this`reference, this`solves, this`calls
      ensures r == Gate(cfg, env, input, proposal, rails, documents, graph).0
      ensures calls == old(calls) + Gate(cfg, env, input, proposal, rails, documents, graph).1
      ensures Coherent(env, input) && SolvedAtMostOnce(input)
    {
      if cfg.gate.profile.IsV2Family() {
        var report := EvaluateHybridTrustV2(env, input, proposal, rails, documents, graph);
        return Success(report);
      }
      var answer := Ask(env, EvaluatorCall(input, proposal, documents, graph));
      var components := WithScores(RailComponents(input, proposal, rails, FreshSources(input.carbonSnapshot)),
                                   answer.scores);
      if !components.Valid() {
        return Result.Failure(ScoreOutOfRange);
      }
      r := EvaluateTrust(Some(proposal), components, cfg.policy, rails, answer.error);
    }

    // ---- the direct flow

    method ActOnReport(env: Environment, input: DecisionInput, proposal: ActionProposal, report: TrustReport)
      returns (r: Result<CycleResult, Failure>)
      requires Coherent(env, input)
      modifies this`reference, this`solves, this`calls
      ensures r == ActOn(cfg, env, input, proposal, report).0
      ensures calls == old(calls) + ActOn(cfg, env, input, proposal, report).1
      ensures Coherent(env, input) && SolvedAtMostOnce(input)
    {
      if !report.passed {
        r := RunMilpFlow(env, input, true, Some(report));
        return;
      }
      var result := Execute(env, Hybrid, input, proposal, Some(report), None, false);
      return Success(result);
    }

    method RunHybrid(env: Environment, input: DecisionInput, graph: GraphContext, documents: seq<string>,
                     proposal: ActionProposal)
      returns (r: Result<CycleResult, Failure>)
      requires input.Valid() && cycleNow == CycleNow(cfg, env) && Coherent(env, input)
      modifies this`reference, this`solves, this`calls
      ensures r == HybridOn(cfg, env, input, graph, documents, proposal).0
      ensures calls == old(calls) + HybridOn(cfg, env, input, graph, documents, proposal).1
      ensures Coherent(env, input) && SolvedAtMostOnce(input)
    {
      ghost var before := calls;
      var gated := EvaluateHybridTrust(env, input, proposal, ProposalRails(input, graph, proposal), documents, graph);
      ghost var asked := calls;
      if gated.Failure? {
        return Result.Failure(gated.error);
      }
      r := ActOnReport(env, input, proposal, gated.value);
      CallsAssociate(before, asked, calls, Gate(cfg, env, input, proposal, ProposalRails(input, graph, proposal),
                                                documents, graph).1,
                     ActOn(cfg, env, input, proposal, gated.value).1);
    }

    method RunCycleDirect(c: Cycle) returns (r: Result<CycleResult, Failure>)
      requires c.input.Valid() && cycleNow == CycleNow(cfg, c.env) && Coherent(c.env, c.input)
      requires agentProposal.None?
      modifies this`reference, this`solves, this`calls, this`agentProposal
      ensures r == DirectFlow(cfg, c.env, c.mode, c.input, c.graph, c.retrieved).result
      ensures r.Success? ==>
                agentProposal == DirectFlow(cfg, c.env, c.mode, c.input, c.graph, c.retrieved).agentProposal
      ensures calls == old(calls) + DirectFlow(cfg, c.env, c.mode, c.input, c.graph, c.retrieved).calls
      ensures Coherent(c.env, c.input) && SolvedAtMostOnce(c.input)
    {
      var documents := NonBlank(c.retrieved);
      if c.mode == MilpOnly {
        r := RunMilpFlow(c.env, c.input, false, None);
        return;
      }
      if c.mode == StaticReference {
        r := RunStaticFlow(c.env, c.input);
        return;
      }
      var reply := AskAgent(cfg, c.env, c.input, c.graph, documents);
      if reply.AgentFailed? {
        if c.mode == Hybrid {
          r := RunMilpFlow(c.env, c.input, true, Some(FailedReport(cfg)));
        } else {
          assert calls + [] == calls;
          r := Success(Plain(c.mode, c.input, None, None, None, None, ProposalMissing));
        }
        return;
      }
      agentProposal := Some(reply.proposal);
      if c.mode == LlmOnly {
        r := RunLlmOnly(c.env, c.input, c.graph, reply.proposal);
        return;
      }
      r := RunHybrid(c.env, c.input, c.graph, documents, reply.proposal);
    }

    method RunLlmOnly(env: Environment, input: DecisionInput, graph: GraphContext, proposal: ActionProposal)
      returns (r: Result<CycleResult, Failure>)
      modifies this`calls
      ensures r == Success(LlmOnlyOn(cfg, env, input, graph, proposal).0)
      ensures calls == old(calls) + LlmOnlyOn(cfg, env, input, graph, proposal).1
    {
      if !AllPassed(ProposalRails(input, graph, proposal)) {
        assert calls + [] == calls;
        return Success(Plain(LlmOnly, input, Some(proposal), None, None, None, ProposalRejected));
      }
      var result := Execute(env, LlmOnly, input, proposal, None, None, false);
      return Success(result);
    }

    // ---- the LangGraph nodes

    method LgProposeAction(env: Environment, s: NodeState) returns (next: NodeState)
      requires s.proposal.None?
      modifies this`agentProposal
      ensures next == ProposeAction(cfg, env, s)
      ensures agentProposal == if next.proposal.Some? then next.proposal else old(agentProposal)
    {
      next := s;
      if s.mode == MilpOnly || s.mode == StaticReference {
        return;
      }
      var reply := AskAgent(cfg, env, s.input, s.graph, s.documents);
      if reply.AgentFailed? {
        if s.mode != Hybrid {
          next := s.(terminalOutcome := Some(ProposalMissing));
        }
        return;
      }
      agentProposal := Some(reply.proposal);
      next := s.(proposal := Some(reply.proposal), rails := ProposalRails(s.input, s.graph, reply.proposal));
    }

    method LgEvaluateTrust(env: Environment, s: NodeState) returns (r: Result<NodeState, Failure>)
      requires s.input.Valid() && cycleNow == CycleNow(cfg, env) && Coherent(env, s.input)
      modifies this`reference, this`solves, this`calls
      ensures r == EvaluateTrustNode(cfg, env, s).0
      ensures calls == old(calls) + EvaluateTrustNode(cfg, env, s).1
      ensures Coherent(env, s.input) && SolvedAtMostOnce(s.input)
    {
      if s.mode != Hybrid {
        assert calls + [] == calls;
        return Success(s);
      }
      if s.proposal.None? {
        assert calls + [] == calls;
        return Success(s.(trustReport := Some(FailedReport(cfg))));
      }
      var gated := EvaluateHybridTrust(env, s.input, s.proposal.value, s.rails, s.documents, s.graph);
      if gated.Failure? {
        return Result.Failure(gated.error);
      }
      return Success(s.(trustReport := Some(gated.value)));
    }

    method LgSchedule(env: Environment, s: NodeState, fallback: bool) returns (next: NodeState)
      requires Coherent(env, s.input)
      modifies this`reference, this`solves
      ensures next == Schedule(cfg, env, s, fallback)
      ensures Coherent(env, s.input) && SolvedAtMostOnce(s.input)
    {
      var found := ReferenceSchedule(env, s.input);
      if found.Failure? {
        return s.(terminalOutcome := Some(NoFeasibleSlot));
      }
      var schedule := found.value.1;
      if !schedule.Selected? {
        return s.(scheduleResult := Some(schedule), terminalOutcome := Some(OutcomeOfStatus(schedule)));
      }
      return s.(scheduleResult := Some(schedule), proposal := Some(ProposalFromSchedule(schedule, s.input)),
                fallbackTriggered := fallback);
    }

    method LgChooseFinalAction(env: Environment, s: NodeState) returns (r: Result<NodeState, Failure>)
      requires Coherent(env, s.input)
      modifies this`reference, this`solves
      ensures r == ChooseFinalAction(cfg, env, s)
      ensures Coherent(env, s.input) && SolvedAtMostOnce(s.input)
    {
      if s.terminalOutcome.Some? {
        return Success(s);
      }
      var rejected := s.proposal.None? || s.trustReport.None? || !s.trustReport.value.passed;
      if s.mode == MilpOnly || (s.mode == Hybrid && rejected) {
        var next := LgSchedule(env, s, s.mode == Hybrid);
        return Success(next);
      }
      if s.mode == StaticReference {
        var built := StaticProposal(cfg, s.input);
        if built.Failure? {
          return Result.Failure(built.error);
        }
        if built.value.None? {
          return Success(s.(terminalOutcome := Some(NoFeasibleSlot)));
        }
        return Success(s.(proposal := built.value, fallbackTriggered := false));
      }
      if s.mode == LlmOnly && !AllPassed(s.rails) {
        return Success(s.(terminalOutcome := Some(ProposalRejected)));
      }
      return Success(s.(fallbackTriggered := false));
    }

    method LgExecute(env: Environment, s: NodeState) returns (next: NodeState)
      modifies this`calls
      ensures next == ExecuteNode(env, s).0
      ensures calls == old(calls) + ExecuteNode(env, s).1
    {
      if s.terminalOutcome.Some? || s.proposal.None? {
        assert calls + [] == calls;
        return s;
      }
      var call := CallFor(s.mode, s.input, s.proposal.value, s.fallbackTriggered);
      var reply := env.execute(call);
      calls := calls + [Call.Execute(call)];
      if reply.ExecutorRaised? {
        return s.(terminalOutcome := Some(ExecutionFailed));
      }
      var receipt := WithSloStatus(reply.receipt, s.input);
      return s.(receipt := Some(receipt), terminalOutcome := Some(OutcomeOf(receipt)));
    }

    method LgConclude(env: Environment, s: NodeState, ghost agent: Option<ActionProposal>, ghost before: seq<Call>)
      returns (r: Result<CycleResult, Failure>)
      requires Coherent(env, s.input)
      requires before <= calls
      modifies this`reference, this`solves, this`calls
      ensures r == Conclude(cfg, env, s, agent, old(calls)[|before|..]).result
      ensures calls == before + Conclude(cfg, env, s, agent, old(calls)[|before|..]).calls
      ensures Coherent(env, s.input) && SolvedAtMostOnce(s.input)
    {
      ghost var asked := calls[|before|..];
      assert calls == before + asked;
      var chosen := LgChooseFinalAction(env, s);
      if chosen.Failure? {
        return Result.Failure(chosen.error);
      }
      var executed := LgExecute(env, chosen.value);
      ghost var made := ExecuteNode(env, chosen.value).1;
      assert (before + asked) + made == before + (asked + made);
      return Success(RecordResult(executed));
    }

    method LgProceed(env: Environment, s: NodeState) returns (r: Result<CycleResult, Failure>)
      requires s.input.Valid() && cycleNow == CycleNow(cfg, env) && Coherent(env, s.input)
      modifies this`reference, this`solves, this`calls
      ensures r == Proceed(cfg, env, s).result
      ensures calls == old(calls) + Proceed(cfg, env, s).calls
      ensures Coherent(env, s.input) && SolvedAtMostOnce(s.input)
    {
      ghost var before := calls;
      ghost var asked := EvaluateTrustNode(cfg, env, s).1;
      var evaluated := LgEvaluateTrust(env, s);
      if evaluated.Failure? {
        return Result.Failure(evaluated.error);
      }
      assert calls == before + asked && calls[|before|..] == asked;
      r := LgConclude(env, evaluated.value, s.proposal, before);
    }

    method RunCycleLangGraph(c: Cycle) returns (r: Result<CycleResult, Failure>)
      requires c.input.Valid() && cycleNow == CycleNow(cfg, c.env) && Coherent(c.env, c.input)
      requires agentProposal.None?
      modifies this`reference, this`solves, this`calls, this`agentProposal
      ensures r == LangGraphRun(cfg, c.env, c.mode, c.input, c.graph, c.retrieved).result
      ensures r.Success? ==>
                agentProposal == LangGraphRun(cfg, c.env, c.mode, c.input, c.graph, c.retrieved).agentProposal
      ensures calls == old(calls) + LangGraphRun(cfg, c.env, c.mode, c.input, c.graph, c.retrieved).calls
      ensures Coherent(c.env, c.input) && SolvedAtMostOnce(c.input)
    {
      var s := CollectContext(Initial(c.mode, c.input, c.graph, c.retrieved));
      s := LgProposeAction(c.env, s);
      ProceedKeepsAgent(cfg, c.env, s);
      r := LgProceed(c.env, s);
    }

    // ---- data-integrity handling

    method Hold(input: DecisionInput, failed: seq<RailCheck>) returns (r: Result<CycleResult, Failure>)
      ensures r == HoldOn(cfg, State(), input, failed)
    {
      var region := if Truthy(lastPlacement) then lastPlacement.value else cfg.defaultRegion;
      var latency := ExpectedLatency(cfg, input.workloadProfile, region);
      if latency.Failure? {
        return Result.Failure(latency.error);
      }
      var action := ActionProposal(RunNow, region, input.targetService, None, input.workloadProfile, latency.value, []);
      var receipt := ExecutionReceipt(input.runId, input.cycleId, Hybrid, action, true, None, None, None, Some("hold"),
                                      None, Some(FromHold), true, Some(Critical), None);
      var result := Plain(Hybrid, input, None, Some(DataIntegrityReport(cfg, failed)), None, Some(receipt),
                          DataIntegrityHold);
      return Success(result.(decisionSource := Some(FromHold), alert := true, alertLevel := Some(Critical),
                             failedDataRails := Some(FailedNames(failed))));
    }

    method DataIntegrityResponse(env: Environment, input: DecisionInput,
                                 failed: seq<RailCheck>) returns (r: Result<CycleResult, Failure>)
      requires input.Valid() && Healthy(State())
      requires cycleNow == CycleNow(cfg, env)
      requires failed == FailedChecks(DataRailChecks(cfg, env, input))
      modifies this`calls, this`solves
      ensures r == DataIntegrityFlow(cfg, env, State(), input).result
      ensures calls == old(calls) + DataIntegrityFlow(cfg, env, State(), input).calls
      ensures old(solves) <= solves <= old(solves) + 1
    {
      assert calls + [] == calls;
      if lastKnownGood.None? {
        r := Hold(input, failed);
        return;
      }
      var good := lastKnownGood.value;
      var at := if cycleNow.Some? then cycleNow.value else input.carbonSnapshot.decisionTime;
      var age := SnapshotDataAge(good, at);
      RecentEnoughIsAboutTheOldest(good, at, age, cfg.gate.lastKnownGoodMaxAgeSeconds);
      if Seconds(age) > cfg.gate.lastKnownGoodMaxAgeSeconds {
        r := Hold(input, failed);
        return;
      }
      var built := BuildSchedulingRequest(OnLastKnownGood(input, good), cfg.defaultRegion, cfg.catalog,
                                          cfg.slotMinutes);
      if built.Failure? {
        r := Hold(input, failed);
        return;
      }
      var schedule := SolveSchedule(built.value, env.solver);
      solves := solves + 1;
      if !schedule.Selected? {
        r := Hold(input, failed);
        return;
      }
      assert LastKnownGoodUsable(cfg, env, State(), input);
      var result := Execute(env, Hybrid, input, ProposalFromSchedule(schedule, OnLastKnownGood(input, good)),
                            Some(DataIntegrityReport(cfg, failed)), Some(schedule), true);
      return Success(result.(decisionSource := Some(FromLastKnownGood), alert := true, alertLevel := Some(Warning),
                             failedDataRails := Some(FailedNames(failed)),
                             lastKnownGood := Some(LastKnownGoodUse(good.snapshotId, age))));
    }

    // ---- the cycle

    method Stamp(result: CycleResult) returns (stamped: CycleResult)
      modifies this`lastPlacement
      ensures stamped == Stamped(cfg, result, agentProposal)
      ensures lastPlacement == PlacementAfter(old(lastPlacement), result)
    {
      var profile, receipt, source := Some(cfg.gate.profile), result.executionReceipt, result.decisionSource;
      if source.None? && receipt.Some? {
        source := match result.mode
          case StaticReference => Some(FromStaticReference)
          case LlmOnly => Some(FromLlm)
          case MilpOnly => Some(FromMilp)
          case Hybrid => Some(if receipt.value.fallbackTriggered then FromMilp else FromLlm);
      }
      stamped := result.(gateProfile := profile, agentProposal := agentProposal, decisionSource := source);
      if result.trustReport.Some? {
        stamped := stamped.(trustReport := Some(result.trustReport.value.(gateProfile := profile)));
      }
      if receipt.Some? {
        stamped := stamped.(executionReceipt := Some(receipt.value.(
          gateProfile := profile, decisionSource := source, alert := result.alert, alertLevel := result.alertLevel)));
        if result.outcome == DryRun || result.outcome == Executed {
          lastPlacement := Some(receipt.value.finalAction.targetRegion);
        }
      }
    }

    method FinishCycle(result: Result<CycleResult, Failure>, ghost attempt: Attempt)
      returns (r: Result<CycleResult, Failure>)
      requires result == attempt.result
      requires result.Success? ==> agentProposal == attempt.agentProposal
      modifies this`lastPlacement
      ensures r == Finish(cfg, old(State()), attempt).result
      ensures State() == Finish(cfg, old(State()), attempt).state
    {
      if result.Failure? {
        return result;
      }
      var stamped := Stamp(result.value);
      return Success(stamped);
    }

    method RunFlow(c: Cycle) returns (r: Result<CycleResult, Failure>)
      requires c.input.Valid() && cycleNow == CycleNow(cfg, c.env) && Coherent(c.env, c.input)
      requires agentProposal.None?
      modifies this`reference, this`solves, this`calls, this`agentProposal
      ensures r == MainFlow(cfg, via, c).result
      ensures r.Success? ==> agentProposal == MainFlow(cfg, via, c).agentProposal
      ensures calls == old(calls) + MainFlow(cfg, via, c).calls
      ensures Coherent(c.env, c.input) && SolvedAtMostOnce(c.input)
    {
      if via == LangGraph {
        r := RunCycleLangGraph(c);
      } else {
        r := RunCycleDirect(c);
      }
    }

    /** A gated cycle whose data rails failed. */
    method RunFailing(c: Cycle, failed: seq<RailCheck>) returns (r: Result<CycleResult, Failure>)
      requires c.input.Valid() && Healthy(State())
      requires cycleNow == CycleNow(cfg, c.env) && agentProposal.None?
      requires failed == FailedChecks(DataRailChecks(cfg, c.env, c.input))
      modifies this
      ensures var step := Finish(cfg, old(State()), DataIntegrityFlow(cfg, c.env, old(State()), c.input));
              r == step.result && State() == step.state && calls == old(calls) + step.calls
      ensures old(solves) <= solves <= old(solves) + 1 && reference == old(reference)
    {
      ghost var attempt := DataIntegrityFlow(cfg, c.env, State(), c.input);
      r := DataIntegrityResponse(c.env, c.input, failed);
      r := FinishCycle(r, attempt);
    }

    /** A gated cycle whose data rails passed. */
    method RunClean(c: Cycle) returns (r: Result<CycleResult, Failure>)
      requires c.input.Valid() && Coherent(c.env, c.input)
      requires cycleNow == CycleNow(cfg, c.env) && agentProposal.None?
      modifies this
      ensures var kept := RunState(Some(c.input.carbonSnapshot), old(lastPlacement));
              var step := Finish(cfg, kept, Annotated(MainFlow(cfg, via, c)));
              r == step.result && State() == step.state && calls == old(calls) + step.calls
      ensures Coherent(c.env, c.input) && SolvedAtMostOnce(c.input)
    {
      lastKnownGood := Some(c.input.carbonSnapshot);
      r := RunFlow(c);
      if r.Success? {
        r := Success(r.value.(failedDataRails := Some([])));
      }
      r := FinishCycle(r, Annotated(MainFlow(cfg, via, c)));
    }

    method RunGated(c: Cycle) returns (r: Result<CycleResult, Failure>)
      requires c.input.Valid() && Healthy(State()) && Gated(cfg, c)
      requires cycleNow == CycleNow(cfg, c.env) && reference.None? && agentProposal.None?
      modifies this
      ensures r == CycleStep(cfg, via, old(State()), c).result
      ensures State() == CycleStep(cfg, via, old(State()), c).state
      ensures calls == old(calls) + CycleStep(cfg, via, old(State()), c).calls
      ensures old(solves) <= solves <= old(solves) + 1
      ensures Coherent(c.env, c.input)
    {
      var checks := DataRailsOf(c.env, c.input);
      var failed := FailedChecks(checks);
      FailedChecksEmptyIff(checks);
      if failed != [] {
        r := RunFailing(c, failed);
      } else {
        r := RunClean(c);
      }
    }

    /** One complete cycle. The memo is reset first, so even two cycles with the
        same identifiers never share a reference; the regret rail and the
        fallback of one cycle read the same optimum, solved at most once. */
    method RunCycle(c: Cycle) returns (r: Result<CycleResult, Failure>)
      requires c.input.Valid() && Healthy(State())
      modifies this
      ensures r == CycleStep(cfg, via, old(State()), c).result
      ensures State() == CycleStep(cfg, via, old(State()), c).state
      ensures calls == old(calls) + CycleStep(cfg, via, old(State()), c).calls
      ensures old(solves) <= solves <= old(solves) + 1
      ensures Coherent(c.env, c.input)
    {
      agentProposal, reference, cycleNow := None, None, CycleNow(cfg, c.env);
      if c.mode == Hybrid && cfg.gate.profile.IsV2Family() {
        r := RunGated(c);
      } else {
        r := RunFlow(c);
        r := FinishCycle(r, MainFlow(cfg, via, c));
      }
    }
  }

  lemma {:induction false} FailedChecksEmptyIff(checks: seq<RailCheck>)
    ensures FailedChecks(checks) == [] <==> AllPassed(checks)
  {
    if checks != [] {
      var front := checks[..|checks| - 1];
      FailedChecksEmptyIff(front);
      assert forall i :: 0 <= i < |front| ==> front[i] == checks[i];
    }
  }

  lemma ProceedKeepsAgent(cfg: WorkflowConfig, env: Environment, s: NodeState)
    requires s.input.Valid()
    ensures Proceed(cfg, env, s).agentProposal == s.proposal
  {
  }

  lemma CallsAssociate(before: seq<Call>, middle: seq<Call>, after: seq<Call>, asked: seq<Call>, made: seq<Call>)
    requires middle == before + asked && after == middle + made
    ensures after == before + (asked + made)
  {
  }
}
