/** What the hard rails of the v2 family guarantee about the proposals they
    pass: the regret bounds, exactly when the lower one can fail, and that the
    fallback itself would pass. */
module GateLaws {
  import opened Wrappers
  import opened Schemas
  import opened Milp
  import opened Request
  import opened Trust
  import opened DataRails
  import opened Decision
  import opened Runs

  /** The hard rails applied to a proposal on its own inputs. */
  ghost predicate RailsAdmit(cfg: WorkflowConfig, env: Environment, input: DecisionInput, graph: GraphContext,
                             proposal: ActionProposal)
    requires input.Valid()
  {
    AllPassed(HardRails(cfg, env, input, proposal, ProposalRails(input, graph, proposal)))
  }

  lemma RailsAdmitIff(cfg: WorkflowConfig, env: Environment, input: DecisionInput, graph: GraphContext,
                      proposal: ActionProposal)
    requires input.Valid()
    ensures RailsAdmit(cfg, env, input, graph, proposal)
            <==> && RailsPass(proposal, input, AllowedServices(graph, input))
                 && DataRailsPass(cfg, env, input)
                 && CheckEvidence(proposal, input.retrievalContextIds).passed
                 && RegretFor(cfg, env, input, proposal).check.passed
                 && (cfg.gate.FeasibilityRailEnabled() ==> FeasibilityFor(cfg, env, input, proposal).passed)
  {
    RailsTogether(ProposalRails(input, graph, proposal), DataRailChecks(cfg, env, input),
                  CheckEvidence(proposal, input.retrievalContextIds), RegretFor(cfg, env, input, proposal).check,
                  if cfg.gate.FeasibilityRailEnabled() then Some(FeasibilityFor(cfg, env, input, proposal)) else None);
  }

  lemma RailsTogether(rails: seq<RailCheck>, data: seq<RailCheck>, evidence: RailCheck, regret: RailCheck,
                      feasibility: Option<RailCheck>)
    ensures AllPassed(rails + data + [evidence, regret] + if feasibility.Some? then [feasibility.value] else [])
            <==> && AllPassed(rails) && AllPassed(data) && evidence.passed && regret.passed
                 && (feasibility.Some? ==> feasibility.value.passed)
  {
    var pair, last := [evidence, regret], if feasibility.Some? then [feasibility.value] else [];
    if AllPassed(rails + data + pair + last) {
      PassedSplits(rails, data, pair, last);
      assert pair[0].passed && pair[1].passed;
      assert feasibility.Some? ==> last[0].passed;
    }
  }

  // ---- exactly what the gate admits

  /** Some slot values the proposal at its worth, and that is within the tolerance
      of the optimum, which the solver found. */
  ghost predicate NearOptimum(request: SchedulingRequest, solver: Solver, proposal: ActionProposal, tolerance: real) {
    && Answers(solver, request)
    && exists best, c ::
         && IsOptimal(best, request) && IsWorth(c, proposal, request)
         && c.intensity <= (1.0 + tolerance + 0.000000000001) * best.intensity
  }

  /** That, on the request built from the proposal's own input. */
  ghost predicate WorthTheOptimum(cfg: WorkflowConfig, env: Environment, input: DecisionInput,
                                  proposal: ActionProposal)
  {
    var built := BuildRequest(input, cfg.defaultRegion, cfg.catalog, cfg.slotMinutes);
    built.Success? && NearOptimum(built.value, env.solver, proposal, cfg.gate.carbonRegretTolerance)
  }

  /** The start lies in the window and some slot that values the proposal is feasible. */
  ghost predicate FeasibleSlot(cfg: WorkflowConfig, input: DecisionInput, proposal: ActionProposal) {
    var built := BuildRequest(input, cfg.defaultRegion, cfg.catalog, cfg.slotMinutes);
    && built.Success?
    && input.earliestStart <= proposal.scheduledTime.GetOr(input.earliestStart) <= input.deadline
    && exists c :: Values(c, proposal, built.value) && IsFeasible(c, built.value)
  }

  /** The proposal names an allowed region and service, starts in the window, and
      declares a positive latency within the SLO in an available region. */
  predicate FitsInput(input: DecisionInput, graph: GraphContext, proposal: ActionProposal) {
    && proposal.targetRegion in input.candidateRegions
    && proposal.targetService in graph.allowedServices.GetOr([input.targetService])
    && 0.0 < proposal.expectedP95LatencyMs <= input.p95SloLimitMs
    && input.earliestStart <= proposal.scheduledTime.GetOr(input.earliestStart) <= input.deadline
    && proposal.targetRegion in input.clusterAvailable && input.clusterAvailable[proposal.targetRegion]
  }

  predicate CitesSupplied(input: DecisionInput, proposal: ActionProposal) {
    forall i :: 0 <= i < |proposal.evidenceIds| ==> proposal.evidenceIds[i] in input.retrievalContextIds
  }

  /** The hard rails pass exactly for a proposal that fits the input, cites supplied
      evidence only and is worth the optimum, on data that pass both data rails, and
      under `v2.1` or an explicit setting has a feasible slot. */
  lemma HardRailsPassIff(cfg: WorkflowConfig, env: Environment, input: DecisionInput, graph: GraphContext,
                         proposal: ActionProposal)
    requires input.Valid()
    ensures RailsAdmit(cfg, env, input, graph, proposal)
            <==> && FitsInput(input, graph, proposal)
                 && DataRailsPass(cfg, env, input)
                 && CitesSupplied(input, proposal)
                 && WorthTheOptimum(cfg, env, input, proposal)
                 && (cfg.gate.modelFeasibilityRail.GetOr(cfg.gate.profile == V21) ==>
                       FeasibleSlot(cfg, input, proposal))
  {
    RailsAdmitIff(cfg, env, input, graph, proposal);
    ProposalRailsPassIff(proposal, input.candidateRegions, AllowedServices(graph, input), input.earliestStart,
                         input.deadline, input.clusterAvailable, input.p95SloLimitMs);
    EvidencePassesIff(proposal, input.retrievalContextIds);
    RegretForIff(cfg, env, input, proposal);
    FeasibilityForIff(cfg, env, input, proposal);
  }

  lemma RegretForIff(cfg: WorkflowConfig, env: Environment, input: DecisionInput, proposal: ActionProposal)
    requires input.Valid()
    ensures RegretFor(cfg, env, input, proposal).check.passed <==> WorthTheOptimum(cfg, env, input, proposal)
  {
    var built := BuildRequest(input, cfg.defaultRegion, cfg.catalog, cfg.slotMinutes);
    if built.Success? {
      BuiltRequestIsUniform(input, cfg.defaultRegion, cfg.catalog, cfg.slotMinutes, built.value, proposal);
      RegretOnRequestIff(built.value, env.solver, proposal, cfg.gate.carbonRegretTolerance);
    }
  }

  lemma RegretOnRequestIff(request: SchedulingRequest, solver: Solver, proposal: ActionProposal, tolerance: real)
    requires forall c :: c in request.candidates ==> c.intensity >= 0.0
    ensures CheckCarbonRegret(proposal, Some(request), Some(SolveSchedule(request, solver)), tolerance).check.passed
            <==> NearOptimum(request, solver, proposal, tolerance)
  {
    var schedule := SolveSchedule(request, solver);
    RegretPassesIff(proposal, Some(request), Some(schedule), tolerance);
    SolveIsExact(request, solver);
    if schedule.Selected? {
      ToleranceOfOptimum(request, schedule, proposal, tolerance);
    }
  }

  lemma ToleranceOfOptimum(request: SchedulingRequest, schedule: ScheduleResult, proposal: ActionProposal,
                           tolerance: real)
    requires schedule.Selected? && exists best :: IsOptimal(best, request) && Selects(schedule, best, request)
    requires forall c :: c in request.candidates ==> c.intensity >= 0.0
    ensures (exists c :: IsWorth(c, proposal, request) && Tolerable(c.intensity, schedule.intensity, tolerance))
            <==> exists best, c :: IsOptimal(best, request) && IsWorth(c, proposal, request)
                                   && c.intensity <= (1.0 + tolerance + 0.000000000001) * best.intensity
  {
    forall best | IsOptimal(best, request) ensures best.intensity == schedule.intensity {
      OptimaShareIntensity(request, schedule, best);
    }
    var selected :| IsOptimal(selected, request);
  }

  lemma FeasibilityForIff(cfg: WorkflowConfig, env: Environment, input: DecisionInput, proposal: ActionProposal)
    requires input.Valid()
    ensures FeasibilityFor(cfg, env, input, proposal).passed <==> FeasibleSlot(cfg, input, proposal)
  {
    var built := BuildRequest(input, cfg.defaultRegion, cfg.catalog, cfg.slotMinutes);
    if built.Success? {
      ModelFeasibleIff(proposal, built.value);
    }
  }

  /** The v2 gate passes exactly the proposals whose hard rails pass and for which a
      configured evaluator gives two scores whose weighted mean reaches the threshold. */
  lemma V2AdmitsIff(cfg: WorkflowConfig, env: Environment, input: DecisionInput, graph: GraphContext,
                    proposal: ActionProposal, documents: seq<string>)
    requires input.Valid()
    ensures var call := EvaluatorCall(input, proposal, documents, graph);
            V2Gate(cfg, env, input, proposal, ProposalRails(input, graph, proposal), documents, graph).0.passed
            <==> && RailsAdmit(cfg, env, input, graph, proposal)
                 && cfg.evaluatorConfigured && env.evaluate(call).Scores?
                 && Reaches(env.evaluate(call).faithfulness, env.evaluate(call).contextPrecision, cfg.policy.weights,
                            cfg.policy.threshold)
  {
    var rails := ProposalRails(input, graph, proposal);
    var checks := HardRails(cfg, env, input, proposal, rails);
    var components := RailComponents(input, proposal, rails, DataRailChecks(cfg, env, input)[0].passed);
    var answer := AskEvaluator(cfg, env, EvaluatorCall(input, proposal, documents, graph));
    V2PassesIff(proposal, components, cfg.policy, checks, None);
    V2PassesIff(proposal, WithScores(components, answer.scores), cfg.policy, checks, answer.error);
  }

  /** The cause on a v2 report: the rails first, then an evaluator that is missing or
      raised, then weights that carry nothing, then the threshold. */
  lemma V2CauseTells(cfg: WorkflowConfig, env: Environment, input: DecisionInput, graph: GraphContext,
                     proposal: ActionProposal, documents: seq<string>)
    requires input.Valid()
    ensures var reply := env.evaluate(EvaluatorCall(input, proposal, documents, graph));
            var report := V2Gate(cfg, env, input, proposal, ProposalRails(input, graph, proposal), documents, graph).0;
            var weight := cfg.policy.weights.ragasFaithfulness + cfg.policy.weights.ragasContextPrecision;
            var clean := RailsAdmit(cfg, env, input, graph, proposal);
            var answered := cfg.evaluatorConfigured && reply.Scores?;
            && (report.cause == Some(FailedRails) <==> !clean)
            && (report.cause == Some(EvaluatorFailed)
                <==> clean && (cfg.evaluatorConfigured ==> reply.EvaluatorRaised? && reply.message != ""))
            && (report.cause == Some(MissingComponents)
                <==> clean && cfg.evaluatorConfigured && reply == EvaluatorRaised(""))
            && (report.cause == Some(NoEvaluativeWeight) <==> clean && answered && weight <= 0.0)
            && (report.cause == Some(BelowThreshold) <==> clean && answered && weight > 0.0 && !report.passed)
            && (report.cause == None <==> report.passed)
  {
    var rails := ProposalRails(input, graph, proposal);
    var checks := HardRails(cfg, env, input, proposal, rails);
    var components := RailComponents(input, proposal, rails, DataRailChecks(cfg, env, input)[0].passed);
    var answer := AskEvaluator(cfg, env, EvaluatorCall(input, proposal, documents, graph));
    CauseIs(proposal, components, cfg.policy, checks, None);
    CauseIs(proposal, WithScores(components, answer.scores), cfg.policy, checks, answer.error);
  }

  lemma CauseIs(proposal: ActionProposal, components: TrustComponentScores, policy: TrustPolicy,
                checks: seq<RailCheck>, error: Option<string>)
    ensures var report := EvaluateTrustV2(Some(proposal), components, policy, checks, error);
            var complete := components.ragasFaithfulness.Some? && components.ragasContextPrecision.Some?;
            var weight := policy.weights.ragasFaithfulness + policy.weights.ragasContextPrecision;
            if !AllPassed(checks) then report.cause == Some(FailedRails) && !report.passed
            else if Truthy(error) then report.cause == Some(EvaluatorFailed) && !report.passed
            else if !complete then report.cause == Some(MissingComponents) && !report.passed
            else if weight <= 0.0 then report.cause == Some(NoEvaluativeWeight) && !report.passed
            else report.cause == if report.passed then None else Some(BelowThreshold)
  {
  }

  /** The components on a v2 report: full or none for the proposal rails, the age rail
      and the region's availability, and the evaluator's scores when it was asked and
      answered, which takes hard rails that pass. */
  ghost predicate ComponentsTell(cfg: WorkflowConfig, env: Environment, input: DecisionInput, graph: GraphContext,
                                 proposal: ActionProposal, scores: Option<(real, real)>, k: TrustComponentScores)
  {
    var now := if cfg.clockSupplied || cfg.realExecutor then Some(env.cycleNow) else None;
    var available := proposal.targetRegion in input.clusterAvailable && input.clusterAvailable[proposal.targetRegion];
    && k.nemoRails == Some(if FitsInput(input, graph, proposal) then 1.0 else 0.0)
    && k.dataFreshness == Some(if DataAgeOk(input.carbonSnapshot, cfg.gate.maxDataAgeSeconds, now) then 1.0 else 0.0)
    && k.executionFeasibility == Some(if available then 1.0 else 0.0)
    && k.ragasFaithfulness == (if scores.Some? then Some(scores.value.0) else None)
    && k.ragasContextPrecision == (if scores.Some? then Some(scores.value.1) else None)
  }

  lemma V2ComponentsTell(cfg: WorkflowConfig, env: Environment, input: DecisionInput, graph: GraphContext,
                         proposal: ActionProposal, documents: seq<string>)
    requires input.Valid()
    ensures var rails := ProposalRails(input, graph, proposal);
            var reply := env.evaluate(EvaluatorCall(input, proposal, documents, graph));
            var scored := RailsAdmit(cfg, env, input, graph, proposal) && cfg.evaluatorConfigured && reply.Scores?;
            ComponentsTell(cfg, env, input, graph, proposal,
                           if scored then Some((reply.faithfulness, reply.contextPrecision)) else None,
                           V2Gate(cfg, env, input, proposal, rails, documents, graph).0.components)
  {
    var reply := env.evaluate(EvaluatorCall(input, proposal, documents, graph));
    var scored := RailsAdmit(cfg, env, input, graph, proposal) && cfg.evaluatorConfigured && reply.Scores?;
    var scores := if scored then Some((reply.faithfulness, reply.contextPrecision)) else None;
    RailComponentsTell(cfg, env, input, graph, proposal, scores);
    V2KeepsComponents(cfg, env, input, proposal, ProposalRails(input, graph, proposal), documents, graph);
  }

  lemma RailComponentsTell(cfg: WorkflowConfig, env: Environment, input: DecisionInput, graph: GraphContext,
                           proposal: ActionProposal, scores: Option<(real, real)>)
    requires input.Valid()
    ensures ComponentsTell(cfg, env, input, graph, proposal, scores,
                           WithScores(RailComponents(input, proposal, ProposalRails(input, graph, proposal),
                                                     DataRailChecks(cfg, env, input)[0].passed), scores))
  {
    ProposalRailsPassIff(proposal, input.candidateRegions, AllowedServices(graph, input), input.earliestStart,
                         input.deadline, input.clusterAvailable, input.p95SloLimitMs);
  }

  lemma V2KeepsComponents(cfg: WorkflowConfig, env: Environment, input: DecisionInput, proposal: ActionProposal,
                          rails: seq<RailCheck>, documents: seq<string>, graph: GraphContext)
    requires input.Valid()
    ensures var reply := env.evaluate(EvaluatorCall(input, proposal, documents, graph));
            var scored := && AllPassed(HardRails(cfg, env, input, proposal, rails))
                          && cfg.evaluatorConfigured && reply.Scores?;
            V2Gate(cfg, env, input, proposal, rails, documents, graph).0.components
            == WithScores(RailComponents(input, proposal, rails, DataRailChecks(cfg, env, input)[0].passed),
                          if scored then Some((reply.faithfulness, reply.contextPrecision)) else None)
  {
    var checks := HardRails(cfg, env, input, proposal, rails);
    var components := RailComponents(input, proposal, rails, DataRailChecks(cfg, env, input)[0].passed);
    var answer := AskEvaluator(cfg, env, EvaluatorCall(input, proposal, documents, graph));
    ReportKeepsComponents(proposal, components, cfg.policy, checks, None);
    ReportKeepsComponents(proposal, WithScores(components, answer.scores), cfg.policy, checks, answer.error);
  }

  lemma ReportKeepsComponents(proposal: ActionProposal, components: TrustComponentScores, policy: TrustPolicy,
                              checks: seq<RailCheck>, evaluatorError: Option<string>)
    ensures EvaluateTrustV2(Some(proposal), components, policy, checks, evaluatorError).components == components
  {
  }

  /** As built, a missing or raising evaluator comes first and the rails after it. */
  lemma AsBuiltCauseTells(cfg: WorkflowConfig, env: Environment, input: DecisionInput, graph: GraphContext,
                          proposal: ActionProposal, documents: seq<string>)
    requires cfg.policy.weights.Valid()
    ensures var reply := env.evaluate(EvaluatorCall(input, proposal, documents, graph));
            var report := AsBuiltGate(cfg, env, input, proposal, ProposalRails(input, graph, proposal), documents,
                                      graph).0;
            report.Success? ==>
              && (report.value.cause == Some(EvaluatorFailed)
                  <==> (cfg.evaluatorConfigured ==> reply.EvaluatorRaised? && reply.message != ""))
              && (report.value.cause == Some(MissingComponents)
                  <==> cfg.evaluatorConfigured && reply == EvaluatorRaised(""))
              && (report.value.cause == Some(FailedRails)
                  <==> cfg.evaluatorConfigured && reply.Scores? && !FitsInput(input, graph, proposal))
              && (report.value.cause == None <==> report.value.passed)
  {
    ProposalRailsPassIff(proposal, input.candidateRegions, AllowedServices(graph, input), input.earliestStart,
                         input.deadline, input.clusterAvailable, input.p95SloLimitMs);
  }

  /** What a v2 report says of the regret: the proposal's worth, the optimum of the
      same inputs, and their relative difference. */
  lemma RegretOnRequest(cfg: WorkflowConfig, env: Environment, input: DecisionInput, proposal: ActionProposal,
                        request: SchedulingRequest, best: ScheduleCandidate, c: ScheduleCandidate)
    requires BuildRequest(input, cfg.defaultRegion, cfg.catalog, cfg.slotMinutes) == Success(request)
    requires Answers(env.solver, request) && IsOptimal(best, request) && IsWorth(c, proposal, request)
    ensures Reports(RegretFor(cfg, env, input, proposal), c.intensity, best.intensity)
  {
    var schedule := SolveSchedule(request, env.solver);
    SolveIsExact(request, env.solver);
    OptimaShareIntensity(request, schedule, best);
    RegretIsReported(proposal, request, schedule, cfg.gate.carbonRegretTolerance, c);
  }

  lemma ReportHasFigures(cfg: WorkflowConfig, env: Environment, input: DecisionInput, proposal: ActionProposal,
                         rails: seq<RailCheck>, documents: seq<string>, graph: GraphContext)
    requires input.Valid()
    ensures var report, regret := V2Gate(cfg, env, input, proposal, rails, documents, graph).0,
                                  RegretFor(cfg, env, input, proposal);
            && report.proposalIntensity == regret.proposalIntensity
            && report.referenceIntensity == regret.referenceIntensity
            && report.carbonRegret == regret.regret
  {
  }

  lemma OptimaShareIntensity(request: SchedulingRequest, schedule: ScheduleResult, best: ScheduleCandidate)
    requires schedule.Selected? && IsOptimal(best, request)
    requires exists selected :: IsOptimal(selected, request) && Selects(schedule, selected, request)
    ensures schedule.intensity == best.intensity
  {
    var selected :| IsOptimal(selected, request) && Selects(schedule, selected, request);
    OptimalIsLexicographicLeast(best, request, selected);
    OptimalIsLexicographicLeast(selected, request, best);
  }

  /** The weighted sum of the as-built profile for a proposal that fits its input:
      the rail and feasibility weights in full, the freshness weight when no region
      is cached or replayed with a fallback reason, and the two scores' shares. */
  function FullRailsSum(input: DecisionInput, w: TrustWeights, f: real, p: real): real {
    var current := forall r :: r in input.carbonSnapshot.regions ==>
      var data := input.carbonSnapshot.regions[r];
      data.source == Live || (data.source == Replay && (data.fallbackReason.None? || data.fallbackReason.value == ""));
    f * w.ragasFaithfulness + p * w.ragasContextPrecision + w.nemoRails + (if current then w.dataFreshness else 0.0)
    + w.executionFeasibility
  }

  /** The as-built gate, exactly: it raises for scores outside [0, 1], or for a
      proposal that fits its input and a sum over one; it passes for a proposal that
      fits and a sum from the threshold to one; anything else it rejects. */
  lemma AsBuiltAdmitsIff(cfg: WorkflowConfig, env: Environment, input: DecisionInput, graph: GraphContext,
                         proposal: ActionProposal, documents: seq<string>)
    requires cfg.policy.weights.Valid()
    ensures var reply := env.evaluate(EvaluatorCall(input, proposal, documents, graph));
            var answered := cfg.evaluatorConfigured && reply.Scores?;
            var inUnit := answered && 0.0 <= reply.faithfulness <= 1.0 && 0.0 <= reply.contextPrecision <= 1.0;
            var fits := FitsInput(input, graph, proposal);
            var sum := if reply.Scores? then
                         FullRailsSum(input, cfg.policy.weights, reply.faithfulness, reply.contextPrecision) else 0.0;
            var report := AsBuiltGate(cfg, env, input, proposal, ProposalRails(input, graph, proposal), documents,
                                      graph).0;
            && (report.Failure? <==> answered && (!inUnit || (fits && sum > 1.0)))
            && (report.Success? && report.value.passed <==> inUnit && fits && cfg.policy.threshold <= sum <= 1.0)
  {
    var rails := ProposalRails(input, graph, proposal);
    ProposalRailsPassIff(proposal, input.candidateRegions, AllowedServices(graph, input), input.earliestStart,
                         input.deadline, input.clusterAvailable, input.p95SloLimitMs);
    var answer := AskEvaluator(cfg, env, EvaluatorCall(input, proposal, documents, graph));
    if answer.scores.Some? {
      ScoredIff(cfg.policy, input, proposal, rails, answer.scores.value.0, answer.scores.value.1);
    }
  }

  lemma ScoredIff(policy: TrustPolicy, input: DecisionInput, proposal: ActionProposal, rails: seq<RailCheck>, f: real,
                  p: real)
    requires policy.weights.Valid() && rails != []
    requires AllPassed(rails) ==> Lookup(input.clusterAvailable, proposal.targetRegion, false)
    ensures var components := WithScores(RailComponents(input, proposal, rails, FreshSources(input.carbonSnapshot)),
                                         Some((f, p)));
            var report := EvaluateTrust(Some(proposal), components, policy, rails, None);
            var sum := FullRailsSum(input, policy.weights, f, p);
            && (components.Valid() <==> 0.0 <= f <= 1.0 && 0.0 <= p <= 1.0)
            && (components.Valid() ==>
                  && (report.Failure? <==> AllPassed(rails) && sum > 1.0)
                  && (report.Success? && report.value.passed
                      <==> AllPassed(rails) && policy.threshold <= sum <= 1.0))
  {
    var components := WithScores(RailComponents(input, proposal, rails, FreshSources(input.carbonSnapshot)),
                                 Some((f, p)));
    if components.Valid() {
      AsBuiltPassesIff(proposal, components, policy, rails, None);
      AsBuiltScoreNonnegative(components, policy.weights);
      ScoreIsSum(components, policy.weights, policy.threshold);
      if AllPassed(rails) {
        FullSumIsScore(input, policy.weights, f, p);
      }
    }
  }

  lemma FullSumIsScore(input: DecisionInput, w: TrustWeights, f: real, p: real)
    ensures FullRailsSum(input, w, f, p)
            == AsBuiltScore(TrustComponentScores(Some(f), Some(p), Some(1.0), Unit(FreshSources(input.carbonSnapshot)),
                                                 Some(1.0)), w)
  {
    assert 1.0 * w.nemoRails == w.nemoRails && 1.0 * w.executionFeasibility == w.executionFeasibility;
    assert 1.0 * w.dataFreshness == w.dataFreshness && 0.0 * w.dataFreshness == 0.0;
  }

  // ---- the regret bounds

  /** Whatever rail profile, a proposal the hard rails pass emits at most
      (1 + tolerance + slack) times the exact optimum of its own inputs. */
  lemma AdmittedAtMostRegret(cfg: WorkflowConfig, env: Environment, input: DecisionInput, graph: GraphContext,
                             proposal: ActionProposal)
    requires input.Valid() && RailsAdmit(cfg, env, input, graph, proposal)
    ensures var reference := Reference(cfg, env, input);
            && reference.Success? && reference.value.1.Selected?
            && AtMostRegret(ExpectedIntensity(proposal, reference.value.0), reference.value.1.intensity,
                            cfg.gate.carbonRegretTolerance)
  {
    RailsAdmitIff(cfg, env, input, graph, proposal);
    var request := Reference(cfg, env, input).value.0;
    UpperHalf(input, cfg.defaultRegion, cfg.catalog, cfg.slotMinutes, request, env.solver, proposal,
              cfg.gate.carbonRegretTolerance);
  }

  /** The catalog latency of a region is within the SLO. */
  predicate CatalogWithinSlo(cfg: WorkflowConfig, input: DecisionInput, region: string) {
    && input.workloadProfile in cfg.catalog && region in cfg.catalog[input.workloadProfile]
    && cfg.catalog[input.workloadProfile][region] <= input.p95SloLimitMs
  }

  /** With the feasibility rail, or for a region whose catalog latency is within
      the SLO, it also emits at least the optimum. */
  lemma AdmittedWithinSandwich(cfg: WorkflowConfig, env: Environment, input: DecisionInput, graph: GraphContext,
                               proposal: ActionProposal)
    requires input.Valid() && RailsAdmit(cfg, env, input, graph, proposal)
    requires cfg.gate.FeasibilityRailEnabled() || CatalogWithinSlo(cfg, input, proposal.targetRegion)
    ensures var reference := Reference(cfg, env, input);
            && reference.Success? && reference.value.1.Selected?
            && WithinRegret(ExpectedIntensity(proposal, reference.value.0), reference.value.1.intensity,
                            cfg.gate.carbonRegretTolerance)
  {
    RailsAdmitIff(cfg, env, input, graph, proposal);
    var request := Reference(cfg, env, input).value.0;
    if cfg.gate.FeasibilityRailEnabled() {
      RegretSandwich(input, cfg.defaultRegion, cfg.catalog, cfg.slotMinutes, request, env.solver, proposal,
                     cfg.gate.carbonRegretTolerance);
    } else {
      SandwichWithinCatalog(input, cfg.defaultRegion, cfg.catalog, cfg.slotMinutes, request, env.solver, proposal,
                            cfg.gate.carbonRegretTolerance, AllowedServices(graph, input));
    }
  }

  // ---- exactly when the lower bound can fail

  /** A proposal for a region and start that declares the SLO as its latency. */
  function Probe(input: DecisionInput, region: string, start: int): ActionProposal {
    ActionProposal(DelayUntil, region, input.targetService, Some(start), input.workloadProfile, input.p95SloLimitMs, [])
  }

  /** A candidate of the request whose only fault is that it is too slow, and that
      is cheaper than the optimum. */
  predicate CheaperButTooSlow(request: SchedulingRequest, optimum: real, c: ScheduleCandidate) {
    && c in request.candidates && c.regionAvailable
    && c.expectedP95LatencyMs > request.p95SloLimitMs
    && c.intensity < optimum
  }

  /** The hard rails pass a proposal worth less than the optimum. */
  ghost predicate BeatsOptimum(cfg: WorkflowConfig, env: Environment, input: DecisionInput, graph: GraphContext,
                               request: SchedulingRequest, optimum: real, proposal: ActionProposal)
    requires input.Valid()
  {
    && RailsAdmit(cfg, env, input, graph, proposal)
    && var worth := ExpectedIntensity(proposal, request);
    && worth.Some? && worth.value < optimum
  }

  /** Without the feasibility rail, on inputs whose data rails pass, some proposal
      gets through worth less than the exact optimum if and only if the request has
      an available candidate that is too slow for the SLO and cheaper than it. */
  lemma LowerBoundFailsIff(cfg: WorkflowConfig, env: Environment, input: DecisionInput, graph: GraphContext,
                           request: SchedulingRequest, schedule: ScheduleResult)
    requires input.Valid() && DataRailsPass(cfg, env, input)
    requires !cfg.gate.FeasibilityRailEnabled() && cfg.gate.carbonRegretTolerance >= 0.0
    requires Reference(cfg, env, input) == Success((request, schedule)) && schedule.Selected?
    requires input.targetService in AllowedServices(graph, input)
    ensures (exists p :: BeatsOptimum(cfg, env, input, graph, request, schedule.intensity, p))
            <==> exists c :: CheaperButTooSlow(request, schedule.intensity, c)
  {
    if p :| BeatsOptimum(cfg, env, input, graph, request, schedule.intensity, p) {
      BeatingIsTooSlow(cfg, env, input, graph, request, schedule, p);
    }
    if c :| CheaperButTooSlow(request, schedule.intensity, c) {
      ProbeBeats(cfg, env, input, graph, request, schedule, c);
    }
  }

  lemma BeatingIsTooSlow(cfg: WorkflowConfig, env: Environment, input: DecisionInput, graph: GraphContext,
                         request: SchedulingRequest, schedule: ScheduleResult, p: ActionProposal)
    requires input.Valid() && Reference(cfg, env, input) == Success((request, schedule)) && schedule.Selected?
    requires BeatsOptimum(cfg, env, input, graph, request, schedule.intensity, p)
    ensures exists c :: CheaperButTooSlow(request, schedule.intensity, c)
  {
    RailsAdmitIff(cfg, env, input, graph, p);
    RailsPassMeans(p, input, AllowedServices(graph, input));
    if CatalogWithinSlo(cfg, input, p.targetRegion) {
      AdmittedWithinSandwich(cfg, env, input, graph, p);
    }
    SlowValueIsTooSlow(cfg, input, request, p, schedule.intensity);
  }

  lemma SlowValueIsTooSlow(cfg: WorkflowConfig, input: DecisionInput, request: SchedulingRequest, p: ActionProposal,
                           optimum: real)
    requires input.Valid()
    requires BuildRequest(input, cfg.defaultRegion, cfg.catalog, cfg.slotMinutes) == Success(request)
    requires Lookup(input.clusterAvailable, p.targetRegion, false) && !CatalogWithinSlo(cfg, input, p.targetRegion)
    requires ExpectedIntensity(p, request).Some? && ExpectedIntensity(p, request).value < optimum
    ensures exists c :: CheaperButTooSlow(request, optimum, c)
  {
    ExpectedIntensityIsLeastValue(p, request);
    var c :| Values(c, p, request) && c.intensity == ExpectedIntensity(p, request).value;
    BuiltCandidateIsFaithful(cfg, input, request, c);
    assert CheaperButTooSlow(request, optimum, c);
  }

  lemma BuiltCandidateIsFaithful(cfg: WorkflowConfig, input: DecisionInput, request: SchedulingRequest,
                                 c: ScheduleCandidate)
    requires input.Valid() && c in request.candidates
    requires BuildRequest(input, cfg.defaultRegion, cfg.catalog, cfg.slotMinutes) == Success(request)
    ensures input.workloadProfile in cfg.catalog && Faithful(c, input, cfg.catalog[input.workloadProfile])
    ensures request.p95SloLimitMs == input.p95SloLimitMs
  {
    BuiltCandidatesAreExact(input, cfg.defaultRegion, cfg.catalog, cfg.slotMinutes, c);
  }

  /** Proposing such a candidate's region and time gets through. */
  lemma ProbeBeats(cfg: WorkflowConfig, env: Environment, input: DecisionInput, graph: GraphContext,
                   request: SchedulingRequest, schedule: ScheduleResult, c: ScheduleCandidate)
    requires input.Valid() && DataRailsPass(cfg, env, input)
    requires !cfg.gate.FeasibilityRailEnabled() && cfg.gate.carbonRegretTolerance >= 0.0
    requires Reference(cfg, env, input) == Success((request, schedule)) && schedule.Selected?
    requires input.targetService in AllowedServices(graph, input)
    requires CheaperButTooSlow(request, schedule.intensity, c)
    ensures BeatsOptimum(cfg, env, input, graph, request, schedule.intensity,
                         Probe(input, c.targetRegion, c.scheduledTime))
  {
    var probe := Probe(input, c.targetRegion, c.scheduledTime);
    BuiltCandidateIsFaithful(cfg, input, request, c);
    ProposalRailsPassIff(probe, input.candidateRegions, AllowedServices(graph, input), input.earliestStart,
                         input.deadline, input.clusterAvailable, input.p95SloLimitMs);
    WorthAtMost(probe, request, c);
    WorthIsNonnegative(input, cfg, request, probe);
    CheaperPassesRegret(probe, request, schedule, ExpectedIntensity(probe, request).value,
                        cfg.gate.carbonRegretTolerance);
    RailsAdmitIff(cfg, env, input, graph, probe);
  }

  lemma WorthAtMost(proposal: ActionProposal, request: SchedulingRequest, c: ScheduleCandidate)
    requires c in request.candidates && c.targetRegion == proposal.targetRegion
    requires proposal.scheduledTime == Some(c.scheduledTime)
    ensures ExpectedIntensity(proposal, request).Some?
    ensures ExpectedIntensity(proposal, request).value <= c.intensity
  {
    assert Values(c, proposal, request);
    ExpectedIntensityIsLeastValue(proposal, request);
  }

  lemma WorthIsNonnegative(input: DecisionInput, cfg: WorkflowConfig, request: SchedulingRequest,
                           proposal: ActionProposal)
    requires input.Valid()
    requires BuildRequest(input, cfg.defaultRegion, cfg.catalog, cfg.slotMinutes) == Success(request)
    requires ExpectedIntensity(proposal, request).Some?
    ensures ExpectedIntensity(proposal, request).value >= 0.0
  {
    BuiltRequestIsUniform(input, cfg.defaultRegion, cfg.catalog, cfg.slotMinutes, request, proposal);
    ExpectedIntensityIsLeastValue(proposal, request);
  }

  // ---- the fallback would be admitted

  /** On inputs whose data rails pass and whose service is allowed, the fallback
      proposal passes every hard rail of the gate that triggers it. */
  lemma FallbackIsAdmissible(cfg: WorkflowConfig, env: Environment, input: DecisionInput, graph: GraphContext)
    requires input.Valid() && DataRailsPass(cfg, env, input)
    requires Reference(cfg, env, input).Success? && Reference(cfg, env, input).value.1.Selected?
    requires input.targetService in AllowedServices(graph, input)
    requires cfg.gate.carbonRegretTolerance >= 0.0
    ensures RailsAdmit(cfg, env, input, graph, ProposalFromSchedule(Reference(cfg, env, input).value.1, input))
  {
    var (request, schedule) := Reference(cfg, env, input).value;
    FallbackPassesItsOwnGate(input, cfg.defaultRegion, cfg.catalog, cfg.slotMinutes, request, env.solver,
                             AllowedServices(graph, input), cfg.gate.carbonRegretTolerance);
    RailsAdmitIff(cfg, env, input, graph, ProposalFromSchedule(schedule, input));
  }
}
