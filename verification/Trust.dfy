/** The trust gate: proposal rails, the evidence, regret and feasibility rails,
    and the two score rules. */
module Trust {
  import opened Wrappers
  import opened Schemas
  import opened Milp
  import opened Request

  /** Runtime trust-gate settings. */
  datatype GatePolicy = GatePolicy(
    profile: GateProfile,
    maxDataAgeSeconds: real,
    carbonRegretTolerance: real,
    lastKnownGoodMaxAgeSeconds: real,
    expectedProviderRegions: map<string, string>,
    expectedZones: map<string, string>,
    modelFeasibilityRail: Option<bool>) {

    predicate FeasibilityRailEnabled() {
      if modelFeasibilityRail.Some? then modelFeasibilityRail.value else profile == V21
    }
  }

  // ---- the deterministic proposal rails

  /** The start time a proposal stands for. */
  function StartTime(proposal: ActionProposal, earliest: int): int {
    proposal.scheduledTime.GetOr(earliest)
  }

  function ValidateProposal(
    proposal: Option<ActionProposal>,
    allowedRegions: seq<string>,
    allowedServices: seq<string>,
    earliest: int,
    deadline: int,
    regionAvailable: map<string, bool>,
    p95SloLimitMs: Option<real>): seq<RailCheck>
  {
    match proposal
    case None => [RailCheck(ActionSchema, false)]
    case Some(p) =>
      [RailCheck(ActionSchema, true),
       RailCheck(TargetRegion, p.targetRegion in allowedRegions),
       RailCheck(TargetService, p.targetService in allowedServices),
       RailCheck(LatencyEstimate, p.expectedP95LatencyMs > 0.0),
       RailCheck(DecisionWindow, earliest <= StartTime(p, earliest) <= deadline),
       RailCheck(ExecutionFeasibility, Lookup(regionAvailable, p.targetRegion, false))]
      + if p95SloLimitMs.Some? then [RailCheck(LatencySlo, p.expectedP95LatencyMs <= p95SloLimitMs.value)] else []
  }

  /** All seven rails pass exactly for a proposal that names an allowed region
      and service, lies in the window, and runs in an available region with a
      positive declared latency within the SLO. */
  lemma ProposalRailsPassIff(p: ActionProposal, allowedRegions: seq<string>, allowedServices: seq<string>,
                             earliest: int, deadline: int, regionAvailable: map<string, bool>, limit: real)
    ensures AllPassed(ValidateProposal(Some(p), allowedRegions, allowedServices, earliest, deadline, regionAvailable,
                                       Some(limit)))
            <==> && p.targetRegion in allowedRegions
                 && p.targetService in allowedServices
                 && 0.0 < p.expectedP95LatencyMs <= limit
                 && (p.scheduledTime.Some? ==> earliest <= p.scheduledTime.value <= deadline)
                 && (p.scheduledTime.None? ==> earliest <= deadline)
                 && p.targetRegion in regionAvailable && regionAvailable[p.targetRegion]
  {
    var checks := ValidateProposal(Some(p), allowedRegions, allowedServices, earliest, deadline, regionAvailable,
                                   Some(limit));
    assert |checks| == 7;
    assert AllPassed(checks) ==>
      && checks[1].passed && checks[2].passed && checks[3].passed
      && checks[4].passed && checks[5].passed && checks[6].passed;
  }

  function CheckEvidence(proposal: ActionProposal, allowed: seq<string>): RailCheck {
    RailCheck(EvidenceIds, forall e :: e in proposal.evidenceIds ==> e in allowed)
  }

  lemma EvidencePassesIff(proposal: ActionProposal, allowed: seq<string>)
    ensures CheckEvidence(proposal, allowed).passed
            <==> forall i :: 0 <= i < |proposal.evidenceIds| ==> proposal.evidenceIds[i] in allowed
  {
    assert forall i :: 0 <= i < |proposal.evidenceIds| ==> proposal.evidenceIds[i] in proposal.evidenceIds;
  }

  // ---- what the frozen inputs say a proposal will emit

  /** The candidates of the proposal's region at or before its start. */
  function SlotsUpTo(candidates: seq<ScheduleCandidate>, region: string, start: int): (slots: seq<ScheduleCandidate>)
    ensures forall c :: c in slots <==> c in candidates && c.targetRegion == region && c.scheduledTime <= start
  {
    if candidates == [] then []
    else
      var front, last := candidates[..|candidates| - 1], candidates[|candidates| - 1];
      assert forall c :: c in candidates <==> c in front || c == last;
      SlotsUpTo(front, region,
                start) + if last.targetRegion == region && last.scheduledTime <= start then [last] else []
  }

  function LatestTime(slots: seq<ScheduleCandidate>): (latest: int)
    requires slots != []
    ensures exists c :: c in slots && c.scheduledTime == latest
    ensures forall c :: c in slots ==> c.scheduledTime <= latest
  {
    if |slots| == 1 then
      assert slots[0] in slots;
      slots[0].scheduledTime
    else
      var front, last := slots[..|slots| - 1], slots[|slots| - 1];
      assert forall c :: c in slots <==> c in front || c == last;
      var latest := LatestTime(front);
      if last.scheduledTime > latest then last.scheduledTime else latest
  }

  function SlotsAt(slots: seq<ScheduleCandidate>, time: int): (at: seq<ScheduleCandidate>)
    ensures forall c :: c in at <==> c in slots && c.scheduledTime == time
  {
    if slots == [] then []
    else
      var front, last := slots[..|slots| - 1], slots[|slots| - 1];
      assert forall c :: c in slots <==> c in front || c == last;
      SlotsAt(front, time) + if last.scheduledTime == time then [last] else []
  }

  function LeastIntensity(slots: seq<ScheduleCandidate>): (least: real)
    requires slots != []
    ensures exists c :: c in slots && c.intensity == least
    ensures forall c :: c in slots ==> least <= c.intensity
  {
    if |slots| == 1 then
      assert slots[0] in slots;
      slots[0].intensity
    else
      var front, last := slots[..|slots| - 1], slots[|slots| - 1];
      assert forall c :: c in slots <==> c in front || c == last;
      var least := LeastIntensity(front);
      if last.intensity < least then last.intensity else least
  }

  /** The slots that value a proposal: the latest of its region at or before its start. */
  function ChosenSlots(proposal: ActionProposal, request: SchedulingRequest): seq<ScheduleCandidate> {
    var slots := SlotsUpTo(request.candidates, proposal.targetRegion, StartTime(proposal, request.earliestStart));
    if slots == [] then [] else SlotsAt(slots, LatestTime(slots))
  }

  function ExpectedIntensity(proposal: ActionProposal, request: SchedulingRequest): Option<real> {
    var chosen := ChosenSlots(proposal, request);
    if chosen == [] then None else Some(LeastIntensity(chosen))
  }

  /** A slot that values the proposal: of its region, at or before its start,
      with none later that is. */
  ghost predicate Values(c: ScheduleCandidate, proposal: ActionProposal, request: SchedulingRequest) {
    var start := StartTime(proposal, request.earliestStart);
    && c in request.candidates && c.targetRegion == proposal.targetRegion && c.scheduledTime <= start
    && (forall d :: d in request.candidates && d.targetRegion == proposal.targetRegion && d.scheduledTime <= start
          ==> d.scheduledTime <= c.scheduledTime)
  }

  lemma ChosenSlotsValue(proposal: ActionProposal, request: SchedulingRequest, c: ScheduleCandidate)
    ensures c in ChosenSlots(proposal, request) <==> Values(c, proposal, request)
  {
    var slots := SlotsUpTo(request.candidates, proposal.targetRegion, StartTime(proposal, request.earliestStart));
    if Values(c, proposal, request) {
      assert c in slots;
    }
  }

  /** The expected intensity is the least among the slots that value the
      proposal, and absent exactly when there is none. */
  lemma ExpectedIntensityIsLeastValue(proposal: ActionProposal, request: SchedulingRequest)
    ensures var expected := ExpectedIntensity(proposal, request);
            && (expected.Some? <==> exists c :: Values(c, proposal, request))
            && (expected.Some? ==>
                  && (exists c :: Values(c, proposal, request) && c.intensity == expected.value)
                  && (forall c :: Values(c, proposal, request) ==> expected.value <= c.intensity))
  {
    forall c ensures c in ChosenSlots(proposal, request) <==> Values(c, proposal, request) {
      ChosenSlotsValue(proposal, request, c);
    }
    var chosen := ChosenSlots(proposal, request);
    assert chosen == [] || chosen[0] in chosen;
  }

  datatype RegretOutcome = RegretOutcome(
    check: RailCheck,
    proposalIntensity: Option<real>,
    referenceIntensity: Option<real>,
    regret: Option<real>)

  const REGRET_SLACK := 0.000000000001

  /** The verdict on a proposal worth `expected` against a reference worth `optimum`. */
  function RegretVerdict(expected: Option<real>, optimum: real, tolerance: real): RegretOutcome {
    match expected
    case None => RegretOutcome(RailCheck(CarbonRegret, false), None, Some(optimum), None)
    case Some(value) =>
      if optimum > 0.0 then
        var regret := (value - optimum) / optimum;
        RegretOutcome(RailCheck(CarbonRegret, regret <= tolerance + REGRET_SLACK), expected, Some(optimum),
                      Some(regret))
      else
        RegretOutcome(RailCheck(CarbonRegret, value <= 0.0), expected, Some(optimum),
                      if value > 0.0 then None else Some(0.0))
  }

  function CheckCarbonRegret(
    proposal: ActionProposal,
    request: Option<SchedulingRequest>,
    reference: Option<ScheduleResult>,
    tolerance: real): RegretOutcome
  {
    if request.None? || reference.None? || !reference.value.Selected? then
      RegretOutcome(RailCheck(CarbonRegret, false), None, None, None)
    else
      RegretVerdict(ExpectedIntensity(proposal, request.value), reference.value.intensity, tolerance)
  }

  /** The regret rail, exactly: it passes if and only if there is a request and a
      selected reference, and the least value among the slots that value the
      proposal is within the tolerance of the optimum, or not positive when the
      optimum is not. */
  lemma RegretPassesIff(proposal: ActionProposal, request: Option<SchedulingRequest>,
                        reference: Option<ScheduleResult>, tolerance: real)
    ensures CheckCarbonRegret(proposal, request, reference, tolerance).check.passed
            <==> && request.Some? && reference.Some? && reference.value.Selected?
                 && exists c :: IsWorth(c, proposal, request.value) && Tolerable(c.intensity,
                                                                                 reference.value.intensity, tolerance)
  {
    if request.Some? && reference.Some? && reference.value.Selected? {
      VerdictPassesIff(ExpectedIntensity(proposal, request.value), reference.value.intensity, tolerance);
      WorthIsExpected(proposal, request.value, reference.value.intensity, tolerance);
    }
  }

  /** The figures on record for a worth against an optimum: both, and their relative
      difference, which against an optimum of zero exists only for a worth of zero. */
  predicate Reports(outcome: RegretOutcome, worth: real, optimum: real) {
    && outcome.proposalIntensity == Some(worth) && outcome.referenceIntensity == Some(optimum)
    && (optimum > 0.0 ==> outcome.regret.Some? && outcome.regret.value * optimum == worth - optimum)
    && (optimum <= 0.0 ==> outcome.regret == if worth > 0.0 then None else Some(0.0))
  }

  lemma RegretIsReported(proposal: ActionProposal, request: SchedulingRequest, reference: ScheduleResult,
                         tolerance: real, c: ScheduleCandidate)
    requires reference.Selected? && IsWorth(c, proposal, request)
    ensures Reports(CheckCarbonRegret(proposal, Some(request), Some(reference), tolerance), c.intensity,
                    reference.intensity)
  {
    WorthIsUnique(proposal, request, c);
    VerdictReports(c.intensity, reference.intensity, tolerance);
  }

  lemma WorthIsUnique(proposal: ActionProposal, request: SchedulingRequest, c: ScheduleCandidate)
    requires IsWorth(c, proposal, request)
    ensures ExpectedIntensity(proposal, request) == Some(c.intensity)
  {
    ChosenSlotsValue(proposal, request, c);
    forall d | d in ChosenSlots(proposal, request) ensures c.intensity <= d.intensity {
      ChosenSlotsValue(proposal, request, d);
    }
    LeastIs(ChosenSlots(proposal, request), c);
  }

  lemma LeastIs(slots: seq<ScheduleCandidate>, c: ScheduleCandidate)
    requires c in slots && forall d :: d in slots ==> c.intensity <= d.intensity
    ensures LeastIntensity(slots) == c.intensity
  {
  }

  lemma VerdictReports(worth: real, optimum: real, tolerance: real)
    ensures Reports(RegretVerdict(Some(worth), optimum, tolerance), worth, optimum)
  {
  }

  lemma VerdictPassesIff(expected: Option<real>, optimum: real, tolerance: real)
    ensures RegretVerdict(expected, optimum, tolerance).check.passed
            <==> expected.Some? && Tolerable(expected.value, optimum, tolerance)
  {
    if expected.Some? && optimum > 0.0 {
      DivisionBound(expected.value, optimum, tolerance + REGRET_SLACK);
    }
  }

  lemma WorthIsExpected(proposal: ActionProposal, request: SchedulingRequest, optimum: real, tolerance: real)
    ensures (exists c :: IsWorth(c, proposal, request) && Tolerable(c.intensity, optimum, tolerance))
            <==> ExpectedIntensity(proposal, request).Some?
                 && Tolerable(ExpectedIntensity(proposal, request).value, optimum, tolerance)
  {
    ExpectedIntensityIsLeastValue(proposal, request);
  }

  /** A slot that values the proposal at its worth: none that values it is cheaper. */
  ghost predicate IsWorth(c: ScheduleCandidate, proposal: ActionProposal, request: SchedulingRequest) {
    Values(c, proposal, request) && forall d :: Values(d, proposal, request) ==> c.intensity <= d.intensity
  }

  /** A worth within the tolerance, and the code's slack of 1e-12, of the optimum. */
  predicate Tolerable(worth: real, optimum: real, tolerance: real) {
    if optimum > 0.0 then worth <= (1.0 + tolerance + 0.000000000001) * optimum else worth <= 0.0
  }

  function CheckModelFeasibility(proposal: ActionProposal, request: Option<SchedulingRequest>): RailCheck {
    RailCheck(ModelFeasibility,
      && request.Some?
      && request.value.earliestStart <= StartTime(proposal, request.value.earliestStart) <= request.value.deadline
      && var chosen := ChosenSlots(proposal, request.value);
      && chosen != []
      && Feasible(chosen, request.value.(candidates := chosen)) != [])
  }

  // ---- score rules

  /** Build a report; the score field is validated to lie in [0, 1]. */
  function Scored(components: TrustComponentScores, checks: seq<RailCheck>, score: real, threshold: real,
                  profile: Option<GateProfile>)
    : Result<TrustReport, Failure>
  {
    if score < 0.0 || score > 1.0 then Result.Failure(ScoreOutOfRange)
    else Success(TrustReport(components, checks, Some(score), threshold, score >= threshold,
                             if score >= threshold then None else Some(BelowThreshold), profile, None, None, None))
  }

  function Rejected(components: TrustComponentScores, checks: seq<RailCheck>, threshold: real, cause: RejectionCause,
                    profile: Option<GateProfile>)
    : TrustReport
  {
    TrustReport(components, checks, None, threshold, false, Some(cause), profile, None, None, None)
  }

  /** The original score: all five components, weighted. */
  function AsBuiltScore(c: TrustComponentScores, w: TrustWeights): real
    requires c.Complete()
  {
    c.ragasFaithfulness.value * w.ragasFaithfulness + c.ragasContextPrecision.value * w.ragasContextPrecision
    + c.nemoRails.value * w.nemoRails + c.dataFreshness.value * w.dataFreshness
    + c.executionFeasibility.value * w.executionFeasibility
  }

  function EvaluateTrust(
    proposal: Option<ActionProposal>,
    components: TrustComponentScores,
    policy: TrustPolicy,
    checks: seq<RailCheck>,
    evaluatorError: Option<string>): Result<TrustReport, Failure>
  {
    if proposal.None? then Success(Rejected(components, checks, policy.threshold, ProposalUnavailable, None))
    else if Truthy(evaluatorError) then Success(Rejected(components, checks, policy.threshold, EvaluatorFailed, None))
    else if !components.Complete() then Success(Rejected(components, checks, policy.threshold, MissingComponents, None))
    else if !AllPassed(checks) then Success(Rejected(components, checks, policy.threshold, FailedRails, None))
    else Scored(components, checks, AsBuiltScore(components, policy.weights), policy.threshold, None)
  }

  function Clamp(x: real): real {
    var low := if x > 0.0 then x else 0.0;
    if low < 1.0 then low else 1.0
  }

  /** The v2 score before clamping: the two RAGAS values, weights renormalised. */
  function EvaluativeMean(faithfulness: real, precision: real, w: TrustWeights): real
    requires w.ragasFaithfulness + w.ragasContextPrecision > 0.0
  {
    (faithfulness * w.ragasFaithfulness + precision * w.ragasContextPrecision)
    / (w.ragasFaithfulness + w.ragasContextPrecision)
  }

  function EvaluateTrustV2(
    proposal: Option<ActionProposal>,
    components: TrustComponentScores,
    policy: TrustPolicy,
    checks: seq<RailCheck>,
    evaluatorError: Option<string>): TrustReport
  {
    if proposal.None? then Rejected(components, checks, policy.threshold, ProposalUnavailable, Some(V2))
    else if !AllPassed(checks) then Rejected(components, checks, policy.threshold, FailedRails, Some(V2))
    else if Truthy(evaluatorError) then Rejected(components, checks, policy.threshold, EvaluatorFailed, Some(V2))
    else if components.ragasFaithfulness.None? || components.ragasContextPrecision.None? then
      Rejected(components, checks, policy.threshold, MissingComponents, Some(V2))
    else if policy.weights.ragasFaithfulness + policy.weights.ragasContextPrecision <= 0.0 then
      Rejected(components, checks, policy.threshold, NoEvaluativeWeight, Some(V2))
    else
      Scored(components, checks,
             Clamp(EvaluativeMean(components.ragasFaithfulness.value, components.ragasContextPrecision.value,
                                  policy.weights)),
             policy.threshold, Some(V2)).value
  }

  // ---- properties of the rails

  /** Model feasibility means what it says: the start lies in the window and some
      slot that values the proposal meets every constraint of the program. */
  lemma ModelFeasibleIff(proposal: ActionProposal, request: SchedulingRequest)
    ensures CheckModelFeasibility(proposal, Some(request)).passed
            <==> && request.earliestStart <= StartTime(proposal, request.earliestStart) <= request.deadline
                 && exists c :: Values(c, proposal, request) && IsFeasible(c, request)
  {
    var chosen := ChosenSlots(proposal, request);
    var feasible := Feasible(chosen, request.(candidates := chosen));
    forall c ensures c in feasible <==> Values(c, proposal, request) && IsFeasible(c, request) {
      FeasibleOfChosen(proposal, request, c);
      ChosenSlotsValue(proposal, request, c);
    }
    assert feasible == [] || feasible[0] in feasible;
  }

  lemma FeasibleOfChosen(proposal: ActionProposal, request: SchedulingRequest, c: ScheduleCandidate)
    ensures var chosen := ChosenSlots(proposal, request);
            c in Feasible(chosen, request.(candidates := chosen)) <==> c in chosen && IsFeasible(c, request)
  {
  }

  /** The slots that value a proposal are candidates, feasible or infeasible together. */
  ghost predicate ChosenUniform(proposal: ActionProposal, request: SchedulingRequest) {
    forall c, d :: c in ChosenSlots(proposal, request) && d in ChosenSlots(proposal, request)
      ==> c in request.candidates && (IsFeasible(c, request) <==> IsFeasible(d, request))
  }

  /** A request built from a valid input: no negative intensities, and feasibility
      is uniform per region because latency, availability and reset are. */
  lemma BuiltRequestIsUniform(input: DecisionInput, defaultRegion: string, catalog: LatencyCatalog,
                              slotMinutes: Option<int>,
                              request: SchedulingRequest, proposal: ActionProposal)
    requires input.Valid()
    requires BuildRequest(input, defaultRegion, catalog, slotMinutes) == Success(request)
    ensures ChosenUniform(proposal, request)
    ensures forall c :: c in request.candidates ==> c.intensity >= 0.0
  {
    forall c | c in request.candidates
      ensures c.intensity >= 0.0 && Faithful(c, input, catalog[input.workloadProfile])
    {
      BuiltCandidatesAreExact(input, defaultRegion, catalog, slotMinutes, c);
      assert input.carbonSnapshot.regions[c.targetRegion].Valid();
    }
  }

  lemma DivisionBound(expected: real, optimum: real, bound: real)
    requires optimum > 0.0
    ensures (expected - optimum) / optimum <= bound <==> expected <= (1.0 + bound) * optimum
  {
    var regret := (expected - optimum) / optimum;
    assert regret * optimum == expected - optimum;
    if regret <= bound {
      assert (bound - regret) * optimum >= 0.0;
    } else {
      assert (regret - bound) * optimum > 0.0;
    }
  }

  /** If the chosen slots are feasible or infeasible together, a proposal that
      passes model feasibility is worth at least the optimum. */
  lemma RegretLowerBound(proposal: ActionProposal, request: SchedulingRequest, best: ScheduleCandidate)
    requires IsOptimal(best, request)
    requires ChosenUniform(proposal, request)
    requires CheckModelFeasibility(proposal, Some(request)).passed
    ensures ExpectedIntensity(proposal, request).Some?
    ensures best.intensity <= ExpectedIntensity(proposal, request).value
  {
    var chosen := ChosenSlots(proposal, request);
    var c :| c in chosen && c.intensity == ExpectedIntensity(proposal, request).value;
    var feasible := Feasible(chosen, request.(candidates := chosen));
    assert feasible[0] in feasible;
    FeasibleOfChosen(proposal, request, feasible[0]);
    assert IsFeasible(c, request);
    assert !KeyLess(c, best);
  }

  /** The proposal is worth at least the optimum and at most (1 + tolerance +
      slack) times it; with a zero optimum its value is exactly zero. */
  ghost predicate WithinRegret(expected: Option<real>, optimum: real, tolerance: real) {
    && expected.Some?
    && 0.0 <= optimum <= expected.value <= (1.0 + (tolerance + REGRET_SLACK)) * optimum
    && (optimum == 0.0 ==> expected.value == 0.0)
  }

  lemma VerdictGivesBounds(expected: Option<real>, optimum: real, tolerance: real)
    requires RegretVerdict(expected, optimum, tolerance).check.passed
    requires expected.Some? && 0.0 <= optimum <= expected.value
    ensures WithinRegret(expected, optimum, tolerance)
  {
    if optimum > 0.0 {
      DivisionBound(expected.value, optimum, tolerance + REGRET_SLACK);
    }
  }

  lemma SandwichOnRequest(request: SchedulingRequest, solver: Solver, proposal: ActionProposal, tolerance: real)
    requires ChosenUniform(proposal, request)
    requires forall c :: c in request.candidates ==> c.intensity >= 0.0
    requires CheckCarbonRegret(proposal, Some(request), Some(SolveSchedule(request, solver)), tolerance).check.passed
    requires CheckModelFeasibility(proposal, Some(request)).passed
    ensures SolveSchedule(request, solver).Selected?
    ensures WithinRegret(ExpectedIntensity(proposal, request), SolveSchedule(request, solver).intensity, tolerance)
  {
    SolveIsExact(request, solver);
    var best :| IsOptimal(best, request) && Selects(SolveSchedule(request, solver), best, request);
    RegretLowerBound(proposal, request, best);
    VerdictGivesBounds(ExpectedIntensity(proposal, request), best.intensity, tolerance);
  }

  /** The regret sandwich. On a request built from a valid input, a proposal
      that passes the regret and model-feasibility rails is valued between the
      exact optimum and (1 + tolerance + slack) times it; with a zero optimum
      its value is exactly zero. */
  lemma RegretSandwich(input: DecisionInput, defaultRegion: string, catalog: LatencyCatalog, slotMinutes: Option<int>,
                       request: SchedulingRequest, solver: Solver, proposal: ActionProposal, tolerance: real)
    requires input.Valid()
    requires BuildRequest(input, defaultRegion, catalog, slotMinutes) == Success(request)
    requires CheckCarbonRegret(proposal, Some(request), Some(SolveSchedule(request, solver)), tolerance).check.passed
    requires CheckModelFeasibility(proposal, Some(request)).passed
    ensures SolveSchedule(request, solver).Selected?
    ensures WithinRegret(ExpectedIntensity(proposal, request), SolveSchedule(request, solver).intensity, tolerance)
  {
    BuiltRequestIsUniform(input, defaultRegion, catalog, slotMinutes, request, proposal);
    SandwichOnRequest(request, solver, proposal, tolerance);
  }

  /** The upper half needs no feasibility rail: whatever passes the regret rail
      on a request built from a valid input is worth at most (1 + tolerance +
      slack) times the exact optimum. */
  lemma UpperHalf(input: DecisionInput, defaultRegion: string, catalog: LatencyCatalog, slotMinutes: Option<int>,
                  request: SchedulingRequest, solver: Solver, proposal: ActionProposal, tolerance: real)
    requires input.Valid()
    requires BuildRequest(input, defaultRegion, catalog, slotMinutes) == Success(request)
    requires CheckCarbonRegret(proposal, Some(request), Some(SolveSchedule(request, solver)), tolerance).check.passed
    ensures SolveSchedule(request, solver).Selected?
    ensures AtMostRegret(ExpectedIntensity(proposal, request), SolveSchedule(request, solver).intensity, tolerance)
  {
    BuiltRequestIsUniform(input, defaultRegion, catalog, slotMinutes, request, proposal);
    UpperOnRequest(request, solver, proposal, tolerance);
  }

  ghost predicate AtMostRegret(expected: Option<real>, optimum: real, tolerance: real) {
    expected.Some? && 0.0 <= optimum && expected.value <= (1.0 + (tolerance + REGRET_SLACK)) * optimum
  }

  lemma UpperOnRequest(request: SchedulingRequest, solver: Solver, proposal: ActionProposal, tolerance: real)
    requires forall c :: c in request.candidates ==> c.intensity >= 0.0
    requires CheckCarbonRegret(proposal, Some(request), Some(SolveSchedule(request, solver)), tolerance).check.passed
    ensures SolveSchedule(request, solver).Selected?
    ensures AtMostRegret(ExpectedIntensity(proposal, request), SolveSchedule(request, solver).intensity, tolerance)
  {
    OptimumNonnegative(request, solver);
    VerdictGivesUpper(ExpectedIntensity(proposal, request), SolveSchedule(request, solver).intensity, tolerance);
  }

  lemma OptimumNonnegative(request: SchedulingRequest, solver: Solver)
    requires SolveSchedule(request, solver).Selected?
    requires forall c :: c in request.candidates ==> c.intensity >= 0.0
    ensures SolveSchedule(request, solver).intensity >= 0.0
  {
    SolveIsExact(request, solver);
  }

  lemma VerdictGivesUpper(expected: Option<real>, optimum: real, tolerance: real)
    requires RegretVerdict(expected, optimum, tolerance).check.passed && optimum >= 0.0
    ensures AtMostRegret(expected, optimum, tolerance)
  {
    if optimum > 0.0 {
      DivisionBound(expected.value, optimum, tolerance + REGRET_SLACK);
    }
  }

  /** What the feasibility rail adds to the seven proposal rails on a built
      request: exactly that the region's catalog latency is within the SLO. */
  lemma FeasibleIffCatalogWithinSlo(input: DecisionInput, defaultRegion: string, catalog: LatencyCatalog,
                                    slotMinutes: Option<int>, request: SchedulingRequest, proposal: ActionProposal,
                                    allowedServices: seq<string>)
    requires input.Valid()
    requires BuildRequest(input, defaultRegion, catalog, slotMinutes) == Success(request)
    requires RailsPass(proposal, input, allowedServices)
    ensures proposal.targetRegion in catalog[input.workloadProfile]
    ensures CheckModelFeasibility(proposal, Some(request)).passed
            <==> catalog[input.workloadProfile][proposal.targetRegion] <= input.p95SloLimitMs
  {
    var latencies, test := catalog[input.workloadProfile], TestFor(input, slotMinutes);
    RailsPassMeans(proposal, input, allowedServices);
    CollectSucceedsIff(input, input.candidateRegions, latencies, test);
    CollectOffersUsable(input, input.candidateRegions, latencies, test, proposal.targetRegion);
    forall c | c in request.candidates ensures Faithful(c, input, latencies) {
      BuiltCandidatesAreExact(input, defaultRegion, catalog, slotMinutes, c);
    }
    var now := CandidateFor(input, proposal.targetRegion, latencies[proposal.targetRegion],
                            input.carbonSnapshot.regions[proposal.targetRegion].current, input.earliestStart);
    FeasibleIffSomeValue(proposal, request, now, latencies[proposal.targetRegion]);
  }

  predicate RailsPass(proposal: ActionProposal, input: DecisionInput, allowedServices: seq<string>) {
    AllPassed(ValidateProposal(Some(proposal), input.candidateRegions, allowedServices, input.earliestStart,
                               input.deadline, input.clusterAvailable, Some(input.p95SloLimitMs)))
  }

  lemma RailsPassMeans(proposal: ActionProposal, input: DecisionInput, allowedServices: seq<string>)
    requires input.Valid() && RailsPass(proposal, input, allowedServices)
    ensures proposal.targetRegion in input.candidateRegions
    ensures Lookup(input.clusterAvailable, proposal.targetRegion, false)
    ensures input.earliestStart <= StartTime(proposal, input.earliestStart) <= input.deadline
  {
    ProposalRailsPassIff(proposal, input.candidateRegions, allowedServices, input.earliestStart, input.deadline,
                         input.clusterAvailable, input.p95SloLimitMs);
  }

  /** When all candidates of a region share a latency and are otherwise fine,
      feasibility of a proposal there is the latency test. */
  lemma FeasibleIffSomeValue(proposal: ActionProposal, request: SchedulingRequest, now: ScheduleCandidate,
                             latency: real)
    requires request.earliestStart <= StartTime(proposal, request.earliestStart) <= request.deadline
    requires now in request.candidates && now.targetRegion == proposal.targetRegion
    requires now.scheduledTime == request.earliestStart
    requires forall c :: c in request.candidates && c.targetRegion == proposal.targetRegion ==>
      && c.expectedP95LatencyMs == latency && c.regionAvailable && c.resetReady
      && request.earliestStart <= c.scheduledTime <= request.deadline
    ensures CheckModelFeasibility(proposal, Some(request)).passed <==> latency <= request.p95SloLimitMs
  {
    ModelFeasibleIff(proposal, request);
    ExpectedIntensityIsLeastValue(proposal, request);
    var slots := SlotsUpTo(request.candidates, proposal.targetRegion, StartTime(proposal, request.earliestStart));
    assert now in slots;
    var some :| some in slots && some.scheduledTime == LatestTime(slots);
    assert Values(some, proposal, request);
  }

  /** So without the rail the whole sandwich still holds for every proposal that
      passes the other rails, provided the region's catalog latency is within the SLO. */
  lemma SandwichWithinCatalog(input: DecisionInput, defaultRegion: string, catalog: LatencyCatalog,
                              slotMinutes: Option<int>,
                              request: SchedulingRequest, solver: Solver, proposal: ActionProposal, tolerance: real,
                              allowedServices: seq<string>)
    requires input.Valid()
    requires BuildRequest(input, defaultRegion, catalog, slotMinutes) == Success(request)
    requires RailsPass(proposal, input, allowedServices)
    requires CheckCarbonRegret(proposal, Some(request), Some(SolveSchedule(request, solver)), tolerance).check.passed
    requires proposal.targetRegion in catalog[input.workloadProfile]
    requires catalog[input.workloadProfile][proposal.targetRegion] <= input.p95SloLimitMs
    ensures SolveSchedule(request, solver).Selected?
    ensures WithinRegret(ExpectedIntensity(proposal, request), SolveSchedule(request, solver).intensity, tolerance)
  {
    FeasibleIffCatalogWithinSlo(input, defaultRegion, catalog, slotMinutes, request, proposal, allowedServices);
    RegretSandwich(input, defaultRegion, catalog, slotMinutes, request, solver, proposal, tolerance);
  }

  /** A proposal worth less than the reference passes the regret rail. */
  lemma CheaperPassesRegret(proposal: ActionProposal, request: SchedulingRequest, reference: ScheduleResult,
                            value: real, tolerance: real)
    requires reference.Selected? && reference.intensity > 0.0
    requires ExpectedIntensity(proposal, request) == Some(value) && value < reference.intensity
    requires tolerance >= 0.0
    ensures var outcome := CheckCarbonRegret(proposal, Some(request), Some(reference), tolerance);
            outcome.check.passed && outcome.proposalIntensity == Some(value)
  {
    RegretOfCheaper(value, reference.intensity, tolerance);
  }

  lemma RegretOfCheaper(expected: real, optimum: real, tolerance: real)
    requires expected < optimum && optimum > 0.0 && tolerance >= 0.0
    ensures RegretVerdict(Some(expected), optimum, tolerance).check.passed
  {
    ProductNonnegative(tolerance + REGRET_SLACK, optimum);
    DivisionBound(expected, optimum, tolerance + REGRET_SLACK);
  }

  // ---- the fallback passes its own gate

  function ProposalFromSchedule(schedule: ScheduleResult, input: DecisionInput): ActionProposal
    requires schedule.Selected?
  {
    ActionProposal(schedule.actionType, schedule.targetRegion, input.targetService, Some(schedule.scheduledTime),
                   input.workloadProfile, schedule.expectedP95LatencyMs, [])
  }

  /** Every rail the gate applies to a proposal except the two data rails, with
      the regret rail reporting a regret of exactly zero. */
  ghost predicate PassesWithZeroRegret(proposal: ActionProposal, input: DecisionInput, request: SchedulingRequest,
                                       schedule: ScheduleResult, allowedServices: seq<string>, tolerance: real)
  {
    && AllPassed(ValidateProposal(Some(proposal), input.candidateRegions, allowedServices, input.earliestStart,
                                  input.deadline, input.clusterAvailable, Some(input.p95SloLimitMs)))
    && CheckEvidence(proposal, input.retrievalContextIds).passed
    && CheckModelFeasibility(proposal, Some(request)).passed
    && var regret := CheckCarbonRegret(proposal, Some(request), Some(schedule), tolerance);
    && regret.check.passed
    && regret.regret == Some(0.0)
  }

  /** The fallback would be admitted by the gate that triggers it: for every
      buildable input whose service is allowed, the proposal made from the
      selected schedule passes all seven proposal rails, the evidence rail,
      model feasibility, and the regret rail with regret exactly zero. */
  lemma FallbackPassesItsOwnGate(input: DecisionInput, defaultRegion: string, catalog: LatencyCatalog,
                                 slotMinutes: Option<int>, request: SchedulingRequest, solver: Solver,
                                 allowedServices: seq<string>, tolerance: real)
    requires input.Valid()
    requires BuildRequest(input, defaultRegion, catalog, slotMinutes) == Success(request)
    requires SolveSchedule(request, solver).Selected?
    requires input.targetService in allowedServices
    requires tolerance >= 0.0
    ensures PassesWithZeroRegret(ProposalFromSchedule(SolveSchedule(request, solver), input), input, request,
                                 SolveSchedule(request, solver), allowedServices, tolerance)
  {
    SolveIsExact(request, solver);
    var schedule := SolveSchedule(request, solver);
    var best :| IsOptimal(best, request) && Selects(schedule, best, request);
    BuiltCandidatesAreExact(input, defaultRegion, catalog, slotMinutes, best);
    BuiltRequestIsUniform(input, defaultRegion, catalog, slotMinutes, request, ProposalFromSchedule(schedule, input));
    BestPassesProposalRails(input, catalog[input.workloadProfile], request, schedule, best, allowedServices);
    BestPassesModelRails(input, request, schedule, best, tolerance);
  }

  lemma BestPassesProposalRails(input: DecisionInput, latencies: map<string, real>, request: SchedulingRequest,
                                schedule: ScheduleResult, best: ScheduleCandidate, allowedServices: seq<string>)
    requires Faithful(best, input, latencies)
    requires Selects(schedule, best, request)
    requires IsFeasible(best, request) && request.p95SloLimitMs == input.p95SloLimitMs
    requires input.targetService in allowedServices
    ensures AllPassed(ValidateProposal(Some(ProposalFromSchedule(schedule, input)), input.candidateRegions,
                                       allowedServices,
                                       input.earliestStart, input.deadline, input.clusterAvailable,
                                       Some(input.p95SloLimitMs)))
  {
  }

  lemma BestPassesModelRails(input: DecisionInput, request: SchedulingRequest, schedule: ScheduleResult,
                             best: ScheduleCandidate, tolerance: real)
    requires IsOptimal(best, request) && Selects(schedule, best, request)
    requires ChosenUniform(ProposalFromSchedule(schedule, input), request)
    requires best.intensity >= 0.0 && tolerance >= 0.0
    ensures var proposal := ProposalFromSchedule(schedule, input);
            var regret := CheckCarbonRegret(proposal, Some(request), Some(schedule), tolerance);
            && CheckModelFeasibility(proposal, Some(request)).passed
            && regret.check.passed
            && regret.regret == Some(0.0)
  {
    var proposal := ProposalFromSchedule(schedule, input);
    SelectedIsChosen(request, best, proposal);
    SelectedIsValuedAtOptimum(request, best, proposal);
    SelectedIsFeasible(request, best, proposal);
    ZeroRegret(best.intensity, tolerance);
  }

  lemma ZeroRegret(optimum: real, tolerance: real)
    requires optimum >= 0.0 && tolerance >= 0.0
    ensures RegretVerdict(Some(optimum), optimum, tolerance).check.passed
    ensures RegretVerdict(Some(optimum), optimum, tolerance).regret == Some(0.0)
  {
  }

  lemma SelectedIsChosen(request: SchedulingRequest, best: ScheduleCandidate, proposal: ActionProposal)
    requires best in request.candidates
    requires proposal.targetRegion == best.targetRegion && proposal.scheduledTime == Some(best.scheduledTime)
    ensures best in ChosenSlots(proposal, request)
  {
    assert best in SlotsUpTo(request.candidates, proposal.targetRegion, best.scheduledTime);
  }

  lemma SelectedIsValuedAtOptimum(request: SchedulingRequest, best: ScheduleCandidate, proposal: ActionProposal)
    requires IsOptimal(best, request)
    requires best in ChosenSlots(proposal, request)
    requires ChosenUniform(proposal, request)
    ensures ExpectedIntensity(proposal, request) == Some(best.intensity)
  {
    forall c | c in ChosenSlots(proposal, request) ensures best.intensity <= c.intensity {
      assert IsFeasible(c, request);
      assert !KeyLess(c, best);
    }
  }

  lemma SelectedIsFeasible(request: SchedulingRequest, best: ScheduleCandidate, proposal: ActionProposal)
    requires IsFeasible(best, request)
    requires best in ChosenSlots(proposal, request)
    requires request.earliestStart <= StartTime(proposal, request.earliestStart) <= request.deadline
    ensures CheckModelFeasibility(proposal, Some(request)).passed
  {
    FeasibleOfChosen(proposal, request, best);
  }

  // ---- score semantics

  lemma ProductNonnegative(x: real, y: real)
    requires x >= 0.0 && y >= 0.0
    ensures x * y >= 0.0
  {
  }

  lemma WeightedNonnegative(value: real, weight: real) returns (product: real)
    requires 0.0 <= value <= 1.0 && 0.0 <= weight
    ensures product == value * weight
    ensures 0.0 <= product <= weight
  {
    product := value * weight;
    ProductNonnegative(value, weight);
    ProductNonnegative(1.0 - value, weight);
    assert (1.0 - value) * weight == weight - product;
  }

  /** As built, a report whose rails all passed scores at least the rail plus
      feasibility weights whatever RAGAS returned, so a threshold at or below
      their sum never rejects on the score. */
  lemma AsBuiltFloor(proposal: ActionProposal, components: TrustComponentScores, policy: TrustPolicy,
                     checks: seq<RailCheck>)
    requires components.Valid() && components.Complete() && policy.weights.Valid()
    requires components.nemoRails == Some(1.0) && components.executionFeasibility == Some(1.0)
    requires AllPassed(checks)
    ensures var floor := policy.weights.nemoRails + policy.weights.executionFeasibility;
            var report := EvaluateTrust(Some(proposal), components, policy, checks, None);
            && AsBuiltScore(components, policy.weights) >= floor
            && (report.Success? && policy.threshold <= floor ==> report.value.passed)
  {
    var f := WeightedNonnegative(components.ragasFaithfulness.value, policy.weights.ragasFaithfulness);
    var p := WeightedNonnegative(components.ragasContextPrecision.value, policy.weights.ragasContextPrecision);
    var d := WeightedNonnegative(components.dataFreshness.value, policy.weights.dataFreshness);
    assert AsBuiltScore(components, policy.weights)
        == f + p + policy.weights.nemoRails + d + policy.weights.executionFeasibility;
  }

  /** The as-built score can leave [0, 1], and building the report then raises:
      a full-marks proposal under weights that sum to slightly more than one,
      which their validator accepts, gets no report at all. */
  lemma AsBuiltCanRaise(proposal: ActionProposal, policy: TrustPolicy, checks: seq<RailCheck>)
    requires policy.weights.Valid() && AllPassed(checks)
    ensures EvaluateTrust(Some(proposal), TrustComponentScores(Some(1.0), Some(1.0), Some(1.0), Some(1.0), Some(1.0)),
                          policy, checks, None).Failure?
            <==> policy.weights.Total() > 1.0
    ensures TrustWeights(0.2, 0.2, 0.2, 0.2, 0.2000000001).Valid()
    ensures TrustWeights(0.2, 0.2, 0.2, 0.2, 0.2000000001).Total() > 1.0
  {
    var full := TrustComponentScores(Some(1.0), Some(1.0), Some(1.0), Some(1.0), Some(1.0));
    assert AsBuiltScore(full, policy.weights) == policy.weights.Total();
  }

  /** As built, a report passes exactly when the evaluator answered, all five
      components are present, every rail passed, and the weighted sum lies in
      the validated range and reaches the threshold. */
  lemma AsBuiltPassesIff(proposal: ActionProposal, components: TrustComponentScores, policy: TrustPolicy,
                         checks: seq<RailCheck>, evaluatorError: Option<string>)
    requires components.Valid() && policy.weights.Valid()
    ensures var report := EvaluateTrust(Some(proposal), components, policy, checks, evaluatorError);
            report.Success? && report.value.passed
            <==> && !Truthy(evaluatorError) && components.Complete() && AllPassed(checks)
                 && SumReaches(components, policy.weights, policy.threshold)
  {
    if components.Complete() {
      AsBuiltScoreNonnegative(components, policy.weights);
      ScoreIsSum(components, policy.weights, policy.threshold);
    }
  }

  /** The sum of the five components, each times its own weight, is from the threshold
      to one. */
  predicate SumReaches(c: TrustComponentScores, w: TrustWeights, threshold: real)
    requires c.Complete()
  {
    threshold <= c.ragasFaithfulness.value * w.ragasFaithfulness
                 + c.ragasContextPrecision.value * w.ragasContextPrecision
                 + c.nemoRails.value * w.nemoRails
                 + c.dataFreshness.value * w.dataFreshness
                 + c.executionFeasibility.value * w.executionFeasibility
              <= 1.0
  }

  lemma ScoreIsSum(c: TrustComponentScores, w: TrustWeights, threshold: real)
    requires c.Complete()
    ensures threshold <= AsBuiltScore(c, w) <= 1.0 <==> SumReaches(c, w, threshold)
  {
    var faithfulness, precision := c.ragasFaithfulness.value * w.ragasFaithfulness,
                                   c.ragasContextPrecision.value * w.ragasContextPrecision;
    var rails, freshness := c.nemoRails.value * w.nemoRails, c.dataFreshness.value * w.dataFreshness;
    var feasibility := c.executionFeasibility.value * w.executionFeasibility;
    assert AsBuiltScore(c, w) == faithfulness + precision + rails + freshness + feasibility;
  }

  lemma AsBuiltScoreNonnegative(components: TrustComponentScores, weights: TrustWeights)
    requires components.Valid() && components.Complete() && weights.Valid()
    ensures AsBuiltScore(components, weights) >= 0.0
  {
    var f := WeightedNonnegative(components.ragasFaithfulness.value, weights.ragasFaithfulness);
    var p := WeightedNonnegative(components.ragasContextPrecision.value, weights.ragasContextPrecision);
    var n := WeightedNonnegative(components.nemoRails.value, weights.nemoRails);
    var d := WeightedNonnegative(components.dataFreshness.value, weights.dataFreshness);
    var e := WeightedNonnegative(components.executionFeasibility.value, weights.executionFeasibility);
    assert AsBuiltScore(components, weights) == f + p + n + d + e;
  }

  /** With weights summing to at most one the as-built report never raises. */
  lemma AsBuiltScoreInRange(components: TrustComponentScores, weights: TrustWeights)
    requires components.Valid() && components.Complete() && weights.Valid() && weights.Total() <= 1.0
    ensures 0.0 <= AsBuiltScore(components, weights) <= 1.0
  {
    var f := WeightedNonnegative(components.ragasFaithfulness.value, weights.ragasFaithfulness);
    var p := WeightedNonnegative(components.ragasContextPrecision.value, weights.ragasContextPrecision);
    var n := WeightedNonnegative(components.nemoRails.value, weights.nemoRails);
    var d := WeightedNonnegative(components.dataFreshness.value, weights.dataFreshness);
    var e := WeightedNonnegative(components.executionFeasibility.value, weights.executionFeasibility);
    assert AsBuiltScore(components, weights) == f + p + n + d + e;
  }

  /** The v2 score lies between its two RAGAS values and is monotone in each,
      so for scores in [0, 1] its clamp never acts. */
  lemma EvaluativeMeanIsMean(f: real, p: real, f': real, p': real, w: TrustWeights)
    requires w.ragasFaithfulness >= 0.0 && w.ragasContextPrecision >= 0.0
    requires w.ragasFaithfulness + w.ragasContextPrecision > 0.0
    ensures (if f < p then f else p) <= EvaluativeMean(f, p, w) <= (if f < p then p else f)
    ensures f <= f' && p <= p' ==> EvaluativeMean(f, p, w) <= EvaluativeMean(f', p', w)
    ensures 0.0 <= f <= 1.0 && 0.0 <= p <= 1.0 ==> Clamp(EvaluativeMean(f, p, w)) == EvaluativeMean(f, p, w)
  {
    var low, high := if f < p then f else p, if f < p then p else f;
    MeanAtMost(low, low, f, p, w);
    MeanAtMost(f, p, high, high, w);
    MeanOfEqual(low, w);
    MeanOfEqual(high, w);
    if f <= f' && p <= p' {
      MeanAtMost(f, p, f', p', w);
    }
  }

  lemma MeanOfEqual(x: real, w: TrustWeights)
    requires w.ragasFaithfulness + w.ragasContextPrecision > 0.0
    ensures EvaluativeMean(x, x, w) == x
  {
    var a, b := w.ragasFaithfulness, w.ragasContextPrecision;
    assert x * a + x * b == x * (a + b);
  }

  lemma MeanAtMost(f: real, p: real, f': real, p': real, w: TrustWeights)
    requires w.ragasFaithfulness >= 0.0 && w.ragasContextPrecision >= 0.0
    requires w.ragasFaithfulness + w.ragasContextPrecision > 0.0
    requires f <= f' && p <= p'
    ensures EvaluativeMean(f, p, w) <= EvaluativeMean(f', p', w)
  {
    var a, b := w.ragasFaithfulness, w.ragasContextPrecision;
    ProductNonnegative(f' - f, a);
    ProductNonnegative(p' - p, b);
    assert (f' - f) * a == f' * a - f * a && (p' - p) * b == p' * b - p * b;
    DivideOrder(f * a + p * b, f' * a + p' * b, a + b);
  }

  lemma DivideOrder(x: real, y: real, w: real)
    requires w > 0.0 && x <= y
    ensures x / w <= y / w
  {
    var u, v := x / w, y / w;
    assert u * w == x && v * w == y;
    ProductNonnegative(if u > v then u - v else v - u, w);
  }

  /** The weighted mean of the two RAGAS scores, cut to [0, 1], reaches the threshold. */
  predicate Reaches(f: real, p: real, w: TrustWeights, threshold: real) {
    var weight := w.ragasFaithfulness + w.ragasContextPrecision;
    && weight > 0.0 && threshold <= 1.0
    && (threshold <= 0.0 || threshold * weight <= f * w.ragasFaithfulness + p * w.ragasContextPrecision)
  }

  lemma MeanReaches(f: real, p: real, w: TrustWeights, threshold: real)
    requires w.ragasFaithfulness + w.ragasContextPrecision > 0.0
    ensures threshold <= Clamp(EvaluativeMean(f, p, w)) <==> Reaches(f, p, w, threshold)
  {
    var mean, weight := EvaluativeMean(f, p, w), w.ragasFaithfulness + w.ragasContextPrecision;
    assert mean * weight == f * w.ragasFaithfulness + p * w.ragasContextPrecision;
    ProductNonnegative(if threshold <= mean then mean - threshold else threshold - mean, weight);
    assert (mean - threshold) * weight == mean * weight - threshold * weight;
  }

  /** v2 admits exactly the proposals whose rails all passed, whose evaluator
      answered with both scores, and whose weighted mean reaches the threshold. */
  lemma V2PassesIff(proposal: ActionProposal, components: TrustComponentScores, policy: TrustPolicy,
                    checks: seq<RailCheck>, evaluatorError: Option<string>)
    ensures EvaluateTrustV2(Some(proposal), components, policy, checks, evaluatorError).passed
            <==> && AllPassed(checks)
                 && !Truthy(evaluatorError)
                 && components.ragasFaithfulness.Some? && components.ragasContextPrecision.Some?
                 && Reaches(components.ragasFaithfulness.value, components.ragasContextPrecision.value, policy.weights,
                            policy.threshold)
  {
    if components.ragasFaithfulness.Some? && components.ragasContextPrecision.Some?
       && policy.weights.ragasFaithfulness + policy.weights.ragasContextPrecision > 0.0 {
      MeanReaches(components.ragasFaithfulness.value, components.ragasContextPrecision.value, policy.weights,
                  policy.threshold);
    }
  }
}
