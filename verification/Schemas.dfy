/** The controller's contracts. Instants are integer microseconds; intensities,
    latencies, scores and tolerances are reals. Each `Valid` predicate states
    the field constraints and validators of the record it belongs to. */
module Schemas {
  import opened Wrappers

  const SECOND: int := 1_000_000

  /** A span of microseconds as seconds. */
  function Seconds(span: int): real {
    span as real / 1000000.0
  }

  datatype ActionType = RunNow | RunInRegion | DelayUntil

  datatype DecisionMode = LlmOnly | MilpOnly | Hybrid | StaticReference

  datatype GateProfile = AsBuilt | V2 | V21 {
    predicate IsV2Family() {
      this != AsBuilt
    }
  }

  datatype CarbonDataSource = Live | Cache | Replay

  datatype CarbonPoint = CarbonPoint(timestamp: int, intensity: real) {
    predicate Valid() {
      intensity >= 0.0
    }
  }

  datatype CarbonRegionData = CarbonRegionData(
    providerRegion: string,
    reportedZone: Option<string>,
    source: CarbonDataSource,
    current: CarbonPoint,
    forecast: seq<CarbonPoint>,
    capturedAt: int,
    rawSourcePath: Option<string>,
    rawSourceHash: Option<string>,
    fallbackReason: Option<string>) {

    predicate Valid() {
      && providerRegion != ""
      && current.Valid()
      && (forall i :: 0 <= i < |forecast| ==> forecast[i].Valid())
      && TimeOrdered(forecast)
    }
  }

  predicate TimeOrdered(points: seq<CarbonPoint>) {
    forall i, j :: 0 <= i < j < |points| ==> points[i].timestamp <= points[j].timestamp
  }

  datatype CarbonSnapshot = CarbonSnapshot(
    snapshotId: string,
    decisionTime: int,
    regions: map<string, CarbonRegionData>) {

    predicate Valid() {
      && regions != map[]
      && (forall r :: r in regions ==> regions[r].Valid())
    }
  }

  datatype DecisionInput = DecisionInput(
    runId: string,
    cycleId: string,
    workloadProfile: string,
    earliestStart: int,
    deadline: int,
    candidateRegions: seq<string>,
    carbonSnapshot: CarbonSnapshot,
    targetService: string,
    retrievalContextIds: seq<string>,
    p95SloLimitMs: real,
    errorRateLimit: real,
    clusterAvailable: map<string, bool>,
    configHash: string) {

    predicate Valid() {
      && carbonSnapshot.Valid()
      && workloadProfile != ""
      && earliestStart <= deadline
      && candidateRegions != []
      && (forall i, j :: 0 <= i < j < |candidateRegions| ==> candidateRegions[i] != candidateRegions[j])
      && (forall r :: r in candidateRegions ==> r in carbonSnapshot.regions)
      && p95SloLimitMs > 0.0
    }
  }

  datatype ActionProposal = ActionProposal(
    actionType: ActionType,
    targetRegion: string,
    targetService: string,
    scheduledTime: Option<int>,
    workloadProfile: string,
    expectedP95LatencyMs: real,
    evidenceIds: seq<string>)

  datatype RailName =
    | ActionSchema | TargetRegion | TargetService | LatencyEstimate | DecisionWindow
    | ExecutionFeasibility | LatencySlo | DataAge | ZoneProvenance | EvidenceIds
    | CarbonRegret | ModelFeasibility

  datatype RailCheck = RailCheck(name: RailName, passed: bool)

  predicate AllPassed(checks: seq<RailCheck>) {
    forall i :: 0 <= i < |checks| ==> checks[i].passed
  }

  datatype TrustComponentScores = TrustComponentScores(
    ragasFaithfulness: Option<real>,
    ragasContextPrecision: Option<real>,
    nemoRails: Option<real>,
    dataFreshness: Option<real>,
    executionFeasibility: Option<real>) {

    predicate Valid() {
      && InUnit(ragasFaithfulness) && InUnit(ragasContextPrecision) && InUnit(nemoRails)
      && InUnit(dataFreshness) && InUnit(executionFeasibility)
    }

    predicate Complete() {
      && ragasFaithfulness.Some? && ragasContextPrecision.Some? && nemoRails.Some?
      && dataFreshness.Some? && executionFeasibility.Some?
    }
  }

  predicate InUnit(score: Option<real>) {
    score.Some? ==> 0.0 <= score.value <= 1.0
  }

  const NO_SCORES := TrustComponentScores(None, None, None, None, None)

  datatype TrustWeights = TrustWeights(
    ragasFaithfulness: real,
    ragasContextPrecision: real,
    nemoRails: real,
    dataFreshness: real,
    executionFeasibility: real) {

    function Total(): real {
      ragasFaithfulness + ragasContextPrecision + nemoRails + dataFreshness + executionFeasibility
    }

    /** Each weight is in [0, 1] and the sum is one up to the validator's 1e-9. */
    predicate Valid() {
      && 0.0 <= ragasFaithfulness <= 1.0 && 0.0 <= ragasContextPrecision <= 1.0
      && 0.0 <= nemoRails <= 1.0 && 0.0 <= dataFreshness <= 1.0 && 0.0 <= executionFeasibility <= 1.0
      && -0.000000001 <= Total() - 1.0 <= 0.000000001
    }
  }

  datatype TrustPolicy = TrustPolicy(threshold: real, weights: TrustWeights)

  /** Why a report did not pass; the code's message texts are not modelled. */
  datatype RejectionCause =
    | ProposalUnavailable | AgentUnavailable | EvaluatorFailed | MissingComponents | FailedRails
    | NoEvaluativeWeight | BelowThreshold | DataIntegrity

  datatype TrustReport = TrustReport(
    components: TrustComponentScores,
    railChecks: seq<RailCheck>,
    weightedScore: Option<real>,
    threshold: real,
    passed: bool,
    cause: Option<RejectionCause>,
    gateProfile: Option<GateProfile>,
    proposalIntensity: Option<real>,
    referenceIntensity: Option<real>,
    carbonRegret: Option<real>)

  datatype AlertLevel = Warning | Critical

  datatype DecisionSource = FromLlm | FromMilp | FromLastKnownGood | FromHold | FromStaticReference

  datatype ExecutionReceipt = ExecutionReceipt(
    runId: string,
    cycleId: string,
    mode: DecisionMode,
    finalAction: ActionProposal,
    fallbackTriggered: bool,
    actualP95LatencyMs: Option<real>,
    actualErrorRate: Option<real>,
    sloPassed: Option<bool>,
    executionFailureReason: Option<string>,
    gateProfile: Option<GateProfile>,
    decisionSource: Option<DecisionSource>,
    alert: bool,
    alertLevel: Option<AlertLevel>,
    dispatchedAt: Option<int>)

  datatype ScheduleCandidate = ScheduleCandidate(
    targetRegion: string,
    scheduledTime: int,
    intensity: real,
    expectedP95LatencyMs: real,
    regionAvailable: bool,
    resetReady: bool)

  datatype SchedulingRequest = SchedulingRequest(
    workloadProfile: string,
    defaultRegion: string,
    earliestStart: int,
    deadline: int,
    p95SloLimitMs: real,
    candidates: seq<ScheduleCandidate>) {

    predicate Valid() {
      && workloadProfile != "" && defaultRegion != ""
      && earliestStart <= deadline
      && p95SloLimitMs > 0.0
      && candidates != []
    }
  }

  datatype Backend = EnumerationBackend | PulpBackend

  /** `status` is the constructor, so the validator "selected results carry every
      action field, others carry none" holds by construction. */
  datatype ScheduleResult =
    | Selected(
        actionType: ActionType,
        targetRegion: string,
        scheduledTime: int,
        expectedP95LatencyMs: real,
        intensity: real,
        objectiveValue: real,
        backend: Backend)
    | Infeasible(backend: Backend)
    | SolverUnavailable(backend: Backend)

  /** What a call can raise. */
  datatype Failure =
    | MissingLatencyProfile
    | MissingLatencyRegion
    | NonPositiveLatency
    | InvalidSlot
    | InvalidCandidate
    | InvalidRequest
    | MissingSnapshotRegion
    | ScoreOutOfRange
}
