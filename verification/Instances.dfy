/** Concrete inputs at which the properties that fail do fail. */
module Instances {
  import opened Wrappers
  import opened Schemas
  import opened Milp
  import opened Request
  import opened Trust
  import opened DataRails
  import opened Decision
  import opened LangGraphFlow
  import opened Runs
  import opened GateLaws
  import opened BackendLaws
  import opened ResultLaws
  import Order
  import ContextStore

  // ---- two regions

  /** Two regions: `a` within the SLO, `b` cheaper and too slow by the catalog. */
  function TwoRegions(): DecisionInput {
    DecisionInput("run", "cycle", "profile", 0, 600 * SECOND, ["a", "b"], TwoRecords(0), "service",
                  [], 500.0, 0.1, map["a" := true, "b" := true], "hash")
  }

  /** Their carbon records, under a snapshot clock. */
  function TwoRecords(decisionTime: int): CarbonSnapshot {
    CarbonSnapshot("s", decisionTime, map[
      "a" := CarbonRegionData("A", None, Live, CarbonPoint(0, 100.0), [], 0, None, None, None),
      "b" := CarbonRegionData("B", None, Live, CarbonPoint(0, 50.0), [], 0, None, None, None)])
  }

  /** The v2 profile with its default rails, limits and tolerance. */
  function V2Config(): WorkflowConfig {
    WorkflowConfig(true, true, TrustPolicy(0.6, TrustWeights(0.2, 0.2, 0.2, 0.2, 0.2)), "a",
                   map["profile" := map["a" := 10.0, "b" := 900.0]], None,
                   GatePolicy(V2, 7200.0, 0.05, 21600.0, map[], map[], None), false, false)
  }

  /** The same with a real executor, which checks the deadline. */
  function RealConfig(): WorkflowConfig {
    V2Config().(realExecutor := true)
  }

  function TwoCandidates(): SchedulingRequest {
    SchedulingRequest("profile", "a", 0, 600 * SECOND, 500.0, [Best(), Slow()])
  }

  function Best(): ScheduleCandidate {
    ScheduleCandidate("a", 0, 100.0, 10.0, true, true)
  }

  function Slow(): ScheduleCandidate {
    ScheduleCandidate("b", 0, 50.0, 900.0, true, true)
  }

  lemma TwoRecordsValid(decisionTime: int)
    ensures TwoRecords(decisionTime).Valid()
  {
    assert "a" in TwoRecords(decisionTime).regions;
  }

  lemma TwoRegionsValid()
    ensures TwoRegions().Valid()
  {
    TwoRecordsValid(0);
  }

  lemma TwoRegionsApart()
    ensures TwoRegions().Valid()
    ensures ProvenanceOk(TwoRecords(0), ["a", "b"], V2Config().gate, 0, 600 * SECOND)
  {
    TwoRegionsValid();
    var gate := V2Config().gate;
    ProvenanceIff(TwoRecords(0), ["a", "b"], gate, 0, 600 * SECOND);
    assert ZoneMatches(TwoRecords(0).regions["a"], "a", gate);
    assert ZoneMatches(TwoRecords(0).regions["b"], "b", gate);
  }

  lemma TwoRegionsClean(env: Environment)
    ensures TwoRegions().Valid() && DataRailsPass(V2Config(), env, TwoRegions())
  {
    TwoRegionsValid();
    TwoRegionsApart();
    assert FreshAt(TwoRecords(0), 0, 7200.0);
  }

  lemma TwoRegionsBuild()
    ensures BuildRequest(TwoRegions(), "a", V2Config().catalog, None) == Success(TwoCandidates())
  {
    var input, test := TwoRegions(), TestFor(TwoRegions(), None);
    var latencies := V2Config().catalog["profile"];
    assert ["a", "b"][..1] == ["a"] && ["a"][..0] == [];
    assert Collect(input, ["a"], latencies, test).value == [Best()];
    assert Collect(input, ["a", "b"], latencies, test).value == [Best()] + [Slow()];
    assert [Best()] + [Slow()] == [Best(), Slow()];
  }

  lemma OnlyBestIsFeasible()
    ensures SolveSchedule(TwoCandidates(), Enumeration).Selected?
    ensures SolveSchedule(TwoCandidates(), Enumeration).intensity == 100.0
  {
    SolveIsExact(TwoCandidates(), Enumeration);
    assert Best() in TwoCandidates().candidates;
    assert forall c :: c in TwoCandidates().candidates && IsFeasible(c, TwoCandidates()) ==> c == Best();
  }

  /** The reference of the two regions, under any configuration with this catalog. */
  lemma TwoRegionsReference(cfg: WorkflowConfig, env: Environment)
    requires env.solver.Enumeration?
    requires cfg.defaultRegion == "a" && cfg.catalog == V2Config().catalog && cfg.slotMinutes == None
    ensures Reference(cfg, env, TwoRegions()) == Success((TwoCandidates(), SolveSchedule(TwoCandidates(), Enumeration)))
    ensures ReferenceSelected(cfg, env, TwoRegions())
  {
    TwoRegionsBuild();
    OnlyBestIsFeasible();
  }

  // ---- the lower regret bound

  lemma WorthOfSlow(proposal: ActionProposal)
    requires proposal.targetRegion == "b" && proposal.scheduledTime == Some(0)
    ensures ExpectedIntensity(proposal, TwoCandidates()) == Some(50.0)
  {
    assert Slow() in TwoCandidates().candidates;
    assert Values(Slow(), proposal, TwoCandidates());
    assert forall c :: Values(c, proposal, TwoCandidates()) ==> c == Slow();
    ExpectedIntensityIsLeastValue(proposal, TwoCandidates());
  }

  /** Under the default v2 gate, a proposal for `b` that declares a latency of
      500 ms passes every hard rail with a value of 50, half the optimum. */
  lemma LowerBoundCanFail(env: Environment, graph: GraphContext)
    requires env.solver.Enumeration? && graph.allowedServices.None?
    ensures TwoRegions().Valid()
    ensures Reference(V2Config(), env, TwoRegions())
            == Success((TwoCandidates(), SolveSchedule(TwoCandidates(), Enumeration)))
    ensures SolveSchedule(TwoCandidates(), Enumeration).Selected?
    ensures SolveSchedule(TwoCandidates(), Enumeration).intensity == 100.0
    ensures ExpectedIntensity(Probe(TwoRegions(), "b", 0), TwoCandidates()) == Some(50.0)
    ensures RailsAdmit(V2Config(), env, TwoRegions(), graph, Probe(TwoRegions(), "b", 0))
  {
    TwoRegionsClean(env);
    TwoRegionsReference(V2Config(), env);
    OnlyBestIsFeasible();
    WorthOfSlow(Probe(TwoRegions(), "b", 0));
    SlowIsTooSlow();
    ProbeBeats(V2Config(), env, TwoRegions(), graph, TwoCandidates(), SolveSchedule(TwoCandidates(), Enumeration),
               Slow());
  }

  lemma SlowIsTooSlow()
    ensures CheaperButTooSlow(TwoCandidates(), 100.0, Slow())
  {
    assert Slow() in TwoCandidates().candidates;
  }

  // ---- the parting backends

  lemma LateIsPast(env: Environment)
    requires env.dispatchNow > 600 * SECOND
    ensures PastDeadline(RealConfig(), env, TwoRegions())
  {
  }

  /** Past the deadline the nodes run the two regions' optimum and the direct flow
      refuses it. */
  lemma LateBackendsPart(env: Environment, graph: GraphContext, retrieved: seq<string>)
    requires env.solver.Enumeration? && env.dispatchNow > 600 * SECOND
    ensures TwoRegions().Valid()
    ensures Parts(RealConfig(), env, MilpOnly, TwoRegions(), graph, retrieved)
    ensures !Agree(DirectFlow(RealConfig(), env, MilpOnly, TwoRegions(), graph, retrieved),
                   LangGraphRun(RealConfig(), env, MilpOnly, TwoRegions(), graph, retrieved))
  {
    TwoRegionsValid();
    TwoRegionsReference(RealConfig(), env);
    LateIsPast(env);
    PartsWhenLate(RealConfig(), env, TwoRegions(), graph, retrieved);
    FlowsAgreeIff(RealConfig(), env, MilpOnly, TwoRegions(), graph, retrieved);
  }

  lemma PartsWhenLate(cfg: WorkflowConfig, env: Environment, input: DecisionInput, graph: GraphContext,
                      retrieved: seq<string>)
    requires input.Valid() && PastDeadline(cfg, env, input) && ReferenceSelected(cfg, env, input)
    ensures Parts(cfg, env, MilpOnly, input, graph, retrieved)
  {
  }

  /** Without latencies the direct flow raises and the nodes report an infeasible cycle. */
  lemma UnbuildableBackendsPart(env: Environment, graph: GraphContext, retrieved: seq<string>)
    ensures TwoRegions().Valid()
    ensures var cfg := V2Config().(catalog := map[]);
            && Parts(cfg, env, MilpOnly, TwoRegions(), graph, retrieved)
            && !Agree(DirectFlow(cfg, env, MilpOnly, TwoRegions(), graph, retrieved),
                      LangGraphRun(cfg, env, MilpOnly, TwoRegions(), graph, retrieved))
  {
    TwoRegionsValid();
    var cfg := V2Config().(catalog := map[]);
    assert Reference(cfg, env, TwoRegions()).Failure?;
    FlowsAgreeIff(cfg, env, MilpOnly, TwoRegions(), graph, retrieved);
  }

  /** So a run of one late cycle already differs between the backends. */
  lemma LateRunsDiffer(env: Environment, graph: GraphContext)
    requires env.solver.Enumeration? && env.dispatchNow > 600 * SECOND
    ensures var cycles := [Cycle(MilpOnly, TwoRegions(), graph, [], env)];
            ValidRun(cycles) && !RunsAlike(RealConfig(), cycles)
  {
    var cycles := [Cycle(MilpOnly, TwoRegions(), graph, [], env)];
    LateBackendsPart(env, graph, []);
    assert CycleParts(RealConfig(), cycles[0]);
    BackendsRunAlikeIff(RealConfig(), cycles);
  }

  // ---- a refused last-known-good cycle

  /** The two regions under a snapshot clock at which their data is too old. */
  function AgedInput(): DecisionInput {
    TwoRegions().(carbonSnapshot := TwoRecords(10000 * SECOND))
  }

  lemma AgedInputFails(env: Environment)
    ensures AgedInput().Valid() && !DataRailsPass(RealConfig(), env, AgedInput())
  {
    TwoRegionsValid();
    TwoRecordsValid(10000 * SECOND);
    var snapshot := TwoRecords(10000 * SECOND);
    assert "a" in snapshot.regions && ObservationAge(snapshot.regions["a"], snapshot.decisionTime) == 10000.0;
    assert !FreshAt(snapshot, snapshot.decisionTime, 7200.0);
    assert !DataRailChecks(RealConfig(), env, AgedInput())[0].passed;
  }

  lemma TwoRegionsUsable(env: Environment)
    requires env.solver.Enumeration? && env.cycleNow == 0
    ensures LastKnownGoodUsable(RealConfig(), env, RunState(Some(TwoRecords(0)), None), AgedInput())
  {
    TwoRegionsReference(RealConfig(), env);
    assert OnLastKnownGood(AgedInput(), TwoRecords(0)) == TwoRegions();
    assert RecentEnough(TwoRecords(0), 0, 21600.0);
  }

  /** With fresh last-known-good data and past the deadline, the cycle is refused,
      and recorded as a warning. */
  lemma RefusedLastKnownGood(env: Environment, graph: GraphContext, via: Orchestration)
    requires env.solver.Enumeration? && env.cycleNow == 0 && env.dispatchNow > 600 * SECOND
    ensures AgedInput().Valid() && Healthy(RunState(Some(TwoRecords(0)), None))
    ensures var c, state := Cycle(Hybrid, AgedInput(), graph, [], env), RunState(Some(TwoRecords(0)), None);
            var result := CycleStep(RealConfig(), via, state, c).result;
            && result.Success? && result.value.outcome == DeadlinePassed && result.value.alertLevel == Some(Warning)
  {
    var c, state := Cycle(Hybrid, AgedInput(), graph, [], env), RunState(Some(TwoRecords(0)), None);
    TwoRecordsValid(0);
    AgedInputFails(env);
    TwoRegionsUsable(env);
    LastKnownGoodRefusalIsWarning(RealConfig(), via, state, c);
  }

  // ---- order and latency

  function Tied(latency: real): ScheduleCandidate {
    ScheduleCandidate("a", 0, 100.0, latency, true, true)
  }

  /** Two candidates that differ in latency alone: their order decides what is reported. */
  lemma LatencyDependsOnOrder()
    ensures var request := TwoCandidates().(candidates := [Tied(10.0), Tied(20.0)]);
            && !OrderIsIrrelevant(request)
            && SolveSchedule(request.(candidates := MovedToFront(request.candidates, 0)), Enumeration)
               != SolveSchedule(request.(candidates := MovedToFront(request.candidates, 1)), Enumeration)
  {
    var request := TwoCandidates().(candidates := [Tied(10.0), Tied(20.0)]);
    assert request.candidates[0] == Tied(10.0) && request.candidates[1] == Tied(20.0);
    assert IsOptimal(Tied(10.0), request) && IsOptimal(Tied(20.0), request) by {
      KeyLessIsStrictWeakOrder();
    }
    OrderCanChangeLatency(request, 0, 1);
    OrderIsIrrelevantIff(request);
  }

  // ---- an old record retrieved

  /** Every text is its own only token. */
  function WholeText(): ContextStore.Text {
    ContextStore.Text(s => s, s => {s})
  }

  function Relevant(): ContextStore.ContextRecord {
    ContextStore.ContextRecord("relevant", "run", 0, "source", None, "source", "source")
  }

  function Newer(): ContextStore.ContextRecord {
    ContextStore.ContextRecord("newer", "run", 1, "source", None, "other", "other")
  }

  function SourceAtDepthOne(): ContextStore.RetrievalQuery {
    ContextStore.SourceQuery("source", 1, None, 1)
  }

  /** At depth one the older record whose text matches the source's name is picked,
      although a newer one is visible. */
  lemma PickCanBeOld(found: seq<ContextStore.ContextRecord>, pick: Option<ContextStore.ContextRecord>)
    requires ContextStore.IsTop(WholeText(), SourceAtDepthOne(), {Relevant(), Newer()}, found)
    requires ContextStore.PickedFrom(found, pick)
    ensures pick == Some(Relevant())
    ensures pick.value.eventTime < Newer().eventTime && ContextStore.Matches(Newer(), SourceAtDepthOne())
  {
    var records := {Relevant(), Newer()};
    NewerIsNewest();
    RelevantIsAhead();
    ContextStore.PickIsNewestIff(WholeText(), SourceAtDepthOne(), records, found, pick, Newer());
    assert pick.value in records;
  }

  lemma NewerIsNewest()
    ensures ContextStore.BestNewest(WholeText(), SourceAtDepthOne(), {Relevant(), Newer()}, Newer())
    ensures ContextStore.OnePerId({Relevant(), Newer()})
    ensures ContextStore.Matches(Newer(), SourceAtDepthOne())
  {
    ScoresOfTwo();
    assert Relevant().recordId[0] == 'r' && Newer().recordId[0] == 'n';
  }

  lemma RelevantIsAhead()
    ensures |ContextStore.Ahead(WholeText(), SourceAtDepthOne(), {Relevant(), Newer()}, Newer())| >= 1
  {
    ScoresOfTwo();
    var ahead := ContextStore.Ahead(WholeText(), SourceAtDepthOne(), {Relevant(), Newer()}, Newer());
    assert Relevant() in ahead;
    ContextStore.SubsetSize({Relevant()}, ahead);
  }

  /** That is what the search returns. */
  lemma RelevantIsTop()
    ensures ContextStore.IsTop(WholeText(), SourceAtDepthOne(), {Relevant(), Newer()}, [Relevant()])
    ensures ContextStore.PickedFrom([Relevant()], Some(Relevant()))
  {
    ScoresOfTwo();
    assert [Relevant()][0] == Relevant();
    Order.StringLessIsStrictTotal();
  }

  lemma ScoresOfTwo()
    ensures var q := SourceAtDepthOne();
            && ContextStore.Score(WholeText(), Relevant(), q) == 1.0
            && ContextStore.Score(WholeText(), Newer(), q) == 0.0
            && ContextStore.Matches(Relevant(), q) && ContextStore.Matches(Newer(), q)
  {
    assert {"source"} * {"source"} == {"source"};
    assert "source"[0] == 's' && "other"[0] == 'o';
    assert {"source"} * {"other"} == {};
  }
}
