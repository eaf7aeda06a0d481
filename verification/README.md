# Carbon-aware scheduler: verified model

The repository decides, once per cycle, where and when to run a benchmark
session so that it emits little carbon. An LLM agent proposes a placement; a
trust gate of hard rails and an evaluator score judges it; a deterministic
scheduler program is the fallback; and a Kubernetes executor runs a reset Job
and then a benchmark Job. This project models that controller and its stores in
Dafny and proves what they promise over every input, every run and every
behaviour of the parts outside it.

Layout, one file per module:

| module | what it holds |
|---|---|
| `Wrappers`, `Order`, `Schemas` | options and results, string order and sorting, the data contracts |
| `Milp`, `Request` | the scheduler program, building its request, trimming a snapshot |
| `Trust`, `DataRails` | the proposal rails, regret and score rules; the age and zone rails |
| `Decision`, `LangGraphFlow` | one cycle as functions, on the direct and on the LangGraph backend |
| `Workflow` | the controller object with its state and memo, proved equal to those functions |
| `Runs`, `RunLaws` | unbounded runs: safety, executor calls, deadlines, holds |
| `GateLaws`, `CycleLaws` | exactly which proposals each gate admits, and from there the whole course of a cycle, told from its configuration, state, inputs and answers |
| `EvaluatorLaws`, `ResultLaws`, `BackendLaws`, `ScheduleLaws` | evaluator calls, recorded results, the two backends compared, candidate order |
| `Session`, `SessionLaws` | the Kubernetes session protocol against an adversarial server, and what the workflow makes of it |
| `Instances` | concrete inputs at which the properties that fail do fail |
| `CarbonCache`, `ContextStore`, `ManifestGraph` | the three stores |

The agent, the evaluator, CBC, the clock and the executor are the fields of
`Decision.Environment`. Each is an arbitrary function, chosen anew for every
cycle, and a cycle asks each of them at most once, so a statement for all
environments is a statement for all behaviours. The methods of
`Workflow.SchedulerWorkflow` update the same fields in the same order as the
controller and carry ghost traces of the calls made and the schedules solved.

## What the proofs found

Where the code and what its text says about itself differ, the model follows the
code. Each of these is a lemma below.

- The two orchestration backends are not always equivalent. They agree exactly
  when neither a needed schedule request is unbuildable (the direct flow raises,
  the node records an infeasible cycle) nor the branch guards lead to an action
  past a deadline the direct flow enforces (the execute node has no such check).
  Whole runs agree exactly when no cycle is of that kind.
- Under profile `v2` the model-feasibility rail is off by default, and the lower
  half of the regret bound can fail: exactly on inputs whose request has an
  available candidate that is too slow for the SLO and cheaper than the optimum.
  The upper half needs no such rail.
- An `as_built` report can raise instead of reporting: the weights validator
  tolerates a sum of 1 + 1e-9, the score field does not.
- With a slot grid, trimming a snapshot keeps every scheduling decision but can
  change the zone-provenance verdict in either direction, because the identity
  test compares window points that the grid drops. It keeps the verdict exactly
  when the zones clash already, or coincidence of some pair in the window and
  coincidence of some pair on the grid have the same truth value.
- A deadline refusal is critical, except that a last-known-good cycle overwrites
  it with a warning.
- A cycle recorded as executed need not have run a complete session: it is so
  recorded exactly when the session completed or the exception that ended it has
  an empty text. Such an exception is a status read refused or a pod listing
  unanswered without a text, or one of the client, a template or a figure. If
  none of these is silent, a record as executed means a complete session. A
  server that loses three listings without a text shows the failure.
- Reordering candidates never changes the chosen region, time or intensity. On
  arbitrary requests it can change the reported latency, exactly when equally
  good candidates disagree on it; on requests the controller builds it cannot.
- The newest record of a source is retrieved exactly when fewer than the search
  depth of visible records score strictly higher than it.

## Model

| member | source | states |
|---|---|---|
| `Runs.RunSafety` | src/carbon_scheduler/workflow.py:225-258 | In every run of a fresh v2-family workflow, on either backend, every executor call of a hybrid cycle carries an admitted agent proposal or the exact minimum on a snapshot that passed both data rails, or the exact minimum on the snapshot of the latest earlier cycle that passed them, recent enough at the reference instant. |
| `Runs.LastKnownGoodIsLatestClean` | src/carbon_scheduler/workflow.py:229-241 | After any run the last-known-good snapshot is that of the latest gated cycle that passed both data rails, and absent exactly when no cycle did. |
| `RunLaws.PlacementIsLatest` | src/carbon_scheduler/workflow.py:280-291 | After any run the last placement is the region of the latest executor answer that is a receipt with a reason starting "dry-run:" or with none. |
| `RunLaws.PlacementMovesIff` | src/carbon_scheduler/workflow.py:280-291 | On either backend and from any healthy state the last placement moves exactly when the executor was called and returned a receipt with a reason starting "dry-run:" or with none, and then to the receipt's region. |
| `Runs.CleanCallJustified` | src/carbon_scheduler/workflow.py:793-813 | From any healthy state, a call made in a clean cycle is an admitted proposal when it is no fallback, and the exact minimum when it is. |
| `Runs.LastKnownGoodCallJustified` | src/carbon_scheduler/workflow.py:339-365 | A call made after failed data rails is a fallback to the exact minimum on a stored snapshot whose every observation is within the maximum age. |
| `Runs.JudgedNodeJustified` | src/carbon_scheduler/workflow.py:555-656 | The LangGraph nodes execute a judged proposal only when every hard rail passed and the score reached the threshold, otherwise the exact minimum. |
| `Runs.AdmittedWithinRegret` | src/carbon_scheduler/workflow.py:871-966 | With the feasibility rail on, an admitted action is valued between the exact optimum of its own inputs and (1 + tolerance + 1e-12) times it. |
| `Runs.SelectedIsExactMinimum` | src/carbon_scheduler/workflow.py:968-995 | The proposal made from the reference schedule realises an optimal feasible candidate of the request built from the same input. |
| `RunLaws.ExecutorCalledIffReached` | src/carbon_scheduler/workflow.py:1044-1133 | A cycle calls the executor exactly once if its outcome is a dry run, an execution or an execution failure, and never otherwise or when an exception escapes; the call carries the proposal on record and this cycle's ids. A returned receipt is on record up to its stamps, and the outcome is a dry run exactly for a reason starting "dry-run:", a failure exactly for any other nonempty reason, an execution exactly without a reason; a raising executor is a failure. |
| `CycleLaws.CycleTakesItsCourse` | src/carbon_scheduler/workflow.py:207-258 | On either backend, from any healthy state and in all four modes, a cycle raises, stops with an outcome or calls the executor once with a stated action, exactly as its mode, data rails, agent, gate, solver and deadline say: a scheduler cycle with nothing feasible ends without a slot, one whose solver does not answer without a solver, and otherwise runs an optimal candidate; a hybrid one runs the agent's proposal exactly when the gate admits it. The report on record passed exactly then. |
| `CycleLaws.CourseIsUnique` | src/carbon_scheduler/workflow.py:672-813 | Configuration, state, inputs and answers determine the course of a cycle. |
| `CycleLaws.AgentIsRecorded` | src/carbon_scheduler/workflow.py:260-291 | The agent's own proposal is on record wherever it was asked, whatever was run, and no proposal where it was not; so is the gate profile. |
| `CycleLaws.DocumentsAreNonBlank` | src/carbon_scheduler/workflow.py:683 | The documents passed on are those that are not all spaces, in order. |
| `RunLaws.NoDispatchPastDeadline` | src/carbon_scheduler/workflow.py:1054-1083 | On the direct backend with a real executor and profile v2 or v2.1, no executor call happens when the dispatch reading is past the deadline, whatever the mode and the data rails say. |
| `EvaluatorLaws.EvaluatorAskedOnlyAfterRails` | src/carbon_scheduler/workflow.py:889-966 | Under the v2 family, on either backend and from any state, a hybrid cycle asks the evaluator at most once, before executing anything, only about its own agent's proposal and only when every hard rail of it passed; never when the data rails failed. |
| `EvaluatorLaws.GateAsksWell` | src/carbon_scheduler/workflow.py:931-966 | The v2 gate asks at most once and only about a rail-clean proposal; a report that passes was asked about. |
| `RunLaws.AsBuiltScoreNeverRejects` | src/carbon_scheduler/workflow.py:832-869 | As built, a proposal whose rails pass is never rejected on its score if the threshold is at most the rail plus feasibility weights, whatever RAGAS scores come back and whatever weights the validator accepts: it passes, or the report raises exactly when the weighted sum exceeds one. |
| `ResultLaws.SourceTellsWhatRan` | src/carbon_scheduler/workflow.py:260-291 | With an executor that echoes its action, the recorded decision source tells what ran: last-known-good exactly on cycles whose data rails failed, otherwise the static, LLM or scheduler source of the mode, which for a hybrid cycle is the scheduler exactly when the call was a fallback. |
| `ResultLaws.CycleIsRecorded` | src/carbon_scheduler/workflow.py:1044-1133 | Over whole cycles on either backend: an SLO verdict is recorded for executed sessions only, never for a failed, refused, dry or held one, and for a measured one it is true exactly when both limits were kept; an alert is flagged exactly when it has a level, and the receipt carries the flag and level of the result. |
| `ResultLaws.DataRailsAreRecorded` | src/carbon_scheduler/workflow.py:225-258 | The failed data rails on record are none where the rails do not apply, the empty list where both passed, and otherwise exactly those of the two that failed; a last-known-good entry is there exactly on cycles answered from the stored snapshot, with its id and the age of its oldest observation. |
| `ResultLaws.RefusalIsCriticalIff` | src/carbon_scheduler/workflow.py:358-375 | On either backend a deadline refusal is recorded as critical if and only if the cycle's data rails passed or did not apply. |
| `RunLaws.StaleHolds` | src/carbon_scheduler/workflow.py:310-434 | A data-failing cycle without a usable last-known-good schedule makes no call, keeps the state, and records a critical hold: the action of staying in the held region, with its latency and a reason; or it raises when that region has no latency on record. |
| `RunLaws.StaleHoldIsAbsorbing` | src/carbon_scheduler/workflow.py:339-381 | With a scheduler clock that does not run backwards, once a data-failing cycle has no recent last-known-good snapshot, every later data-failing cycle holds with no executor call until a cycle passes both data rails. |
| `RunLaws.HoldNamesLatestPlacement` | src/carbon_scheduler/workflow.py:395-409 | Every hold names the region of the latest dry-run or executed receipt in the run, or the default region. |
| `ResultLaws.LastKnownGoodRefusalIsWarning` | src/carbon_scheduler/workflow.py:358-375 | A last-known-good cycle refused at the deadline ends as a warning: the alert level of the refusal is overwritten, on the receipt too. |
| `Instances.RefusedLastKnownGood` | src/carbon_scheduler/workflow.py:358-375 | A data-failing cycle with fresh last-known-good data and a late dispatch reading that is refused and recorded as a warning, on either backend. |
| `BackendLaws.BackendsRunAlikeIff` | src/carbon_scheduler/workflow.py:242-258 | Two runs over the same cycles, one per backend, pass through the same states and take the same decisions if and only if no cycle's guards make the flows part. |
| `Instances.LateRunsDiffer` | src/carbon_scheduler/workflow.py:620-656 | A run of one cycle that differs between the backends. |
| `BackendLaws.StepsSameIff` | src/carbon_scheduler/workflow.py:229-258 | From any healthy state, one cycle is the same on both backends if and only if its guards do not make the flows part. |
| `LangGraphFlow.FlowsAgreeIff` | src/carbon_scheduler/workflow.py:504-670 | For every mode, input and oracle behaviour the six nodes and the direct flow give the same decision, exception and calls if and only if no needed request is unbuildable and the branch guards do not lead to an action past an enforced deadline. Agreeing results differ exactly in the proposal kept when the solver selected nothing and in the dispatch reading, which the direct flow records when there is a clock. |
| `Instances.LateBackendsPart` | src/carbon_scheduler/workflow.py:1054-1083 | A valid two-region input and a configuration with a real executor at which the flows part because the dispatch reading is past the deadline. |
| `Instances.UnbuildableBackendsPart` | src/carbon_scheduler/workflow.py:599-607 | The same input without latencies, at which the flows part because the request cannot be built. |
| `LangGraphFlow.DispatchIff` | src/carbon_scheduler/workflow.py:571-656 | The nodes execute an action exactly under the branch guards: a selected reference, an available static action, an agent proposal whose rails pass, or a gate verdict that passed or whose fallback is selected. The direct flow does exactly under the same guards and not past an enforced deadline. |
| `LangGraphFlow.ScheduleAgrees` | src/carbon_scheduler/workflow.py:599-618 | The scheduling node agrees with the direct scheduler step when the reference can be built, up to a deadline refusal, and disagrees without dispatching when it cannot. |
| `LangGraphFlow.ExecuteAgrees` | src/carbon_scheduler/workflow.py:620-670 | Executing a chosen action always calls the executor, and agrees with the direct execution exactly when the direct flow does not refuse it at the deadline. |
| `LangGraphFlow.JudgedRelates` | src/carbon_scheduler/workflow.py:555-597 | The agreement for a hybrid cycle with a proposal, over the gate's every verdict. |
| `Workflow.SchedulerWorkflow.constructor` | src/carbon_scheduler/workflow.py:144-194 | A new workflow is in the fresh state and has called and solved nothing. |
| `Workflow.SchedulerWorkflow.RestoreState` | src/carbon_scheduler/workflow.py:196-205 | Re-seeds exactly the last-known-good snapshot and the last placement. |
| `Workflow.SchedulerWorkflow.RunCycle` | src/carbon_scheduler/workflow.py:207-258 | Memo coherence: the cycle with its memo has exactly the result, the next state and the calls of the memo-free cycle, even when two cycles share their ids, and solves at most one schedule. |
| `Workflow.SchedulerWorkflow.ReferenceSchedule` | src/carbon_scheduler/workflow.py:436-451 | Reading the reference, cached or not, equals building and solving from this cycle's own input; a cached reference is not solved again. |
| `Workflow.SchedulerWorkflow.EvaluateHybridTrustV2` | src/carbon_scheduler/workflow.py:871-966 | The v2 gate over the memo gives the memo-free verdict and asks the evaluator only as specified. |
| `Workflow.SchedulerWorkflow.EvaluateHybridTrust` | src/carbon_scheduler/workflow.py:815-869 | Either gate profile gives its specified verdict, or the specified exception when a score is out of range. |
| `Workflow.SchedulerWorkflow.RunMilpFlow` | src/carbon_scheduler/workflow.py:968-995 | The scheduler step uses the same reference the regret rail used. |
| `Workflow.SchedulerWorkflow.RunCycleDirect` | src/carbon_scheduler/workflow.py:672-813 | The direct flow in all four modes computes its specification and records the captured agent proposal. |
| `Workflow.SchedulerWorkflow.RunCycleLangGraph` | src/carbon_scheduler/workflow.py:453-502 | The six nodes run in sequence compute their specification. |
| `Workflow.SchedulerWorkflow.LgEvaluateTrust` | src/carbon_scheduler/workflow.py:555-569 | The evaluation node gives the gate's verdict over the shared memo. |
| `Workflow.SchedulerWorkflow.LgChooseFinalAction` | src/carbon_scheduler/workflow.py:571-597 | The choice node computes its specification over the shared memo. |
| `Workflow.SchedulerWorkflow.LgSchedule` | src/carbon_scheduler/workflow.py:599-618 | The scheduling node computes its specification over the shared memo. |
| `Workflow.SchedulerWorkflow.DataIntegrityResponse` | src/carbon_scheduler/workflow.py:310-381 | After failed data rails the response is the specified one, leaves the memo alone and solves at most once. |
| `Workflow.SchedulerWorkflow.Stamp` | src/carbon_scheduler/workflow.py:260-291 | Stamping labels the result and moves the last placement only for a placed session. |
| `Workflow.SchedulerWorkflow.DataRailsOf` | src/carbon_scheduler/workflow.py:294-308 | The two data rails, on this cycle's clock reading. |
| `Trust.RegretSandwich` | src/carbon_scheduler/trust.py:357-461 | A proposal that passes the regret and feasibility rails on a request built from a valid input is valued between the exact optimum and (1 + tolerance + 1e-12) times it; with a zero optimum its value is zero. |
| `Trust.UpperHalf` | src/carbon_scheduler/trust.py:378-422 | The upper half needs no feasibility rail: whatever passes the regret rail on a request built from a valid input is worth at most (1 + tolerance + 1e-12) times the exact optimum. |
| `Trust.RegretPassesIff` | src/carbon_scheduler/trust.py:378-422 | The regret rail passes exactly when there is a request and a selected reference, some slot values the proposal, and the least such value is at most (1 + tolerance + 1e-12) times the optimum, or not positive when the optimum is not. |
| `Trust.RegretIsReported` | src/carbon_scheduler/trust.py:404-422 | It reports the least value, the optimum and their relative difference, which against an optimum of zero exists only for a value of zero. |
| `Trust.EvidencePassesIff` | src/carbon_scheduler/trust.py:343-354 | The evidence rail passes exactly when every cited id was supplied. |
| `Trust.FeasibleIffCatalogWithinSlo` | src/carbon_scheduler/trust.py:425-461 | On a built request and for a proposal that passes the seven rails, the feasibility rail passes exactly when the catalog latency of its region is within the SLO. |
| `GateLaws.AdmittedAtMostRegret` | src/carbon_scheduler/workflow.py:871-966 | Under either v2 profile a proposal the hard rails pass is worth at most (1 + tolerance + 1e-12) times the optimum. |
| `GateLaws.AdmittedWithinSandwich` | src/carbon_scheduler/workflow.py:871-966 | With the feasibility rail, or for a region whose catalog latency is within the SLO, it is worth at least the optimum as well. |
| `GateLaws.LowerBoundFailsIff` | src/carbon_scheduler/trust.py:425-436 | Without the feasibility rail, on inputs whose data rails pass, the hard rails pass some proposal worth less than the optimum if and only if the built request has an available candidate that is too slow for the SLO and cheaper than the optimum. |
| `Instances.LowerBoundCanFail` | src/carbon_scheduler/trust.py:425-436 | A two-region input on which, under the default v2 gate, a proposal worth half the optimum passes every hard rail. |
| `GateLaws.RailsAdmitIff` | src/carbon_scheduler/workflow.py:889-914 | The hard rails pass exactly when the seven proposal rails, both data rails, evidence, regret and the feasibility rail, if enabled, do. |
| `GateLaws.HardRailsPassIff` | src/carbon_scheduler/workflow.py:889-914 | By field: the hard rails pass exactly for a proposal with an allowed region and service, a start in the window, a positive declared latency within the SLO and an available region, which cites supplied ids only, on data that pass both data rails, whose solver answered, and whose least value is at most (1 + tolerance + 1e-12) times the optimum; and, under v2.1 or when set, with a feasible slot that values it. |
| `GateLaws.V2AdmitsIff` | src/carbon_scheduler/workflow.py:931-966 | The v2 gate passes exactly when the hard rails do, an evaluator is configured and gives two scores, and their weighted mean, cut to [0, 1], reaches the threshold. |
| `GateLaws.AsBuiltAdmitsIff` | src/carbon_scheduler/workflow.py:832-869 | The as-built gate raises exactly for scores outside [0, 1] or a sum over one of a proposal that fits its input, and passes exactly for one that fits and a sum from the threshold to one, the freshness weight counting when no region is cached or replayed with a fallback reason. |
| `GateLaws.V2CauseTells` | src/carbon_scheduler/trust.py:476-513 | Which cause a v2 rejection carries: the rails first, then an evaluator that is missing or raised, then scores that are missing, then weights that carry nothing, then the threshold. |
| `GateLaws.V2ComponentsTell` | src/carbon_scheduler/workflow.py:925-957 | The components on a v2 report: one or zero for the seven proposal rails, for the age rail and for the region's availability, and the evaluator's two scores exactly when every hard rail passed and it answered. |
| `GateLaws.AsBuiltCauseTells` | src/carbon_scheduler/trust.py:154-206 | As built, a missing or raising evaluator is named before missing scores, and those before failed rails. |
| `GateLaws.RegretOnRequest` | src/carbon_scheduler/workflow.py:920-928 | The regret figures of a gate are the proposal's least value, the optimum of the request built from the same input, and their relative difference. |
| `Trust.BuiltRequestIsUniform` | src/carbon_scheduler/workflow.py:1203-1244 | In a built request the slots that value a proposal are feasible or infeasible together, and no intensity is negative: what the lower bound rests on. |
| `Trust.FallbackPassesItsOwnGate` | src/carbon_scheduler/workflow.py:1186-1311 | For every buildable valid input whose service is allowed, the proposal made from the selected schedule passes all seven proposal rails, evidence, feasibility, and regret with regret exactly 0, for any tolerance of at least 0. |
| `GateLaws.FallbackIsAdmissible` | src/carbon_scheduler/workflow.py:968-995 | On inputs whose data rails pass and whose service is allowed, the fallback proposal passes every hard rail of the gate that triggers it. |
| `Trust.ProposalRailsPassIff` | src/carbon_scheduler/trust.py:71-137 | The seven rails pass exactly for an allowed region and service, a start in the window, an available region and a positive declared latency within the SLO. |
| `Trust.ExpectedIntensityIsLeastValue` | src/carbon_scheduler/trust.py:357-375 | The expected intensity is the least among the latest candidates of the region at or before the start, and absent exactly when there is none. |
| `Trust.ModelFeasibleIff` | src/carbon_scheduler/trust.py:425-461 | The rail passes exactly when the start lies in the window and some candidate that values the proposal meets every constraint of the program. |
| `Trust.V2PassesIff` | src/carbon_scheduler/trust.py:464-513 | v2 admits exactly when every rail passed, the evaluator answered with both scores, they carry weight, and the weighted sum of the two reaches the threshold times their weights, for any scores. |
| `Trust.EvaluativeMeanIsMean` | src/carbon_scheduler/trust.py:507-511 | The v2 score lies between its two values and is monotone in each, so its clamp never acts on scores in [0, 1]. |
| `Trust.AsBuiltPassesIff` | src/carbon_scheduler/trust.py:140-206 | As built, a report passes exactly when nothing failed or is missing and the sum of the five components, each times its own weight, is at most one and reaches the threshold. |
| `Trust.AsBuiltFloor` | src/carbon_scheduler/trust.py:192-206 | As built, a report whose rails passed scores at least the rail plus feasibility weights. |
| `Trust.AsBuiltCanRaise` | src/carbon_scheduler/trust.py:192-206 | A full-marks proposal gets no report exactly when the weights sum to more than one, which their validator allows. |
| `Trust.AsBuiltScoreInRange` | src/carbon_scheduler/schemas.py:196-209 | With weights that sum to at most one the as-built score stays in [0, 1]. |
| `DataRails.CheckDataAge` | src/carbon_scheduler/trust.py:219-255 | Passes exactly when every observation is at most 60 seconds ahead of and at most the maximum age behind the snapshot clock and, if given, the scheduler clock. |
| `DataRails.DataAgeOkIff` | src/carbon_scheduler/trust.py:219-255 | The age verdict by field: on each clock every observation is from 60 seconds ahead to the maximum age behind. |
| `DataRails.SnapshotDataAge` | src/carbon_scheduler/trust.py:264-267 | The age of the oldest observation. |
| `DataRails.RecentEnoughIsAboutTheOldest` | src/carbon_scheduler/workflow.py:343-344 | The oldest observation is within the limit exactly when every observation is. |
| `DataRails.RecencyOnlyFades` | src/carbon_scheduler/workflow.py:343-344 | A snapshot recent enough at an instant was recent enough at every earlier one. |
| `DataRails.CheckZoneProvenance` | src/carbon_scheduler/trust.py:280-340 | Passes exactly when every record's zone matches any configured provider zone, every reported zone matches the wanted one, and any two regions differ in requested zone, in reported zone, and in window series of two or more points. |
| `DataRails.ProvenanceOkIff` | src/carbon_scheduler/trust.py:305-340 | The provenance verdict by field: record zone as configured; returned zone the expected one, else the configured one, else the record's own; zones pairwise distinct, requested and returned; and no two regions with the same current value and the same nonempty window forecast. |
| `DataRails.GroupByZone` | src/carbon_scheduler/trust.py:317-329 | The grouping by zone finds a shared zone exactly when two positions carry the same one. |
| `DataRails.SameSeriesPairs` | src/carbon_scheduler/trust.py:331-337 | No problem is reported exactly when no two regions have equal series of two or more points. |
| `DataRails.SwapIsRejected` | src/carbon_scheduler/trust.py:307-316 | If the records of two regions with reported zones and different configured zones pass, their exchange does not. |
| `DataRails.TrimKeepsDataRails` | src/carbon_scheduler/workflow.py:1255-1283 | Trimming never changes the age verdict for any slot, and without a slot grid never the provenance verdict. |
| `DataRails.ProvenanceIff` | src/carbon_scheduler/trust.py:305-340 | The rail passes exactly when the zones are as configured and pairwise distinct and no two regions share the current value and a nonempty window forecast. |
| `DataRails.TrimmedProvenanceIff` | src/carbon_scheduler/workflow.py:1255-1283 | For every slot, the rail passes on the trimmed snapshot exactly when the zones are in order and no two regions share the current value and a nonempty forecast on the grid. |
| `DataRails.TrimKeepsProvenanceIff` | scripts/run_experiment.py:316-323 | For every slot, trimming keeps the provenance verdict exactly when the zones clash already, or some pair coincides in the window if and only if some pair coincides on the grid. |
| `DataRails.GridTrimCanReject` | scripts/run_experiment.py:316-323 | With a slot grid, feeds that differ only off the grid pass untrimmed and are rejected trimmed. |
| `DataRails.GridTrimCanAdmit` | scripts/run_experiment.py:316-323 | With a slot grid, identical feeds whose only point is off the grid are rejected untrimmed and pass trimmed. |
| `Request.BuildSchedulingRequest` | src/carbon_scheduler/workflow.py:1186-1252 | The nested loops build the specified candidate sequence or stop at the specified error. |
| `Request.BuildableIff` | src/carbon_scheduler/workflow.py:1195-1218 | A request can be built exactly when the slot is absent or positive, every candidate region has a name, a positive latency and a carbon record, and the request validators pass: for a valid input, the default region has a name. |
| `Request.BuildErrorIs` | src/carbon_scheduler/workflow.py:1195-1212 | Which exception an unbuildable request raises: for the profile, then the slot, then the first region that offers no candidate, then the request's own fields. |
| `Request.BuiltCandidatesAreExact` | src/carbon_scheduler/workflow.py:1204-1244 | The candidates are exactly the current value of each candidate region at the earliest start and its forecast points in the window and on the grid. |
| `Request.NearBoundaryMeansNearMultiple` | src/carbon_scheduler/workflow.py:1227-1237 | For a positive slot the remainder test means: within one second of some multiple of the slot. |
| `Request.TrimSnapshotToWindow` | src/carbon_scheduler/workflow.py:1255-1283 | The loops keep exactly the usable forecast points of every region, in order. |
| `Request.TrimPreservesRequest` | src/carbon_scheduler/workflow.py:1264-1267 | The request built from a trimmed snapshot is the one built from the untrimmed, errors included, for every window and grid; so solver, regret and feasibility agree. |
| `Request.TrimIsIdempotentAndValid` | src/carbon_scheduler/workflow.py:1270-1283 | Trimming twice is trimming once, and the result still satisfies every snapshot validator, sorted forecasts included. |
| `Request.KeptTwice` | src/carbon_scheduler/workflow.py:1273-1281 | Filtering a filtered forecast changes nothing. |
| `Request.KeptWithin` | src/carbon_scheduler/workflow.py:1273-1281 | Filtering by a weaker test after a stronger one changes nothing, so the window test is idle on trimmed forecasts. |
| `Request.KeptOrdered` | src/carbon_scheduler/schemas.py:94-99 | Filtering keeps a time-ordered forecast time-ordered. |
| `Milp.FilterFeasibleCandidates` | src/carbon_scheduler/milp.py:22-41 | The loop keeps exactly the candidates that meet all constraints, in order, and pairs every other one with a constraint it violates. |
| `Milp.SolveIsExact` | src/carbon_scheduler/milp.py:96-129 | Infeasible exactly when no candidate is feasible. Otherwise a candidate is selected exactly when the solver is enumeration or CBC reports an optimum over the feasible candidates, and nothing exactly when it does not; the selection is a feasible candidate with none before it, with the matching action type; the backend on record is the one used. |
| `Milp.OptimalIsLexicographicLeast` | src/carbon_scheduler/milp.py:44-49 | The choice is least in intensity, then earliest, then first by region name. |
| `Milp.SelectionIgnoresOrder` | src/carbon_scheduler/milp.py:112-114 | Reordering or repeating candidates never changes region, time, action or intensity; the latency agrees too when the optimal candidates share one. |
| `Milp.OrderCanChangeLatency` | src/carbon_scheduler/milp.py:112-114 | If two optimal candidates have different latencies, two rearrangements of the same candidates report different latencies. |
| `Instances.LatencyDependsOnOrder` | src/carbon_scheduler/milp.py:112-114 | Two candidates that differ in latency alone, whose order decides what is reported. |
| `Milp.OrderIsIrrelevantIff` | src/carbon_scheduler/milp.py:112-114 | The result is the same for every order of the candidates if and only if the optimal ones share their latency. |
| `ScheduleLaws.BuiltSelectionIgnoresOrder` | src/carbon_scheduler/workflow.py:1203-1252 | On requests the controller builds, any reordering or repetition of the candidates gives the identical result, latency included. |
| `Milp.ObjectiveIsProgramOptimum` | src/carbon_scheduler/milp.py:77-93 | The selected objective is the optimum of the binary single-choice program and of its linear relaxation. |
| `Milp.WeightedAtLeastMin` | src/carbon_scheduler/milp.py:87-91 | No nonnegative choice vector has an objective below the least intensity times its sum. |
| `Session.KubernetesBenchmarkExecutor.EnsureJob` | src/carbon_scheduler/executor.py:352-383 | Whatever requests or replies are lost, a normal return means the Job exists, it is created at most once, and not at all if it existed; it gives up only on a refusal or after three requests without an answer. |
| `Session.KubernetesBenchmarkExecutor.TryOnce` | src/carbon_scheduler/executor.py:364-382 | One attempt reads and creates at most once; it fails only if its last request got no proper answer. |
| `Session.KubernetesBenchmarkExecutor.WaitForJob` | src/carbon_scheduler/executor.py:385-399 | Ends after at most timeout over interval plus two polls despite unlimited transport errors; returns normally exactly when its last request showed the Job succeeded, and otherwise after a refusal, whose text it passes on, a Job that has failed or is missing, or the timeout. |
| `Session.KubernetesBenchmarkExecutor.WaitForFrontend` | src/carbon_scheduler/executor.py:327-350 | The same bound; a normal return exactly when the last request showed a ready endpoint, otherwise a refusal or the timeout, never without a text. |
| `Session.KubernetesBenchmarkExecutor.WaitUntilScheduled` | src/carbon_scheduler/executor.py:308-325 | Ends exactly at the scheduled instant or at once if it is past, after a number of naps bounded by the wait. |
| `Session.KubernetesBenchmarkExecutor.Execute` | src/carbon_scheduler/executor.py:137-283 | Under any transport behaviour the events of a session are an initial part of ready, reset created, reset succeeded, ready, benchmark created, benchmark succeeded; existing Jobs and artifacts are untouched. A receipt without a failure reason means the complete sequence, not before the scheduled instant, with valid figures from the pod logs read by exactly the requests after the benchmark Job was seen succeeded; a failure reason means no client or template, a complete session whose own delivered logs give no receipt, a request without a proper answer, a Job that failed, or the timeout. What ended the session is recorded as its cause, and the failure reason is the text of that cause. |
| `Session.KubernetesBenchmarkExecutor.ReasonIsEmptyIff` | src/carbon_scheduler/executor.py:271-283 | The failure reason is the empty text exactly when the exception that ended the session, passed on from a request, the client, a template or the figures of its log, has an empty text; the executor's own words never are. When none of those texts is empty, the reason never is. |
| `Session.KubernetesBenchmarkExecutor.RunSession` | src/carbon_scheduler/executor.py:153-254 | The same for the body of a session; a script failure is read from the logs of this session's delivered listing. |
| `Session.KubernetesBenchmarkExecutor.RunBothJobs` | src/carbon_scheduler/executor.py:156-247 | Reset and then benchmark with their logs, failing only when a template, the transport, a Job or the timeout gives cause. |
| `Session.KubernetesBenchmarkExecutor.RunJob` | src/carbon_scheduler/executor.py:156-181 | Frontend seen ready, Job ensured, Job seen succeeded, in this order and up to the first failure, which has a cause. |
| `Session.KubernetesBenchmarkExecutor.JobLogs` | src/carbon_scheduler/executor.py:401-424 | The requests it makes are the listing with its retries, delivered, and then one read with retries per named pod, in order; the text joins one fragment per pod, which is the log that pod's own read delivered, or, exactly when that read was refused or unanswered three times, a note with the pod and the last transport message. It fails exactly with the listing, with its last message; no Job changes. |
| `Session.KubernetesBenchmarkExecutor.ReadFragment` | src/carbon_scheduler/executor.py:414-423 | A pod's fragment is the log whenever one of the at most three requests of its read is delivered, and otherwise the note with the last request's message. |
| `Session.KubernetesBenchmarkExecutor.ReadPodLogWithRetries` | src/carbon_scheduler/executor.py:426-435 | A read repeats only after a request without an answer, at most twice, and gives the log or the message of its last request. |
| `Session.KubernetesBenchmarkExecutor.JoinAppends` | src/carbon_scheduler/executor.py:424 | Fragments are joined in order with one line break between them. |
| `Session.KubernetesBenchmarkExecutor.NamedAppends` | src/carbon_scheduler/executor.py:410-413 | Pods without a name are skipped and the others keep their order. |
| `Session.KubernetesBenchmarkExecutor.ListPodsWithRetries` | src/carbon_scheduler/executor.py:426-435 | A listing repeats only after a request without an answer, at most twice, and gives the pods or the message of its last request. |
| `Session.KubernetesBenchmarkExecutor.SaveLog` | src/carbon_scheduler/executor.py:437-463 | An existing artifact is never replaced; its path is reported either way. |
| `Session.KubernetesBenchmarkExecutor.ArtifactNameIdentifies` | src/carbon_scheduler/executor.py:453-454 | Artifacts of one kind share a name exactly when the stems derived from their cycles agree. |
| `Session.KubernetesBenchmarkExecutor.CaptureJobLogs` | src/carbon_scheduler/executor.py:465-482 | Best-effort capture never raises, always reports the artifact, and stores under its name, unless one is there, the Job's logs or a note with the message of the listing's last request. |
| `Session.KubernetesBenchmarkExecutor.JobNamesDiffer` | src/carbon_scheduler/executor.py:484-494 | The reset and the benchmark Job of a cycle never share a name. |
| `Session.KubernetesBenchmarkExecutor.JobNameIdentifies` | src/carbon_scheduler/executor.py:484-494 | Jobs of one kind share a name exactly when the identity components derived from their cycles agree. |
| `Session.BenchmarkOnlyAfterReset` | src/carbon_scheduler/executor.py:179-226 | In every initial part of a session the benchmark Job is created only after the reset Job was seen succeeded and then the frontend was seen ready. |
| `SessionLaws.ExecutedIffReasonEmpty` | src/carbon_scheduler/workflow.py:1118-1133 | On either backend, a cycle that ran a session is recorded as executed exactly when the session's failure reason is absent or empty, and then the placement moves to the action's region. |
| `SessionLaws.ExecutedIffCompleteOrSilent` | src/carbon_scheduler/workflow.py:1118-1133 | The exact condition: on either backend a cycle that ran a session is recorded as executed if and only if the session completed or the exception that ended it has an empty text. |
| `SessionLaws.OutspokenSession` | src/carbon_scheduler/executor.py:137-283 | When no such text is empty, a record as executed means, whatever cycle the session answers, that it is complete and its figures are measured from its own logs. |
| `SessionLaws.UnfinishedSessionLooksExecuted` | src/carbon_scheduler/executor.py:196-283 | There is a server behaviour, the listing of the reset pods lost three times without a text, for which the executor returns an empty failure reason although the benchmark Job was never created. |
| `CarbonCache.LoadIsLastPublished` | src/carbon_scheduler/carbon_client.py:120-182 | In every reachable state, with any number of concurrent, crashed or abandoned saves, loading gives the verdict on the last completed save of the directory, never a torn or mixed one. |
| `CarbonCache.PublishedIsInPlace` | src/carbon_scheduler/carbon_client.py:95-111 | In every reachable state `latest.json` in a directory with a completed save leads to that save's file with its content hash, and the file holds its data with the same hash. |
| `CarbonCache.OnlyPublishingChangesLoads` | src/carbon_scheduler/carbon_client.py:102-111 | A step changes what a region loads only if it is the pointer rename of a save in its directory, and then to that save: a crash anywhere leaves the previous or the new snapshot. |
| `CarbonCache.LoadedIsSavedAndFresh` | src/carbon_scheduler/carbon_client.py:145-182 | What a load returns was saved live, belongs to the requested region even when directories collide, is between 0 and the maximum age old, and is relabelled as cached. |
| `CarbonCache.LoadSucceedsIff` | src/carbon_scheduler/carbon_client.py:128-174 | Over arbitrary files: a load succeeds exactly when `latest.json` leads to a plain file that is a record with its own content hash, the hash in `latest.json` is absent or the same, and the record is of the requested region and between zero and the maximum age old; an altered record, or one under another hash in `latest.json`, never loads. |
| `CarbonCache.LoadErrorIs` | src/carbon_scheduler/carbon_client.py:145-174 | Which guard refuses a readable record: its hash, the pointer's, its region, an instant in the future, its age, in this order. |
| `CarbonCache.SaveThenLoad` | src/carbon_scheduler/carbon_client.py:83-182 | A completed save loads back within the age limit as long as no other save completes in its directory, whatever else happens. |
| `CarbonCache.LoadNeedNotBeAtomic` | src/carbon_scheduler/carbon_client.py:130-140 | A load whose pointer and snapshot reads are separated by any moves of any savers gives the verdict of its first read. |
| `CarbonCache.MoveKeepsInv` | src/carbon_scheduler/carbon_client.py:184-192 | Beginning, advancing, crashing and abandoning a save keep the invariant that pointers in place always have their complete snapshots. |
| `CarbonCache.AbortCleansUp` | src/carbon_scheduler/carbon_client.py:184-192 | An abandoned save leaves neither of its temporary files and every other file as it was. |
| `CarbonCache.ReachableInv` | src/carbon_scheduler/carbon_client.py:83-118 | Every state reached from the empty cache meets the invariant. |
| `CarbonCache.ImmutableForever` | src/carbon_scheduler/carbon_client.py:76-77 | A placed snapshot file never changes again. |
| `CarbonCache.CarbonCache.SaveLive` | src/carbon_scheduler/carbon_client.py:83-118 | Stopped after any number of steps, a save has made exactly those steps; data that is not live or has no usable directory changes nothing. |
| `CarbonCache.CarbonCache.AtomicWrite` | src/carbon_scheduler/carbon_client.py:184-192 | A write is torn, complete, renamed, in this order, up to the crash. |
| `CarbonCache.CarbonCache.LoadLatest` | src/carbon_scheduler/carbon_client.py:120-182 | The guard chain returns the specified verdict. |
| `CarbonCache.SaveLiveIsAdvancing` | src/carbon_scheduler/carbon_client.py:83-111 | A save of the object is a run of the concurrent state machine. |
| `ContextStore.InMemoryContextStore.Upsert` | src/carbon_scheduler/retrieval.py:158-162 | Stores the records before the first one with an invalid hash, later ones replacing earlier ones of the same id. |
| `ContextStore.StoredIsLatest` | src/carbon_scheduler/retrieval.py:158-162 | Under an id of the batch the store has the batch's last record of that id. |
| `ContextStore.InMemoryContextStore.Search` | src/carbon_scheduler/retrieval.py:164-185 | Returns matching records only, best first, with every matching record left out ranked after all of them. |
| `ContextStore.FoundByField` | src/carbon_scheduler/retrieval.py:170-185 | By field: a result is of the run, region or no region, and source types asked for and no later than the reference instant, any other such record is left out only at the limit, and results come by falling token overlap, then falling event time, then rising id. |
| `ContextStore.TopSize` | src/carbon_scheduler/retrieval.py:184-185 | Exactly min(limit, matches) records are returned. |
| `ContextStore.TopIsUnique` | src/carbon_scheduler/retrieval.py:181-185 | The result is determined by the stored records and the query. |
| `ContextStore.InsertionOrderIsIrrelevant` | src/carbon_scheduler/retrieval.py:158-162 | Records with distinct ids give the same store in any order. |
| `ContextStore.NoLookAhead` | src/carbon_scheduler/retrieval.py:170-172 | Every result is visible at the reference instant, and later events under fresh ids do not change the result. |
| `ContextStore.UpsertNoLookAhead` | src/carbon_scheduler/retrieval.py:158-172 | Upserting any batch of events after the reference instant under fresh ids leaves the result of a search as it was. |
| `ContextStore.FoundIffRanked` | src/carbon_scheduler/retrieval.py:184-185 | A matching record is returned exactly when fewer than limit records rank before it. |
| `ContextStore.ContextRetriever.LatestPerSource` | src/carbon_scheduler/retrieval.py:330-362 | One pick per source type that has a visible record, in order, each the newest of what its search returned. |
| `ContextStore.PickIsOfItsType` | src/carbon_scheduler/retrieval.py:349-361 | A pick is a visible record of its source type and run, and is absent exactly when there is none. |
| `ContextStore.SomesInOrder` | src/carbon_scheduler/retrieval.py:348-362 | The picks come in the order of their source types. |
| `ContextStore.ContextRetriever.NewestOf` | src/carbon_scheduler/retrieval.py:360-361 | The pick is newest by event time and then record id, and absent exactly when nothing was found. |
| `ContextStore.PickIsNewestIff` | src/carbon_scheduler/retrieval.py:338-361 | The pick is a newest visible record exactly when fewer than the search depth of visible records score strictly higher than the best newest one. |
| `Instances.PickCanBeOld` | src/carbon_scheduler/retrieval.py:338-361 | Two visible records and a depth of one at which the older one is picked. |
| `ContextStore.PickIsNewest` | src/carbon_scheduler/retrieval.py:330-361 | So it is whenever at most the search depth are visible or all score equally. |
| `ManifestGraph.CallOrderIsIrrelevant` | src/carbon_scheduler/graph_ingest.py:134-173 | The same calls in any order and with any repetitions give the same document and the same digest. |
| `ManifestGraph.BuildGathers` | src/carbon_scheduler/graph_ingest.py:72-110 | A built graph holds exactly the nodes, node attributes and edges its calls stated, by field: an edge is there exactly when some call named its normalised source as source, its normalised target as target, and its relationship, path and evidence, with both ends nonempty and different. |
| `ManifestGraph.BuiltGraphsAreClean` | src/carbon_scheduler/graph_ingest.py:98-110 | No built graph has a self edge, a duplicate edge or a blank name. |
| `ManifestGraph.RoundTrip` | src/carbon_scheduler/graph_ingest.py:134-165 | Reading a document back gives the same nodes, the same edges up to order, and the same document and digest. |
| `ManifestGraph.SameDocumentIff` | src/carbon_scheduler/graph_ingest.py:134-173 | Two graphs have the same document exactly when they have the same nodes and the same edges up to order; with a hash that never collides, the same digest. |
| `ManifestGraph.ManifestDependencyGraph.AddNode` | src/carbon_scheduler/graph_ingest.py:72-87 | Adds the lower-cased kind, the namespace if nonempty and the path to the node of the normalised name, created if absent; a blank name changes nothing, and no other node does. |
| `ManifestGraph.ManifestDependencyGraph.AddEdge` | src/carbon_scheduler/graph_ingest.py:89-110 | Appends the edge from the normalised source to the normalised target, with its relationship, path and evidence, unless an end is blank, the ends coincide, or it is there; nothing else changes. |
| `ManifestGraph.ManifestDependencyGraph.DependenciesFor` | src/carbon_scheduler/graph_ingest.py:112-116 | The edges that leave the service, in insertion order. |
| `ManifestGraph.DependenciesAreStated` | src/carbon_scheduler/graph_ingest.py:89-116 | After any calls, the dependencies of a service are exactly the edges from it to another service that some call stated in that direction, each once, none reversed. |
| `ManifestGraph.LeavingInOrder` | src/carbon_scheduler/graph_ingest.py:112-116 | Dependencies come in insertion order. |
| `ManifestGraph.DocumentIsSorted` | src/carbon_scheduler/graph_ingest.py:134-146 | The document lists its nodes by name, each with its kinds, namespaces and paths in order, and its edges by source, target, relationship, path and evidence. |
| `ManifestGraph.EdgeLessIff` | src/carbon_scheduler/graph_ingest.py:139-145 | Edges compare by source, then target, then relationship, then path, then evidence. |
| `ManifestGraph.ManifestDependencyGraph.Restore` | src/carbon_scheduler/graph_ingest.py:148-165 | Filling an empty graph from a document gives the specified graph. |

## Left out

- Floating point and time zones: intensities, scores, latencies and tolerances are reals, instants are integer microseconds; rounding, NaN and offsets are not modelled.
- Reason, rationale and message texts of reports and actions, and the recorded age fields of a report; rejection causes are an enumeration. Failure reasons of receipts are kept, because outcomes depend on them.
- Telemetry, `data_integrity` reason texts, timestamps and cluster names on receipts.
- Electricity Maps, Ollama, RAGAS, CBC, Qdrant, Neo4j and LangGraph internals: oracles with the results the code handles. LangGraph is taken to run its nodes in sequence and merge their updates; a missing package is not modelled.
- Runs that start from restored records: `RunSafety` is about fresh workflows; the statements about one cycle hold from any healthy state.
- SHA-256, UUIDs, JSON encoding and name normalisation: arbitrary functions; the cache assumes fresh temporary and snapshot names, as UUIDs give.
- Cache records that parse but do not decode as region data, and pointers that parse to something else than an object: they count as unreadable.
- Reading a Qdrant store, `retrieve`, `add_event`, `from_payload`: foreign queries and plumbing.
- Parsing of wrk2 logs and the Job-name slug: arbitrary functions of the log and the cycle id; a parser may raise. Receipt validators other than the two figures' ranges.
- The Kubernetes server deletes no Jobs, gives 404 and 409 only when they are true, and a Job that has succeeded stays so; one that has shown a failure may still succeed. Wall and monotonic clock are one clock that never runs backwards, and a sleep lasts what was asked for.
- File-system errors while writing artifacts, and the path form in which an artifact is reported.
- `ingest_manifests` and the extraction of names from manifests, `context_for`, saving and loading a graph file: string matching and plumbing.
- `results.py`, `settings.py`, `bootstrap.py`, the web interface, infrastructure, deployment and argument parsing: would only add easy members.
