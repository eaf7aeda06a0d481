/** Deterministic carbon-aware scheduling: the feasibility filter, the exact
    minimum, and the binary single-choice program it is the optimum of. */
module Milp {
  import opened Wrappers
  import opened Order
  import opened Schemas

  // ---- feasibility filter

  datatype Exclusion =
    | BeforeEarliestStart | AfterDeadline | RegionUnavailable | ResetUnavailable | ExceedsP95Slo

  /** The scheduling constraints a candidate must meet. */
  predicate IsFeasible(c: ScheduleCandidate, request: SchedulingRequest) {
    && request.earliestStart <= c.scheduledTime <= request.deadline
    && c.regionAvailable
    && c.resetReady
    && c.expectedP95LatencyMs <= request.p95SloLimitMs
  }

  /** The constraint named by an exclusion, violated by `c`. */
  predicate Violates(c: ScheduleCandidate, why: Exclusion, request: SchedulingRequest) {
    match why
    case BeforeEarliestStart => c.scheduledTime < request.earliestStart
    case AfterDeadline => c.scheduledTime > request.deadline
    case RegionUnavailable => !c.regionAvailable
    case ResetUnavailable => !c.resetReady
    case ExceedsP95Slo => c.expectedP95LatencyMs > request.p95SloLimitMs
  }

  /** The feasible candidates, in their original order. */
  function Feasible(candidates: seq<ScheduleCandidate>, request: SchedulingRequest): (kept: seq<ScheduleCandidate>)
    ensures forall c :: c in kept <==> c in candidates && IsFeasible(c, request)
  {
    if candidates == [] then []
    else
      var front, last := candidates[..|candidates| - 1], candidates[|candidates| - 1];
      assert forall c :: c in candidates <==> c in front || c == last;
      Feasible(front, request) + if IsFeasible(last, request) then [last] else []
  }

  method FilterFeasibleCandidates(request: SchedulingRequest)
    returns (feasible: seq<ScheduleCandidate>, excluded: seq<(ScheduleCandidate, Exclusion)>)
    ensures feasible == Feasible(request.candidates, request)
    ensures |feasible| + |excluded| == |request.candidates|
    ensures forall x :: x in excluded ==> x.0 in request.candidates && Violates(x.0, x.1, request)
  {
    feasible, excluded := [], [];
    for i := 0 to |request.candidates|
      invariant feasible == Feasible(request.candidates[..i], request)
      invariant |feasible| + |excluded| == i
      invariant forall x :: x in excluded ==> x.0 in request.candidates && Violates(x.0, x.1, request)
    {
      var c := request.candidates[i];
      assert request.candidates[..i + 1][..i] == request.candidates[..i];
      if c.scheduledTime < request.earliestStart {
        excluded := excluded + [(c, BeforeEarliestStart)];
      } else if c.scheduledTime > request.deadline {
        excluded := excluded + [(c, AfterDeadline)];
      } else if !c.regionAvailable {
        excluded := excluded + [(c, RegionUnavailable)];
      } else if !c.resetReady {
        excluded := excluded + [(c, ResetUnavailable)];
      } else if c.expectedP95LatencyMs > request.p95SloLimitMs {
        excluded := excluded + [(c, ExceedsP95Slo)];
      } else {
        feasible := feasible + [c];
      }
    }
    assert request.candidates[..|request.candidates|] == request.candidates;
  }

  // ---- selection

  /** The order of `_candidate_sort_key`: intensity, then time, then region. */
  predicate KeyLess(c: ScheduleCandidate, d: ScheduleCandidate) {
    || c.intensity < d.intensity
    || (c.intensity == d.intensity
        && (|| c.scheduledTime < d.scheduledTime
            || (c.scheduledTime == d.scheduledTime && StringLess(c.targetRegion, d.targetRegion))))
  }

  predicate SameKey(c: ScheduleCandidate, d: ScheduleCandidate) {
    c.intensity == d.intensity && c.scheduledTime == d.scheduledTime && c.targetRegion == d.targetRegion
  }

  lemma KeyLessIsStrictWeakOrder()
    ensures forall c :: !KeyLess(c, c)
    ensures forall c, d, e :: KeyLess(c, d) && KeyLess(d, e) ==> KeyLess(c, e)
    ensures forall c, d :: KeyLess(c, d) || KeyLess(d, c) || SameKey(c, d)
    ensures forall c, d, e :: KeyLess(c, d) && !KeyLess(e, d) ==> KeyLess(c, e)
  {
    StringLessIsStrictTotal();
  }

  /** Python's `min(candidates, key=...)`: the first of the least. */
  function FirstMin(candidates: seq<ScheduleCandidate>): (least: ScheduleCandidate)
    requires candidates != []
    ensures least in candidates
  {
    if |candidates| == 1 then candidates[0]
    else
      var least := FirstMin(candidates[..|candidates| - 1]);
      var last := candidates[|candidates| - 1];
      if KeyLess(last, least) then last else least
  }

  lemma {:induction false} FirstMinIsMinimal(candidates: seq<ScheduleCandidate>)
    requires candidates != []
    ensures forall c :: c in candidates ==> !KeyLess(c, FirstMin(candidates))
  {
    KeyLessIsStrictWeakOrder();
    if |candidates| > 1 {
      var front, last := candidates[..|candidates| - 1], candidates[|candidates| - 1];
      FirstMinIsMinimal(front);
      assert candidates == front + [last];
    }
  }

  function ActionTypeOf(c: ScheduleCandidate, request: SchedulingRequest): ActionType {
    if c.scheduledTime > request.earliestStart then DelayUntil
    else if c.targetRegion == request.defaultRegion then RunNow
    else RunInRegion
  }

  function SelectedResult(c: ScheduleCandidate, request: SchedulingRequest, backend: Backend): ScheduleResult {
    Selected(ActionTypeOf(c, request), c.targetRegion, c.scheduledTime, c.expectedP95LatencyMs,
             c.intensity, c.intensity, backend)
  }

  /** CBC's answer to the binary program: optimal, some other status, or an exception. */
  datatype CbcReply = Optimal | NotOptimal | Raised

  /** PuLP is either absent or an oracle over the feasible candidates it is given. */
  datatype Solver = Enumeration | Pulp(cbc: seq<ScheduleCandidate> -> CbcReply) {
    function BackendName(): Backend {
      if Enumeration? then EnumerationBackend else PulpBackend
    }
  }

  function SolveSchedule(request: SchedulingRequest, solver: Solver): ScheduleResult {
    var feasible := Feasible(request.candidates, request);
    if feasible == [] then Infeasible(solver.BackendName())
    else
      var selected := FirstMin(feasible);
      match solver
      case Enumeration => SelectedResult(selected, request, EnumerationBackend)
      case Pulp(cbc) =>
        if cbc(feasible).Optimal? then SelectedResult(selected, request, PulpBackend)
        else SolverUnavailable(PulpBackend)
  }

  // ---- exact optimum

  /** `c` is feasible and no feasible candidate comes before it. */
  ghost predicate IsOptimal(c: ScheduleCandidate, request: SchedulingRequest) {
    && c in request.candidates
    && IsFeasible(c, request)
    && (forall d :: d in request.candidates && IsFeasible(d, request) ==> !KeyLess(d, c))
  }

  /** `r` selects exactly the placement `c` describes. */
  predicate Selects(r: ScheduleResult, c: ScheduleCandidate, request: SchedulingRequest) {
    && r.Selected?
    && r.targetRegion == c.targetRegion
    && r.scheduledTime == c.scheduledTime
    && r.expectedP95LatencyMs == c.expectedP95LatencyMs
    && r.intensity == c.intensity == r.objectiveValue
    && (r.actionType == DelayUntil <==> c.scheduledTime > request.earliestStart)
    && (r.actionType == RunNow <==> c.scheduledTime <= request.earliestStart && c.targetRegion == request.defaultRegion)
  }

  /** Some candidate meets every constraint. */
  ghost predicate SomeFeasible(request: SchedulingRequest) {
    exists c :: c in request.candidates && IsFeasible(c, request)
  }

  /** The solver finds the optimum of the program over the feasible candidates:
      enumeration always, CBC exactly when it reports an optimum. */
  predicate Answers(solver: Solver, request: SchedulingRequest) {
    solver.Enumeration? || solver.cbc(Feasible(request.candidates, request)) == Optimal
  }

  /** Infeasible exactly without a feasible candidate; otherwise an optimal one is
      selected if the solver answers, and nothing if it does not. */
  lemma SolveIsExact(request: SchedulingRequest, solver: Solver)
    ensures var r := SolveSchedule(request, solver);
            && (r.Infeasible? <==> forall c :: c in request.candidates ==> !IsFeasible(c, request))
            && (r.Selected? <==> SomeFeasible(request) && Answers(solver, request))
            && (r.SolverUnavailable? <==> SomeFeasible(request) && !Answers(solver, request))
            && (r.Selected? ==> exists c :: IsOptimal(c, request) && Selects(r, c, request))
            && r.backend == if solver.Enumeration? then EnumerationBackend else PulpBackend
  {
    var feasible := Feasible(request.candidates, request);
    if feasible != [] {
      FirstMinIsMinimal(feasible);
      assert IsFeasible(feasible[0], request) by { assert feasible[0] in feasible; }
      assert IsOptimal(FirstMin(feasible), request);
      if SolveSchedule(request, solver).Selected? {
        assert Selects(SolveSchedule(request, solver), FirstMin(feasible), request);
      }
    } else {
      assert forall c :: c in request.candidates ==> !IsFeasible(c, request);
    }
  }

  /** The optimum is least in intensity, then earliest, then first by region name. */
  lemma OptimalIsLexicographicLeast(c: ScheduleCandidate, request: SchedulingRequest, d: ScheduleCandidate)
    requires IsOptimal(c, request)
    requires d in request.candidates && IsFeasible(d, request)
    ensures c.intensity <= d.intensity
    ensures c.intensity == d.intensity ==> c.scheduledTime <= d.scheduledTime
    ensures c.intensity == d.intensity && c.scheduledTime == d.scheduledTime ==>
              c.targetRegion == d.targetRegion || StringLess(c.targetRegion, d.targetRegion)
  {
    StringLessIsStrictTotal();
    assert !KeyLess(d, c);
  }

  /** Reordering the candidates never changes what is chosen: region, time,
      action and intensity agree. The reported latency agrees as well exactly
      when the optimal candidates all carry the same one. */
  lemma SelectionIgnoresOrder(request: SchedulingRequest, candidates: seq<ScheduleCandidate>)
    requires forall c :: c in request.candidates <==> c in candidates
    ensures var r := SolveSchedule(request, Enumeration);
            var r' := SolveSchedule(request.(candidates := candidates), Enumeration);
            && (r.Selected? <==> r'.Selected?)
            && (r.Selected? ==>
                  && r'.(expectedP95LatencyMs := r.expectedP95LatencyMs) == r
                  && ((forall c, d :: IsOptimal(c, request) && IsOptimal(d, request)
                         ==> c.expectedP95LatencyMs == d.expectedP95LatencyMs) ==> r' == r))
  {
    var request' := request.(candidates := candidates);
    SolveIsExact(request, Enumeration);
    SolveIsExact(request', Enumeration);
    KeyLessIsStrictWeakOrder();
    forall c ensures IsOptimal(c, request) <==> IsOptimal(c, request') {
      assert forall d :: IsFeasible(d, request) == IsFeasible(d, request');
    }
    var r, r' := SolveSchedule(request, Enumeration), SolveSchedule(request', Enumeration);
    if r.Selected? {
      var c :| IsOptimal(c, request) && Selects(r, c, request);
      var d :| IsOptimal(d, request') && Selects(r', d, request');
      assert SameKey(c, d);
    }
  }

  /** The candidate at `i` moved to the front: a rearrangement. */
  function MovedToFront(cs: seq<ScheduleCandidate>, i: nat): (moved: seq<ScheduleCandidate>)
    requires i < |cs|
    ensures multiset(moved) == multiset(cs)
  {
    assert cs == cs[..i] + [cs[i]] + cs[i + 1..];
    [cs[i]] + (cs[..i] + cs[i + 1..])
  }

  /** Optimal candidates agree on everything that is compared; this says that
      they agree on the latency as well. */
  ghost predicate OptimaShareLatency(request: SchedulingRequest) {
    forall c, d :: IsOptimal(c, request) && IsOptimal(d, request) ==> c.expectedP95LatencyMs == d.expectedP95LatencyMs
  }

  /** Every rearrangement of the candidates gives the same result. */
  ghost predicate OrderIsIrrelevant(request: SchedulingRequest) {
    forall cs | multiset(cs) == multiset(request.candidates) ::
      SolveSchedule(request.(candidates := cs), Enumeration) == SolveSchedule(request, Enumeration)
  }

  /** Two optimal candidates with different latencies: moving the one or the other
      to the front reports a different latency. */
  lemma OrderCanChangeLatency(request: SchedulingRequest, i: nat, j: nat)
    requires i < |request.candidates| && j < |request.candidates|
    requires IsOptimal(request.candidates[i], request) && IsOptimal(request.candidates[j], request)
    requires request.candidates[i].expectedP95LatencyMs != request.candidates[j].expectedP95LatencyMs
    ensures SolveSchedule(request.(candidates := MovedToFront(request.candidates, i)), Enumeration)
            != SolveSchedule(request.(candidates := MovedToFront(request.candidates, j)), Enumeration)
  {
    FrontOptimumWins(request, i);
    FrontOptimumWins(request, j);
  }

  /** The exact condition: the result is the same for every order of the
      candidates if and only if the optimal ones share their latency. */
  lemma OrderIsIrrelevantIff(request: SchedulingRequest)
    ensures OrderIsIrrelevant(request) <==> OptimaShareLatency(request)
  {
    if OptimaShareLatency(request) {
      forall cs | multiset(cs) == multiset(request.candidates)
        ensures SolveSchedule(request.(candidates := cs), Enumeration) == SolveSchedule(request, Enumeration)
      {
        assert forall c :: c in cs <==> c in multiset(cs);
        assert forall c :: c in request.candidates <==> c in multiset(request.candidates);
        SelectionIgnoresOrder(request, cs);
        BothOrNeither(request, cs);
      }
    } else {
      var c, d :| IsOptimal(c, request) && IsOptimal(d, request) && c.expectedP95LatencyMs != d.expectedP95LatencyMs;
      var i :| 0 <= i < |request.candidates| && request.candidates[i] == c;
      var j :| 0 <= j < |request.candidates| && request.candidates[j] == d;
      OrderCanChangeLatency(request, i, j);
    }
  }

  lemma BothOrNeither(request: SchedulingRequest, candidates: seq<ScheduleCandidate>)
    requires forall c :: c in request.candidates <==> c in candidates
    ensures var r := SolveSchedule(request, Enumeration);
            var r' := SolveSchedule(request.(candidates := candidates), Enumeration);
            !r.Selected? && !r'.Selected? ==> r' == r
  {
  }

  lemma FrontOptimumWins(request: SchedulingRequest, i: nat)
    requires i < |request.candidates| && IsOptimal(request.candidates[i], request)
    ensures SolveSchedule(request.(candidates := MovedToFront(request.candidates, i)), Enumeration)
            == SelectedResult(request.candidates[i], request, EnumerationBackend)
  {
    var cs := request.candidates;
    FirstOptimalWins(request, cs[i], cs[..i] + cs[i + 1..]);
  }

  lemma FirstOptimalWins(request: SchedulingRequest, c: ScheduleCandidate, rest: seq<ScheduleCandidate>)
    requires IsFeasible(c, request)
    requires forall d :: d in rest && IsFeasible(d, request) ==> !KeyLess(d, c)
    ensures SolveSchedule(request.(candidates := [c] + rest), Enumeration)
            == SelectedResult(c, request, EnumerationBackend)
  {
    var request' := request.(candidates := [c] + rest);
    FeasibleCons(c, rest, request);
    FeasibleSameWindow(request'.candidates, request, request');
    FirstMinHead(c, Feasible(rest, request));
  }

  lemma {:induction false} FeasibleSameWindow(cs: seq<ScheduleCandidate>, request: SchedulingRequest,
                                              request': SchedulingRequest)
    requires request' == request.(candidates := request'.candidates)
    ensures Feasible(cs, request) == Feasible(cs, request')
  {
    if cs != [] {
      FeasibleSameWindow(cs[..|cs| - 1], request, request');
    }
  }

  lemma {:induction false} FeasibleCons(c: ScheduleCandidate, cs: seq<ScheduleCandidate>, request: SchedulingRequest)
    requires IsFeasible(c, request)
    ensures Feasible([c] + cs, request) == [c] + Feasible(cs, request)
  {
    if cs == [] {
      assert [c] + cs == [c];
      assert [c][..0] == [];
    } else {
      var front := cs[..|cs| - 1];
      assert ([c] + cs)[..|cs|] == [c] + front;
      FeasibleCons(c, front, request);
    }
  }

  lemma {:induction false} FirstMinHead(c: ScheduleCandidate, cs: seq<ScheduleCandidate>)
    requires forall d :: d in cs ==> !KeyLess(d, c)
    ensures FirstMin([c] + cs) == c
  {
    if cs != [] {
      assert ([c] + cs)[..|cs|] == [c] + cs[..|cs| - 1];
      FirstMinHead(c, cs[..|cs| - 1]);
    } else {
      assert [c] + cs == [c];
    }
  }

  // ---- the binary single-choice program and its linear relaxation

  function Sum(x: seq<real>): real {
    if x == [] then 0.0 else Sum(x[..|x| - 1]) + x[|x| - 1]
  }

  function Objective(cs: seq<ScheduleCandidate>, x: seq<real>): real
    requires |cs| == |x|
  {
    if x == [] then 0.0
    else Objective(cs[..|x| - 1], x[..|x| - 1]) + cs[|x| - 1].intensity * x[|x| - 1]
  }

  /** The relaxed feasible set: nonnegative choices summing to one. */
  predicate Relaxed(x: seq<real>, n: nat) {
    && |x| == n
    && (forall i :: 0 <= i < n ==> 0.0 <= x[i])
    && Sum(x) == 1.0
  }

  /** The program's own feasible set: binary choices summing to one. */
  predicate Binary(x: seq<real>, n: nat) {
    && Relaxed(x, n)
    && (forall i :: 0 <= i < n ==> x[i] == 0.0 || x[i] == 1.0)
  }

  predicate Attains(x: seq<real>, cs: seq<ScheduleCandidate>, value: real) {
    |x| == |cs| && Objective(cs, x) == value
  }

  lemma {:induction false} WeightedAtLeastMin(cs: seq<ScheduleCandidate>, x: seq<real>, m: real)
    requires |cs| == |x|
    requires forall i :: 0 <= i < |x| ==> 0.0 <= x[i] && m <= cs[i].intensity
    ensures Objective(cs, x) >= m * Sum(x)
  {
    if x != [] {
      var n := |x| - 1;
      WeightedAtLeastMin(cs[..n], x[..n], m);
      assert (cs[n].intensity - m) * x[n] >= 0.0;
      assert m * Sum(x) == m * Sum(x[..n]) + m * x[n];
    }
  }

  function Choose(k: nat, n: nat): seq<real> {
    seq(n, i => if i == k then 1.0 else 0.0)
  }

  lemma {:induction false} ChooseValue(cs: seq<ScheduleCandidate>, k: nat, n: nat)
    requires n <= |cs|
    ensures Sum(Choose(k, n)) == (if k < n then 1.0 else 0.0)
    ensures Objective(cs[..n], Choose(k, n)) == if k < n then cs[k].intensity else 0.0
  {
    if n != 0 {
      ChooseValue(cs, k, n - 1);
      assert Choose(k, n)[..n - 1] == Choose(k, n - 1);
      assert cs[..n][..n - 1] == cs[..n - 1];
    }
  }

  /** `value` is the minimum of the binary program over `cs` and of its linear
      relaxation: a binary point attains it, no relaxed point is below it. */
  ghost predicate IsProgramOptimum(value: real, cs: seq<ScheduleCandidate>) {
    && (exists x :: Binary(x, |cs|) && Attains(x, cs, value))
    && (forall x :: Relaxed(x, |cs|) ==> Objective(cs, x) >= value)
  }

  /** A selected objective is the optimum of the binary program and of its
      linear relaxation: some binary choice attains it, and no point of the
      relaxation, binary or fractional, is below it. */
  lemma ObjectiveIsProgramOptimum(request: SchedulingRequest, solver: Solver)
    requires SolveSchedule(request, solver).Selected?
    ensures IsProgramOptimum(SolveSchedule(request, solver).objectiveValue, Feasible(request.candidates, request))
  {
    var cs := Feasible(request.candidates, request);
    var least := FirstMin(cs);
    FirstMinIsMinimal(cs);
    var k :| 0 <= k < |cs| && cs[k] == least;
    ChooseValue(cs, k, |cs|);
    assert cs[..|cs|] == cs;
    var pick := Choose(k, |cs|);
    assert Binary(pick, |cs|) && Attains(pick, cs, SolveSchedule(request, solver).objectiveValue);
    forall x | Relaxed(x, |cs|) ensures Objective(cs, x) >= least.intensity {
      forall i | 0 <= i < |cs| ensures least.intensity <= cs[i].intensity {
        assert cs[i] in cs;
      }
      WeightedAtLeastMin(cs, x, least.intensity);
    }
  }
}
