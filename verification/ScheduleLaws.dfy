/** What the solver promises about the requests the controller builds. */
module ScheduleLaws {
  import opened Wrappers
  import opened Schemas
  import opened Milp
  import opened Request

  /** In a request built from a valid input the optimal candidates share their
      latency, because a region has one and the optimum one region. */
  lemma BuiltOptimaShareLatency(input: DecisionInput, defaultRegion: string, catalog: LatencyCatalog,
                                slotMinutes: Option<int>,
                                request: SchedulingRequest)
    requires input.Valid()
    requires BuildRequest(input, defaultRegion, catalog, slotMinutes) == Success(request)
    ensures OptimaShareLatency(request)
  {
    KeyLessIsStrictWeakOrder();
    forall c, d | IsOptimal(c, request) && IsOptimal(d,
                                                     request) ensures c.expectedP95LatencyMs == d.expectedP95LatencyMs {
      assert SameKey(c, d);
      BuiltCandidatesAreExact(input, defaultRegion, catalog, slotMinutes, c);
      BuiltCandidatesAreExact(input, defaultRegion, catalog, slotMinutes, d);
    }
  }

  /** So on requests the controller builds, any reordering or repetition of the
      candidates gives the identical result, latency included; with CBC, as long
      as it finds an optimum both times. */
  lemma BuiltSelectionIgnoresOrder(input: DecisionInput, defaultRegion: string, catalog: LatencyCatalog,
                                   slotMinutes: Option<int>,
                                   request: SchedulingRequest, candidates: seq<ScheduleCandidate>, solver: Solver)
    requires input.Valid()
    requires BuildRequest(input, defaultRegion, catalog, slotMinutes) == Success(request)
    requires forall c :: c in request.candidates <==> c in candidates
    ensures var r, r' := SolveSchedule(request, solver), SolveSchedule(request.(candidates := candidates), solver);
            && (r.Infeasible? <==> r'.Infeasible?)
            && (solver.Enumeration? || (r.Selected? && r'.Selected?) ==> r' == r)
  {
    BuiltOptimaShareLatency(input, defaultRegion, catalog, slotMinutes, request);
    SelectionIgnoresOrder(request, candidates);
    BothOrNeither(request, candidates);
    SolverOnlyConfirms(request, solver);
    SolverOnlyConfirms(request.(candidates := candidates), solver);
  }

  /** CBC can withhold the enumerated selection but not change it. */
  lemma SolverOnlyConfirms(request: SchedulingRequest, solver: Solver)
    ensures var r, e := SolveSchedule(request, solver), SolveSchedule(request, Enumeration);
            && (r.Infeasible? <==> e.Infeasible?)
            && (r.Selected? ==> e.Selected? && r == e.(backend := solver.BackendName()))
            && !e.SolverUnavailable?
  {
  }
}
