/** Building the scheduling request from a frozen decision input, and trimming
    a snapshot to the decision window. */
module Request {
  import opened Wrappers
  import opened Schemas

  type LatencyCatalog = map<string, map<string, real>>

  // ---- the slot grid

  /** Python's `%` on numbers: the result takes the sign of the divisor. */
  function Remainder(a: int, n: int): int
    requires n != 0
  {
    if n > 0 then a % n else -((-a) % (-n))
  }

  /** The grid test: the distance to the nearer slot boundary, as the code
      computes it from the remainder, is at most one second. */
  predicate NearBoundary(elapsed: int, interval: int)
    requires interval != 0
  {
    var r := Remainder(elapsed, interval);
    (if r < interval - r then r else interval - r) <= SECOND
  }

  function Interval(slotMinutes: int): int {
    slotMinutes * 60 * SECOND
  }

  lemma MultipleAtLeast(x: int, n: int)
    requires x >= 1 && n > 0
    ensures x * n >= n
  {
    assert (x - 1) * n >= 0;
  }

  lemma DivisionIsUnique(q: int, s: int, k: int, r: int, n: int)
    requires q * n + s == k * n + r
    requires 0 <= s < n && 0 <= r < n
    ensures q == k && s == r
  {
    if q < k {
      assert (k - q) * n == k * n - q * n;
      MultipleAtLeast(k - q, n);
    } else if q > k {
      assert (q - k) * n == q * n - k * n;
      MultipleAtLeast(q - k, n);
    }
  }

  /** For a positive slot the remainder test means what it is there for: the
      instant lies within one second of some whole number of slots. */
  lemma NearBoundaryMeansNearMultiple(elapsed: int, slotMinutes: int)
    requires slotMinutes > 0
    ensures NearBoundary(elapsed, Interval(slotMinutes))
            <==> exists k: int :: -SECOND <= elapsed - k * Interval(slotMinutes) <= SECOND
  {
    var n := Interval(slotMinutes);
    assert n >= 60 * SECOND;
    var q, r := elapsed / n, elapsed % n;
    assert elapsed == q * n + r;
    if NearBoundary(elapsed, n) {
      if r <= SECOND {
        assert -SECOND <= elapsed - q * n <= SECOND;
      } else {
        assert elapsed - (q + 1) * n == r - n;
        assert -SECOND <= elapsed - (q + 1) * n <= SECOND;
      }
    }
    if k: int :| -SECOND <= elapsed - k * n <= SECOND {
      var d := elapsed - k * n;
      if d >= 0 {
        DivisionIsUnique(q, r, k, d, n);
      } else {
        assert elapsed == (k - 1) * n + (n + d);
        DivisionIsUnique(q, r, k - 1, n + d, n);
      }
    }
  }

  predicate InWindow(point: CarbonPoint, earliest: int, deadline: int) {
    earliest <= point.timestamp <= deadline
  }

  /** `interval` is absent when no grid applies. */
  predicate Usable(point: CarbonPoint, earliest: int, deadline: int, interval: Option<int>)
    requires interval.Some? ==> interval.value != 0
  {
    && InWindow(point, earliest, deadline)
    && (interval.Some? ==> NearBoundary(point.timestamp - earliest, interval.value))
  }

  /** `slot_minutes * 60 if slot_minutes else None`. */
  function GridOf(slotMinutes: Option<int>): (interval: Option<int>)
    ensures interval.Some? ==> interval.value != 0
  {
    if slotMinutes.Some? && slotMinutes.value != 0 then Some(Interval(slotMinutes.value)) else None
  }

  /** The usability test as a value, so that facts about filtering need not look inside it. */
  function Test(earliest: int, deadline: int, interval: Option<int>): CarbonPoint -> bool
    requires interval.Some? ==> interval.value != 0
  {
    (p: CarbonPoint) => Usable(p, earliest, deadline, interval)
  }

  /** The points that pass a test, in order. */
  function Kept(points: seq<CarbonPoint>, test: CarbonPoint -> bool): seq<CarbonPoint> {
    if points == [] then []
    else
      var front, last := points[..|points| - 1], points[|points| - 1];
      if test(last) then Kept(front, test) + [last] else Kept(front, test)
  }

  lemma {:induction false} KeptMembers(points: seq<CarbonPoint>, test: CarbonPoint -> bool)
    ensures forall p :: p in Kept(points, test) <==> p in points && test(p)
  {
    if points != [] {
      var front, last := points[..|points| - 1], points[|points| - 1];
      KeptMembers(front, test);
      assert points == front + [last];
    }
  }

  /** The skip conditions of both source loops, read the other way round. */
  method KeepPoint(point: CarbonPoint, earliest: int, deadline: int, interval: Option<int>) returns (keep: bool)
    requires interval.Some? ==> interval.value != 0
    ensures keep == Test(earliest, deadline, interval)(point)
  {
    if !(earliest <= point.timestamp <= deadline) {
      return false;
    }
    if interval.Some? {
      var remainder := Remainder(point.timestamp - earliest, interval.value);
      var rest := interval.value - remainder;
      if (if remainder < rest then remainder else rest) > SECOND {
        return false;
      }
    }
    return true;
  }

  // ---- the request

  function CandidateFor(input: DecisionInput, region: string, latency: real, point: CarbonPoint,
                        time: int): ScheduleCandidate {
    ScheduleCandidate(region, time, point.intensity, latency, Lookup(input.clusterAvailable, region, false), true)
  }

  function ForecastCandidates(input: DecisionInput, region: string, latency: real,
                              points: seq<CarbonPoint>): seq<ScheduleCandidate> {
    seq(|points|, i requires 0 <= i < |points| => CandidateFor(input, region, latency, points[i], points[i].timestamp))
  }

  /** A region offers its current value at the earliest start, then every usable forecast point. */
  function RegionCandidates(input: DecisionInput, region: string, latency: real,
                            test: CarbonPoint -> bool): seq<ScheduleCandidate>
    requires region in input.carbonSnapshot.regions
  {
    var data := input.carbonSnapshot.regions[region];
    [CandidateFor(input, region, latency, data.current, input.earliestStart)]
    + ForecastCandidates(input, region, latency, Kept(data.forecast, test))
  }

  /** What the candidate validators ask of a region and its pilot latency. */
  predicate CandidateFits(region: string, latency: real) {
    region != "" && latency > 0.0
  }

  function Collect(input: DecisionInput, regions: seq<string>, latencies: map<string, real>, test: CarbonPoint -> bool)
    : Result<seq<ScheduleCandidate>, Failure>
  {
    if regions == [] then Success([])
    else
      var front :- Collect(input, regions[..|regions| - 1], latencies, test);
      var region := regions[|regions| - 1];
      if region !in latencies then Result.Failure(MissingLatencyRegion)
      else if region !in input.carbonSnapshot.regions then Result.Failure(MissingSnapshotRegion)
      else if !CandidateFits(region, latencies[region]) then Result.Failure(InvalidCandidate)
      else Success(front + RegionCandidates(input, region, latencies[region], test))
  }

  function TestFor(input: DecisionInput, slotMinutes: Option<int>): CarbonPoint -> bool {
    Test(input.earliestStart, input.deadline, GridOf(slotMinutes))
  }

  function BuildRequest(input: DecisionInput, defaultRegion: string, catalog: LatencyCatalog, slotMinutes: Option<int>)
    : Result<SchedulingRequest, Failure>
  {
    if input.workloadProfile !in catalog then Result.Failure(MissingLatencyProfile)
    else if slotMinutes.Some? && slotMinutes.value <= 0 then Result.Failure(InvalidSlot)
    else
      var candidates :- Collect(input, input.candidateRegions, catalog[input.workloadProfile],
                                TestFor(input, slotMinutes));
      var request := SchedulingRequest(input.workloadProfile, defaultRegion, input.earliestStart, input.deadline,
                                       input.p95SloLimitMs, candidates);
      if request.Valid() then Success(request) else Result.Failure(InvalidRequest)
  }

  /** The inner part of the source's loop: one region's candidates. */
  method OfferRegion(input: DecisionInput, region: string, latency: real, slotMinutes: Option<int>)
    returns (candidates: seq<ScheduleCandidate>)
    requires region in input.carbonSnapshot.regions
    ensures candidates == RegionCandidates(input, region, latency, TestFor(input, slotMinutes))
  {
    var data := input.carbonSnapshot.regions[region];
    var first := CandidateFor(input, region, latency, data.current, input.earliestStart);
    candidates := [first];
    ghost var test := TestFor(input, slotMinutes);
    for j := 0 to |data.forecast|
      invariant candidates == [first] + ForecastCandidates(input, region, latency, Kept(data.forecast[..j], test))
    {
      var point := data.forecast[j];
      assert data.forecast[..j + 1][..j] == data.forecast[..j];
      var keep := KeepPoint(point, input.earliestStart, input.deadline, GridOf(slotMinutes));
      if !keep {
        continue;
      }
      candidates := candidates + [CandidateFor(input, region, latency, point, point.timestamp)];
    }
    assert data.forecast[..|data.forecast|] == data.forecast;
  }

  method BuildSchedulingRequest(input: DecisionInput, defaultRegion: string, catalog: LatencyCatalog,
                                slotMinutes: Option<int>)
    returns (r: Result<SchedulingRequest, Failure>)
    ensures r == BuildRequest(input, defaultRegion, catalog, slotMinutes)
  {
    if input.workloadProfile !in catalog {
      return Result.Failure(MissingLatencyProfile);
    }
    var latencies := catalog[input.workloadProfile];
    if slotMinutes.Some? && slotMinutes.value <= 0 {
      return Result.Failure(InvalidSlot);
    }
    ghost var regions := input.candidateRegions;
    ghost var test := TestFor(input, slotMinutes);
    var candidates: seq<ScheduleCandidate> := [];
    for i := 0 to |input.candidateRegions|
      invariant Collect(input, regions[..i], latencies, test) == Success(candidates)
    {
      var region := input.candidateRegions[i];
      CollectNext(input, regions, i, latencies, test);
      if region !in latencies {
        CollectStops(input, regions, i + 1, latencies, test);
        return Result.Failure(MissingLatencyRegion);
      }
      if region !in input.carbonSnapshot.regions {
        CollectStops(input, regions, i + 1, latencies, test);
        return Result.Failure(MissingSnapshotRegion);
      }
      if region == "" || latencies[region] <= 0.0 {
        CollectStops(input, regions, i + 1, latencies, test);
        return Result.Failure(InvalidCandidate);
      }
      var offered := OfferRegion(input, region, latencies[region], slotMinutes);
      candidates := candidates + offered;
    }
    assert regions[..|regions|] == regions;
    var request := SchedulingRequest(input.workloadProfile, defaultRegion, input.earliestStart, input.deadline,
                                     input.p95SloLimitMs, candidates);
    if !request.Valid() {
      return Result.Failure(InvalidRequest);
    }
    return Success(request);
  }

  /** One more region: its own error, or its candidates after the others'. */
  lemma CollectNext(input: DecisionInput, regions: seq<string>, i: nat, latencies: map<string, real>,
                    test: CarbonPoint -> bool)
    requires i < |regions| && Collect(input, regions[..i], latencies, test).Success?
    ensures Collect(input, regions[..i + 1], latencies, test)
            == if regions[i] !in latencies then Result.Failure(MissingLatencyRegion)
               else if regions[i] !in input.carbonSnapshot.regions then Result.Failure(MissingSnapshotRegion)
               else if !CandidateFits(regions[i], latencies[regions[i]]) then Result.Failure(InvalidCandidate)
               else Success(Collect(input, regions[..i], latencies, test).value
                            + RegionCandidates(input, regions[i], latencies[regions[i]], test))
  {
    assert regions[..i + 1][..i] == regions[..i];
  }

  lemma {:induction false} CollectStops(input: DecisionInput, regions: seq<string>, i: nat, latencies: map<string,
                                        real>, test: CarbonPoint -> bool)
    requires i <= |regions|
    requires Collect(input, regions[..i], latencies, test).Failure?
    ensures Collect(input, regions, latencies, test)
            == Result.Failure(Collect(input, regions[..i], latencies, test).error)
    decreases |regions|
  {
    if i == |regions| {
      assert regions[..i] == regions;
    } else {
      var front := regions[..|regions| - 1];
      assert front[..i] == regions[..i];
      CollectStops(input, front, i, latencies, test);
    }
  }

  lemma {:induction false} CollectSucceedsIff(input: DecisionInput, regions: seq<string>, latencies: map<string, real>,
                                              test: CarbonPoint -> bool)
    ensures Collect(input, regions, latencies, test).Success?
            <==> forall r :: r in regions ==>
                   r in latencies && r in input.carbonSnapshot.regions && CandidateFits(r, latencies[r])
  {
    if regions != [] {
      var front, last := regions[..|regions| - 1], regions[|regions| - 1];
      assert forall r :: r in regions <==> r in front || r == last;
      CollectSucceedsIff(input, front, latencies, test);
    }
  }

  lemma CollectsSomething(input: DecisionInput, regions: seq<string>, latencies: map<string, real>,
                          test: CarbonPoint -> bool)
    requires Collect(input, regions, latencies, test).Success?
    ensures Collect(input, regions, latencies, test).value == [] <==> regions == []
  {
  }

  /** A request can be built exactly when the slot is positive or absent, every
      candidate region has a name, a positive pilot latency and a carbon record,
      and the request's own validators pass, which for a valid input means that
      the default region has a name. */
  lemma BuildableIff(input: DecisionInput, defaultRegion: string, catalog: LatencyCatalog, slotMinutes: Option<int>)
    ensures BuildRequest(input, defaultRegion, catalog, slotMinutes).Success?
            <==> && input.workloadProfile in catalog
                 && (slotMinutes.Some? ==> slotMinutes.value > 0)
                 && (forall r :: r in input.candidateRegions ==>
                       && r in catalog[input.workloadProfile]
                       && r in input.carbonSnapshot.regions
                       && CandidateFits(r, catalog[input.workloadProfile][r]))
                 && input.workloadProfile != "" && defaultRegion != "" && input.candidateRegions != []
                 && input.earliestStart <= input.deadline && input.p95SloLimitMs > 0.0
  {
    if input.workloadProfile in catalog {
      var latencies, test := catalog[input.workloadProfile], TestFor(input, slotMinutes);
      CollectSucceedsIff(input, input.candidateRegions, latencies, test);
      if Collect(input, input.candidateRegions, latencies, test).Success? {
        CollectsSomething(input, input.candidateRegions, latencies, test);
      }
    }
  }

  /** A candidate region has a latency and a carbon record that make a candidate. */
  predicate Offers(input: DecisionInput, latencies: map<string, real>, region: string) {
    region in latencies && region in input.carbonSnapshot.regions && region != "" && latencies[region] > 0.0
  }

  /** Which exception an unbuildable request raises: for the profile, then the slot,
      then the first region that offers nothing, then the request's own fields. */
  lemma BuildErrorIs(input: DecisionInput, defaultRegion: string, catalog: LatencyCatalog, slotMinutes: Option<int>)
    ensures var built := BuildRequest(input, defaultRegion, catalog, slotMinutes);
            var regions := input.candidateRegions;
            if input.workloadProfile !in catalog then built == Result.Failure(MissingLatencyProfile)
            else if slotMinutes.Some? && slotMinutes.value <= 0 then built == Result.Failure(InvalidSlot)
            else
              var latencies := catalog[input.workloadProfile];
              && (forall i :: 0 <= i < |regions| && !Offers(input, latencies, regions[i])
                              && (forall k :: 0 <= k < i ==> Offers(input, latencies, regions[k]))
                    ==> built == Result.Failure(if regions[i] !in latencies then MissingLatencyRegion
                                                else if regions[i] !in input.carbonSnapshot.regions then
                                                  MissingSnapshotRegion
                                                else InvalidCandidate))
              && ((forall k :: 0 <= k < |regions| ==> Offers(input, latencies, regions[k]))
                    ==> built.Success? || built == Result.Failure(InvalidRequest))
  {
    if input.workloadProfile in catalog && !(slotMinutes.Some? && slotMinutes.value <= 0) {
      var latencies, test, regions := catalog[input.workloadProfile], TestFor(input, slotMinutes),
                                      input.candidateRegions;
      forall i | 0 <= i < |regions| && !Offers(input, latencies, regions[i])
                 && (forall k :: 0 <= k < i ==> Offers(input, latencies, regions[k]))
        ensures Collect(input, regions, latencies, test)
                == Result.Failure(if regions[i] !in latencies then MissingLatencyRegion
                                  else if regions[i] !in input.carbonSnapshot.regions then MissingSnapshotRegion
                                  else InvalidCandidate)
      {
        CollectSucceedsIff(input, regions[..i], latencies, test);
        CollectNext(input, regions, i, latencies, test);
        CollectStops(input, regions, i + 1, latencies, test);
      }
      CollectSucceedsIff(input, regions, latencies, test);
    }
  }

  // ---- what a built request guarantees

  /** Every candidate lies in the window, and within a region all candidates
      share one latency, one availability flag and a ready reset. */
  predicate Faithful(c: ScheduleCandidate, input: DecisionInput, latencies: map<string, real>) {
    && c.targetRegion in input.candidateRegions
    && c.targetRegion in latencies
    && c.expectedP95LatencyMs == latencies[c.targetRegion] > 0.0
    && c.regionAvailable == Lookup(input.clusterAvailable, c.targetRegion, false)
    && c.resetReady
    && input.earliestStart <= c.scheduledTime <= input.deadline
  }

  /** Where a candidate's value comes from: the current observation at the
      earliest start, or a usable forecast point at its own time. */
  predicate Attributed(c: ScheduleCandidate, input: DecisionInput, test: CarbonPoint -> bool) {
    && c.targetRegion in input.carbonSnapshot.regions
    && var data := input.carbonSnapshot.regions[c.targetRegion];
    || (c.scheduledTime == input.earliestStart && c.intensity == data.current.intensity)
    || (exists p :: p in data.forecast && test(p) && c.scheduledTime == p.timestamp && c.intensity == p.intensity)
  }

  lemma {:induction false} CollectFaithful(input: DecisionInput, regions: seq<string>, latencies: map<string, real>,
                                           test: CarbonPoint -> bool)
    requires input.earliestStart <= input.deadline
    requires forall p :: test(p) ==> InWindow(p, input.earliestStart, input.deadline)
    requires forall r :: r in regions ==> r in input.candidateRegions
    requires Collect(input, regions, latencies, test).Success?
    ensures forall c :: c in Collect(input, regions, latencies, test).value
              ==> Faithful(c, input, latencies) && Attributed(c, input, test)
  {
    if regions != [] {
      var front, region := regions[..|regions| - 1], regions[|regions| - 1];
      CollectFaithful(input, front, latencies, test);
      var latency := latencies[region];
      var data := input.carbonSnapshot.regions[region];
      var kept := Kept(data.forecast, test);
      KeptMembers(data.forecast, test);
      forall c | c in RegionCandidates(input, region, latency, test)
        ensures Faithful(c, input, latencies) && Attributed(c, input, test)
      {
        if c != CandidateFor(input, region, latency, data.current, input.earliestStart) {
          var i :| 0 <= i < |kept| && c == CandidateFor(input, region, latency, kept[i], kept[i].timestamp);
          assert kept[i] in kept;
        }
      }
    }
  }

  lemma {:induction false} CollectOffersUsable(input: DecisionInput, regions: seq<string>, latencies: map<string, real>,
                                               test: CarbonPoint -> bool, region: string)
    requires Collect(input, regions, latencies, test).Success?
    requires region in regions
    ensures region in latencies && region in input.carbonSnapshot.regions
    ensures var data := input.carbonSnapshot.regions[region];
            var cs := Collect(input, regions, latencies, test).value;
            && CandidateFor(input, region, latencies[region], data.current, input.earliestStart) in cs
            && (forall p :: p in data.forecast && test(p)
                  ==> CandidateFor(input, region, latencies[region], p, p.timestamp) in cs)
  {
    var front, last := regions[..|regions| - 1], regions[|regions| - 1];
    if region in front {
      CollectOffersUsable(input, front, latencies, test, region);
    } else {
      assert region == last;
      var data := input.carbonSnapshot.regions[region];
      var kept := Kept(data.forecast, test);
      KeptMembers(data.forecast, test);
      var latency := latencies[region];
      forall p | p in data.forecast && test(p)
        ensures CandidateFor(input, region, latency, p, p.timestamp) in RegionCandidates(input, region, latency, test)
      {
        var i :| 0 <= i < |kept| && kept[i] == p;
        assert ForecastCandidates(input, region, latency, kept)[i]
            == CandidateFor(input, region, latency, p, p.timestamp);
      }
    }
  }

  /** The candidates of a built request are exactly the current value of every
      candidate region and its usable forecast points. */
  lemma BuiltCandidatesAreExact(input: DecisionInput, defaultRegion: string, catalog: LatencyCatalog,
                                slotMinutes: Option<int>, c: ScheduleCandidate)
    requires input.earliestStart <= input.deadline
    requires BuildRequest(input, defaultRegion, catalog, slotMinutes).Success?
    ensures c in BuildRequest(input, defaultRegion, catalog, slotMinutes).value.candidates
            <==> Faithful(c, input, catalog[input.workloadProfile]) && Attributed(c, input, TestFor(input, slotMinutes))
  {
    var latencies, test := catalog[input.workloadProfile], TestFor(input, slotMinutes);
    CollectFaithful(input, input.candidateRegions, latencies, test);
    if Faithful(c, input, latencies) && Attributed(c, input, test) {
      CollectOffersUsable(input, input.candidateRegions, latencies, test, c.targetRegion);
    }
  }

  // ---- trimming

  function TrimRegion(data: CarbonRegionData, test: CarbonPoint -> bool): CarbonRegionData {
    data.(forecast := Kept(data.forecast, test))
  }

  function Trim(snapshot: CarbonSnapshot, earliest: int, deadline: int, slotMinutes: Option<int>): CarbonSnapshot {
    var test := Test(earliest, deadline, GridOf(slotMinutes));
    snapshot.(regions := map r | r in snapshot.regions :: TrimRegion(snapshot.regions[r], test))
  }

  method KeepUsable(points: seq<CarbonPoint>, earliest: int, deadline: int, interval: Option<int>)
    returns (kept: seq<CarbonPoint>)
    requires interval.Some? ==> interval.value != 0
    ensures kept == Kept(points, Test(earliest, deadline, interval))
  {
    kept := [];
    for j := 0 to |points|
      invariant kept == Kept(points[..j], Test(earliest, deadline, interval))
    {
      assert points[..j + 1][..j] == points[..j];
      var keep := KeepPoint(points[j], earliest, deadline, interval);
      if !keep {
        continue;
      }
      kept := kept + [points[j]];
    }
    assert points[..|points|] == points;
  }

  method TrimSnapshotToWindow(snapshot: CarbonSnapshot, earliest: int, deadline: int, slotMinutes: Option<int>)
    returns (trimmed: CarbonSnapshot)
    ensures trimmed == Trim(snapshot, earliest, deadline, slotMinutes)
  {
    var interval := GridOf(slotMinutes);
    ghost var test := Test(earliest, deadline, interval);
    var regions: map<string, CarbonRegionData> := map[];
    var names := snapshot.regions.Keys;
    while names != {}
      invariant names <= snapshot.regions.Keys
      invariant forall r :: r in regions <==> r in snapshot.regions && r !in names
      invariant forall r :: r in regions ==> regions[r] == TrimRegion(snapshot.regions[r], test)
      decreases |names|
    {
      var name :| name in names;
      var data := snapshot.regions[name];
      var kept := KeepUsable(data.forecast, earliest, deadline, interval);
      regions := regions[name := data.(forecast := kept)];
      names := names - {name};
    }
    trimmed := snapshot.(regions := regions);
  }

  /** Filtering by a weaker test after a stronger one changes nothing. */
  lemma {:induction false} KeptWithin(points: seq<CarbonPoint>, strong: CarbonPoint -> bool, weak: CarbonPoint -> bool)
    requires forall p :: strong(p) ==> weak(p)
    ensures Kept(Kept(points, strong), weak) == Kept(points, strong)
  {
    if points != [] {
      var front, last := points[..|points| - 1], points[|points| - 1];
      KeptWithin(front, strong, weak);
      if strong(last) {
        var kept := Kept(front, strong);
        assert (kept + [last])[..|kept|] == kept;
      }
    }
  }

  lemma KeptTwice(points: seq<CarbonPoint>, test: CarbonPoint -> bool)
    ensures Kept(Kept(points, test), test) == Kept(points, test)
  {
    KeptWithin(points, test, test);
  }

  lemma {:induction false} KeptOrdered(points: seq<CarbonPoint>, test: CarbonPoint -> bool)
    requires TimeOrdered(points)
    ensures TimeOrdered(Kept(points, test))
  {
    if points != [] {
      var front, last := points[..|points| - 1], points[|points| - 1];
      KeptOrdered(front, test);
      var kept := Kept(front, test);
      KeptMembers(front, test);
      forall i | 0 <= i < |kept| ensures kept[i].timestamp <= last.timestamp {
        assert kept[i] in front;
      }
    }
  }

  /** The trimmed snapshot still satisfies every snapshot validator, and
      trimming it again with the same window changes nothing. */
  lemma TrimIsIdempotentAndValid(snapshot: CarbonSnapshot, earliest: int, deadline: int, slotMinutes: Option<int>)
    ensures Trim(Trim(snapshot, earliest, deadline, slotMinutes), earliest, deadline, slotMinutes)
            == Trim(snapshot, earliest, deadline, slotMinutes)
    ensures snapshot.Valid() ==> Trim(snapshot, earliest, deadline, slotMinutes).Valid()
  {
    var test := Test(earliest, deadline, GridOf(slotMinutes));
    var once := Trim(snapshot, earliest, deadline, slotMinutes);
    forall r | r in snapshot.regions
      ensures Kept(once.regions[r].forecast, test) == once.regions[r].forecast
      ensures snapshot.Valid() ==> once.regions[r].Valid()
    {
      var points := snapshot.regions[r].forecast;
      KeptTwice(points, test);
      KeptMembers(points, test);
      if snapshot.Valid() {
        assert snapshot.regions[r].Valid();
        KeptOrdered(points, test);
        forall i | 0 <= i < |once.regions[r].forecast| ensures once.regions[r].forecast[i].Valid() {
          assert once.regions[r].forecast[i] in points;
        }
      }
    }
    if snapshot.Valid() {
      var r :| r in snapshot.regions;
      assert r in once.regions;
    }
    assert Trim(once, earliest, deadline, slotMinutes).regions == once.regions;
  }

  lemma {:induction false} CollectIgnoresTrim(input: DecisionInput, trimmed: DecisionInput, regions: seq<string>,
                                              latencies: map<string, real>, slotMinutes: Option<int>)
    requires trimmed == input.(carbonSnapshot := Trim(input.carbonSnapshot, input.earliestStart, input.deadline,
                                                      slotMinutes))
    ensures Collect(trimmed, regions, latencies, TestFor(input, slotMinutes))
            == Collect(input, regions, latencies, TestFor(input, slotMinutes))
  {
    if regions != [] {
      CollectIgnoresTrim(input, trimmed, regions[..|regions| - 1], latencies, slotMinutes);
      var region, test := regions[|regions| - 1], TestFor(input, slotMinutes);
      if region in latencies && region in input.carbonSnapshot.regions {
        KeptTwice(input.carbonSnapshot.regions[region].forecast, test);
        var points := Kept(input.carbonSnapshot.regions[region].forecast, test);
        assert ForecastCandidates(trimmed, region, latencies[region], points)
            == ForecastCandidates(input, region, latencies[region], points);
      }
    }
  }

  /** Trimming never changes the request, error cases included: same candidate
      sequence, so the same solver result and the same verdict of every rail
      that reads the request. */
  lemma TrimPreservesRequest(input: DecisionInput, defaultRegion: string, catalog: LatencyCatalog,
                             slotMinutes: Option<int>)
    ensures var snapshot := Trim(input.carbonSnapshot, input.earliestStart, input.deadline, slotMinutes);
            BuildRequest(input.(carbonSnapshot := snapshot), defaultRegion, catalog, slotMinutes)
            == BuildRequest(input, defaultRegion, catalog, slotMinutes)
  {
    var trimmed := input.(carbonSnapshot := Trim(input.carbonSnapshot, input.earliestStart, input.deadline,
                                                 slotMinutes));
    if input.workloadProfile in catalog {
      CollectIgnoresTrim(input, trimmed, input.candidateRegions, catalog[input.workloadProfile], slotMinutes);
    }
  }
}
