/** The rails about a decision's inputs: the age of the observations and the
    provenance of the grid zones. */
module DataRails {
  import opened Wrappers
  import opened Schemas
  import opened Request
  import opened Trust

  // ---- ages

  /** Tolerated clock skew of an observation stamped after its reference clock. */
  const FUTURE_TOLERANCE := 60.0

  function ObservationAge(data: CarbonRegionData, at: int): real {
    Seconds(at - data.current.timestamp)
  }

  /** Every observation is neither from the future nor too old at `at`. */
  ghost predicate FreshAt(snapshot: CarbonSnapshot, at: int, maxAge: real) {
    forall r :: r in snapshot.regions ==> -FUTURE_TOLERANCE <= ObservationAge(snapshot.regions[r], at) <= maxAge
  }

  /** Fresh against the snapshot's own clock and, when there is one, the scheduler's. */
  ghost predicate DataAgeOk(snapshot: CarbonSnapshot, maxAge: real, now: Option<int>) {
    && FreshAt(snapshot, snapshot.decisionTime, maxAge)
    && (now.Some? ==> FreshAt(snapshot, now.value, maxAge))
  }

  method CheckDataAge(snapshot: CarbonSnapshot, maxAge: real, now: Option<int>) returns (check: RailCheck)
    ensures check == RailCheck(DataAge, DataAgeOk(snapshot, maxAge, now))
  {
    var clocks := [snapshot.decisionTime] + if now.Some? then [now.value] else [];
    for i := 0 to |clocks|
      invariant forall k :: 0 <= k < i ==> FreshAt(snapshot, clocks[k], maxAge)
    {
      var future, stale := false, false;
      var names := snapshot.regions.Keys;
      while names != {}
        invariant names <= snapshot.regions.Keys
        invariant future || stale <==>
          !(forall r :: r in snapshot.regions && r !in names
              ==> -FUTURE_TOLERANCE <= ObservationAge(snapshot.regions[r], clocks[i]) <= maxAge)
        decreases |names|
      {
        var name :| name in names;
        var age := ObservationAge(snapshot.regions[name], clocks[i]);
        if age < -FUTURE_TOLERANCE {
          future := true;
        }
        if age > maxAge {
          stale := true;
        }
        names := names - {name};
      }
      if future || stale {
        assert !FreshAt(snapshot, clocks[i], maxAge);
        return RailCheck(DataAge, false);
      }
    }
    assert FreshAt(snapshot, clocks[0], maxAge);
    if now.Some? {
      assert FreshAt(snapshot, clocks[1], maxAge);
    }
    return RailCheck(DataAge, true);
  }

  /** `age` is the age of the oldest of the named observations at `at`. */
  ghost predicate IsOldest(snapshot: CarbonSnapshot, at: int, names: set<string>, age: int)
    requires names <= snapshot.regions.Keys
  {
    && (exists r :: r in names && age == at - snapshot.regions[r].current.timestamp)
    && (forall r :: r in names ==> at - snapshot.regions[r].current.timestamp <= age)
  }

  /** `age` is the age of the snapshot's oldest observation at `at`. */
  ghost predicate IsSnapshotAge(snapshot: CarbonSnapshot, at: int, age: int) {
    IsOldest(snapshot, at, snapshot.regions.Keys, age)
  }

  lemma {:induction false} OldestExists(snapshot: CarbonSnapshot, at: int, names: set<string>) returns (age: int)
    requires names != {} && names <= snapshot.regions.Keys
    ensures IsOldest(snapshot, at, names, age)
    decreases |names|
  {
    var name :| name in names;
    var rest := names - {name};
    age := at - snapshot.regions[name].current.timestamp;
    if rest == {} {
      assert names == {name};
    } else {
      var other := OldestExists(snapshot, at, rest);
      age := if age < other then other else age;
      assert forall r :: r in names ==> r == name || r in rest;
    }
  }

  ghost function OldestAge(snapshot: CarbonSnapshot, at: int): (age: int)
    requires snapshot.regions != map[]
    ensures IsSnapshotAge(snapshot, at, age)
  {
    assert exists age :: IsSnapshotAge(snapshot, at, age) by {
      var age := OldestExists(snapshot, at, snapshot.regions.Keys);
      assert IsSnapshotAge(snapshot, at, age);
    }
    var age :| IsSnapshotAge(snapshot, at, age);
    age
  }

  lemma OldestAgeUnique(snapshot: CarbonSnapshot, at: int, age: int)
    requires snapshot.regions != map[]
    requires IsSnapshotAge(snapshot, at, age)
    ensures age == OldestAge(snapshot, at)
  {
  }

  method SnapshotDataAge(snapshot: CarbonSnapshot, at: int) returns (age: int)
    requires snapshot.regions != map[]
    ensures age == OldestAge(snapshot, at)
  {
    var name :| name in snapshot.regions.Keys;
    age := at - snapshot.regions[name].current.timestamp;
    var names := snapshot.regions.Keys - {name};
    while names != {}
      invariant names <= snapshot.regions.Keys
      invariant exists r :: r in snapshot.regions && age == at - snapshot.regions[r].current.timestamp
      invariant forall r :: r in snapshot.regions && r !in names ==> at - snapshot.regions[r].current.timestamp <= age
      decreases |names|
    {
      name :| name in names;
      if at - snapshot.regions[name].current.timestamp > age {
        age := at - snapshot.regions[name].current.timestamp;
      }
      names := names - {name};
    }
    OldestAgeUnique(snapshot, at, age);
  }

  /** The oldest observation is at most `maxAge` seconds old. */
  ghost predicate RecentEnough(snapshot: CarbonSnapshot, at: int, maxAge: real) {
    forall r :: r in snapshot.regions ==> ObservationAge(snapshot.regions[r], at) <= maxAge
  }

  lemma RecentEnoughIsAboutTheOldest(snapshot: CarbonSnapshot, at: int, age: int, maxAge: real)
    requires IsSnapshotAge(snapshot, at, age)
    ensures RecentEnough(snapshot, at, maxAge) <==> Seconds(age) <= maxAge
  {
    var r :| r in snapshot.regions && age == at - snapshot.regions[r].current.timestamp;
    assert ObservationAge(snapshot.regions[r], at) == Seconds(age);
  }

  /** Time only makes a snapshot older. */
  lemma RecencyOnlyFades(snapshot: CarbonSnapshot, earlier: int, later: int, maxAge: real)
    requires earlier <= later
    requires RecentEnough(snapshot, later, maxAge)
    ensures RecentEnough(snapshot, earlier, maxAge)
  {
    forall r | r in snapshot.regions ensures ObservationAge(snapshot.regions[r], earlier) <= maxAge {
      assert ObservationAge(snapshot.regions[r], earlier) <= ObservationAge(snapshot.regions[r], later);
    }
  }

  // ---- zone provenance

  /** Whitespace of Python's `str.strip`. */
  predicate IsSpace(c: char) {
    var n := c as int;
    9 <= n <= 13 || 28 <= n <= 32 || n == 0x85 || n == 0xA0 || n == 0x1680 || 0x2000 <= n <= 0x200A
    || n == 0x2028 || n == 0x2029 || n == 0x202F || n == 0x205F || n == 0x3000
  }

  function Strip(text: string): string {
    if text == "" then ""
    else if IsSpace(text[0]) then Strip(text[1..])
    else if IsSpace(text[|text| - 1]) then Strip(text[..|text| - 1])
    else text
  }

  predicate AllSpace(text: string) {
    forall k :: 0 <= k < |text| ==> IsSpace(text[k])
  }

  lemma AllSpaceGrows(text: string, c: char)
    requires AllSpace(text) && IsSpace(c)
    ensures AllSpace([c] + text) && AllSpace(text + [c])
  {
  }

  /** Stripping removes spaces from both ends and nothing else. */
  lemma {:induction false} StripTrims(text: string) returns (before: string, after: string)
    ensures text == before + Strip(text) + after
    ensures AllSpace(before) && AllSpace(after)
  {
    before, after := "", "";
    if text == "" {
      return;
    }
    var first, last := text[0], text[|text| - 1];
    if IsSpace(first) {
      before, after := StripTrims(text[1..]);
      assert text == [first] + text[1..] == [first] + before + Strip(text[1..]) + after;
      AllSpaceGrows(before, first);
      before := [first] + before;
    } else if IsSpace(last) {
      before, after := StripTrims(text[..|text| - 1]);
      assert text == text[..|text| - 1] + [last] == before + Strip(text[..|text| - 1]) + (after + [last]);
      AllSpaceGrows(after, last);
      after := after + [last];
    }
  }

  /** It removes all of them. */
  lemma {:induction false} StripLeavesNone(text: string)
    ensures var kept := Strip(text); kept != "" ==> !IsSpace(kept[0]) && !IsSpace(kept[|kept| - 1])
  {
    if text != "" && IsSpace(text[0]) {
      StripLeavesNone(text[1..]);
    } else if text != "" && IsSpace(text[|text| - 1]) {
      StripLeavesNone(text[..|text| - 1]);
    }
  }

  /** A text is blank exactly when all of it is space. */
  lemma BlankIff(text: string)
    ensures Strip(text) == "" <==> AllSpace(text)
  {
    var before, after := StripTrims(text);
    StripLeavesNone(text);
    assert Strip(text) != "" ==> text[|before|] == Strip(text)[0];
  }

  /** The configured provider zone of a region; empty when not configured. */
  function ProviderZone(gate: GatePolicy, region: string): string {
    Strip(Lookup(gate.expectedProviderRegions, region, ""))
  }

  /** The zone a region's data must report: its expected zone, else its provider
      zone, else whatever zone the record itself names. */
  function WantedZone(gate: GatePolicy, region: string, actual: string): string {
    var expected := Strip(Lookup(gate.expectedZones, region, ""));
    if expected != "" then expected
    else if ProviderZone(gate, region) != "" then ProviderZone(gate, region)
    else actual
  }

  /** The observations the identity test compares: the current value and the window. */
  function WindowSeries(data: CarbonRegionData, earliest: int, deadline: int): seq<CarbonPoint> {
    [data.current] + Kept(data.forecast, Test(earliest, deadline, None))
  }

  /** A region's record names the zones configured for it. */
  predicate ZoneMatches(data: CarbonRegionData, region: string, gate: GatePolicy) {
    && (ProviderZone(gate, region) != "" ==> data.providerRegion == ProviderZone(gate, region))
    && (data.reportedZone.Some? ==> data.reportedZone.value == WantedZone(gate, region, data.providerRegion))
  }

  /** Two regions could not have been served the same grid. */
  predicate Distinguishable(a: CarbonRegionData, b: CarbonRegionData, earliest: int, deadline: int) {
    && a.providerRegion != b.providerRegion
    && (a.reportedZone.Some? ==> a.reportedZone != b.reportedZone)
    && !(&& |WindowSeries(a, earliest, deadline)| >= 2
         && WindowSeries(a, earliest, deadline) == WindowSeries(b, earliest, deadline))
  }

  ghost predicate ProvenanceOk(snapshot: CarbonSnapshot, regions: seq<string>, gate: GatePolicy, earliest: int,
                               deadline: int)
    requires forall r :: r in regions ==> r in snapshot.regions
  {
    && (forall r :: r in regions ==> ZoneMatches(snapshot.regions[r], r, gate))
    && (forall i, j :: 0 <= i < j < |regions|
          ==> Distinguishable(snapshot.regions[regions[i]], snapshot.regions[regions[j]], earliest, deadline))
  }

  datatype Problem =
    | RecordZone(region: string)
    | ReturnedZone(region: string)
    | SharedZone(members: seq<string>)
    | SameSeries(first: string, second: string)

  /** Two positions carry the same zone. */
  predicate Shared(zones: seq<Option<string>>) {
    exists i, j :: 0 <= i < j < |zones| && zones[i].Some? && zones[i] == zones[j]
  }

  /** `setdefault(zone, []).append(region)` over the regions that have a zone. */
  method GroupByZone(regions: seq<string>, zones: seq<Option<string>>) returns (groups: map<string, seq<string>>)
    requires |regions| == |zones|
    ensures (exists z :: z in groups && |groups[z]| > 1) <==> Shared(zones)
  {
    groups := map[];
    for i := 0 to |regions|
      invariant forall z :: z in groups <==> Some(z) in zones[..i]
      invariant forall z :: z in groups ==> |groups[z]| >= 1
      invariant (exists z :: z in groups && |groups[z]| > 1) <==> Shared(zones[..i])
    {
      assert zones[..i + 1] == zones[..i] + [zones[i]];
      SharedGrows(zones[..i], zones[i]);
      if zones[i].Some? {
        var zone := zones[i].value;
        ghost var before := groups;
        groups := groups[zone := (if zone in groups then groups[zone] else []) + [regions[i]]];
        assert Some(zone) in zones[..i] <==> |groups[zone]| > 1;
        assert forall z :: z in before && z != zone ==> groups[z] == before[z];
        if Shared(zones[..i]) {
          ghost var z :| z in before && |before[z]| > 1;
          assert |groups[z]| > 1;
        }
      }
    }
    assert zones[..|regions|] == zones;
  }

  /** Every zone shared by several positions is a problem. */
  method SharedZones(regions: seq<string>, zones: seq<Option<string>>) returns (problems: seq<Problem>)
    requires |regions| == |zones|
    ensures problems != [] <==> Shared(zones)
  {
    var groups := GroupByZone(regions, zones);
    problems := [];
    var names := groups.Keys;
    while names != {}
      invariant names <= groups.Keys
      invariant problems != [] <==> exists z :: z in groups && z !in names && |groups[z]| > 1
      decreases |names|
    {
      var zone :| zone in names;
      if |groups[zone]| > 1 {
        problems := problems + [SharedZone(groups[zone])];
      }
      names := names - {zone};
    }
  }

  lemma SharedGrows(zones: seq<Option<string>>, zone: Option<string>)
    ensures Shared(zones + [zone]) <==> Shared(zones) || (zone.Some? && zone in zones)
  {
    var all := zones + [zone];
    if Shared(zones) {
      var i, j :| 0 <= i < j < |zones| && zones[i].Some? && zones[i] == zones[j];
      assert all[i] == all[j];
    }
    if zone.Some? && zone in zones {
      var i :| 0 <= i < |zones| && zones[i] == zone;
      assert all[i] == all[|zones|];
    }
    if Shared(all) {
      var i, j :| 0 <= i < j < |all| && all[i].Some? && all[i] == all[j];
      if j < |zones| {
        assert zones[i] == zones[j];
      } else {
        assert zones[i] == zone;
      }
    }
  }

  method ZoneMismatches(snapshot: CarbonSnapshot, regions: seq<string>,
                        gate: GatePolicy) returns (problems: seq<Problem>)
    requires forall r :: r in regions ==> r in snapshot.regions
    ensures problems == [] <==> forall r :: r in regions ==> ZoneMatches(snapshot.regions[r], r, gate)
  {
    problems := [];
    for i := 0 to |regions|
      invariant problems == []
                <==> forall k :: 0 <= k < i ==> ZoneMatches(snapshot.regions[regions[k]], regions[k], gate)
    {
      var region := regions[i];
      var data := snapshot.regions[region];
      var expected := ProviderZone(gate, region);
      if expected != "" && data.providerRegion != expected {
        problems := problems + [RecordZone(region)];
      }
      if data.reportedZone.Some? && data.reportedZone.value != WantedZone(gate, region, data.providerRegion) {
        problems := problems + [ReturnedZone(region)];
      }
    }
    assert problems == []
           <==> forall k :: 0 <= k < |regions| ==> ZoneMatches(snapshot.regions[regions[k]], regions[k], gate);
  }

  /** Two positions carry the same series of two or more points. */
  predicate Coincide(series: seq<seq<CarbonPoint>>, i: int, j: int)
    requires 0 <= i < |series| && 0 <= j < |series|
  {
    |series[i]| >= 2 && series[i] == series[j]
  }

  method SameSeriesPairs(regions: seq<string>, series: seq<seq<CarbonPoint>>) returns (problems: seq<Problem>)
    requires |regions| == |series|
    ensures problems == [] <==> forall i, j :: 0 <= i < j < |series| ==> !Coincide(series, i, j)
  {
    problems := [];
    for i := 0 to |regions|
      invariant problems == [] <==> forall a, b :: 0 <= a < i && a < b < |series| ==> !Coincide(series, a, b)
    {
      ghost var outer := problems;
      for j := i + 1 to |regions|
        invariant problems == [] <==> outer == [] && forall b :: i < b < j ==> !Coincide(series, i, b)
      {
        assert Coincide(series, i, j) <==> |series[i]| >= 2 && series[i] == series[j];
        if |series[i]| >= 2 && series[i] == series[j] {
          problems := problems + [SameSeries(regions[i], regions[j])];
        }
      }
    }
  }

  method CheckZoneProvenance(snapshot: CarbonSnapshot, regions: seq<string>, gate: GatePolicy, earliest: int,
                             deadline: int)
    returns (check: RailCheck)
    requires forall r :: r in regions ==> r in snapshot.regions
    ensures check == RailCheck(ZoneProvenance, ProvenanceOk(snapshot, regions, gate, earliest, deadline))
  {
    var problems := ZoneMismatches(snapshot, regions, gate);
    var data := seq(|regions|,
                    i requires 0 <= i < |regions| => assert regions[i] in regions; snapshot.regions[regions[i]]);
    var reported := seq(|data|, i requires 0 <= i < |data| => data[i].reportedZone);
    var returned := SharedZones(regions, reported);
    var requested := seq(|data|, i requires 0 <= i < |data| => Some(data[i].providerRegion));
    var zones := SharedZones(regions, requested);
    var series := seq(|data|, i requires 0 <= i < |data| => WindowSeries(data[i], earliest, deadline));
    var same := SameSeriesPairs(regions, series);
    problems := problems + returned + zones + same;
    SeparatelyIsJointly(data, reported, requested, series, earliest, deadline);
    assert forall i :: 0 <= i < |regions| ==> data[i] == snapshot.regions[regions[i]];
    check := RailCheck(ZoneProvenance, problems == []);
  }

  lemma SeparatelyIsJointly(data: seq<CarbonRegionData>, reported: seq<Option<string>>, requested: seq<Option<string>>,
                            series: seq<seq<CarbonPoint>>, earliest: int, deadline: int)
    requires |reported| == |requested| == |series| == |data|
    requires forall i :: 0 <= i < |data| ==>
      && reported[i] == data[i].reportedZone
      && requested[i] == Some(data[i].providerRegion)
      && series[i] == WindowSeries(data[i], earliest, deadline)
    ensures && !Shared(reported) && !Shared(requested)
            && (forall i, j :: 0 <= i < j < |series| ==> !Coincide(series, i, j))
            <==> forall i, j :: 0 <= i < j < |data| ==> Distinguishable(data[i], data[j], earliest, deadline)
  {
    forall i, j | 0 <= i < j < |data|
      ensures Distinguishable(data[i], data[j], earliest, deadline)
              <==> && !(reported[i].Some? && reported[i] == reported[j])
                   && requested[i] != requested[j]
                   && !Coincide(series, i, j)
    {
    }
    if !Shared(reported) && !Shared(requested) && (forall i, j :: 0 <= i < j < |series| ==> !Coincide(series, i, j)) {
      forall i, j | 0 <= i < j < |data| ensures Distinguishable(data[i], data[j], earliest, deadline) {
        assert !(reported[i].Some? && reported[i] == reported[j]);
        assert requested[i] != requested[j];
      }
    }
  }

  // ---- what passing means

  /** When every zone is reported and configured, only the right assignment
      passes: each region reports exactly the zone configured for it, so any
      exchange of the data of two regions with different zones is rejected. */
  lemma SwapIsRejected(snapshot: CarbonSnapshot, regions: seq<string>, gate: GatePolicy, earliest: int, deadline: int,
                       a: string, b: string)
    requires forall r :: r in regions ==> r in snapshot.regions
    requires a in regions && b in regions
    requires ProvenanceOk(snapshot, regions, gate, earliest, deadline)
    requires snapshot.regions[a].reportedZone.Some? && snapshot.regions[b].reportedZone.Some?
    requires WantedZone(gate, a, "") != "" && WantedZone(gate, b, "") != ""
    requires WantedZone(gate, a, "") != WantedZone(gate, b, "")
    ensures var swapped := snapshot.(regions := snapshot.regions[a := snapshot.regions[b]][b := snapshot.regions[a]]);
            !ProvenanceOk(swapped, regions, gate, earliest, deadline)
  {
    var swapped := snapshot.(regions := snapshot.regions[a := snapshot.regions[b]][b := snapshot.regions[a]]);
    assert ZoneMatches(snapshot.regions[b], b, gate);
    assert !ZoneMatches(swapped.regions[a], a, gate);
  }

  // ---- trimming and the data rails

  /** Trimming never changes the age verdict, and without a slot grid it never
      changes the provenance verdict either. */
  lemma TrimKeepsDataRails(snapshot: CarbonSnapshot, regions: seq<string>, gate: GatePolicy, earliest: int,
                           deadline: int,
                           slotMinutes: Option<int>, maxAge: real, now: Option<int>)
    requires forall r :: r in regions ==> r in snapshot.regions
    ensures var trimmed := Trim(snapshot, earliest, deadline, slotMinutes);
            && (DataAgeOk(trimmed, maxAge, now) <==> DataAgeOk(snapshot, maxAge, now))
            && (slotMinutes.None? ==>
                  (ProvenanceOk(trimmed, regions, gate, earliest, deadline)
                   <==> ProvenanceOk(snapshot, regions, gate, earliest, deadline)))
  {
    var trimmed := Trim(snapshot, earliest, deadline, slotMinutes);
    forall at ensures FreshAt(trimmed, at, maxAge) <==> FreshAt(snapshot, at, maxAge) {
      assert forall r :: r in snapshot.regions ==>
        ObservationAge(trimmed.regions[r], at) == ObservationAge(snapshot.regions[r], at);
    }
    if slotMinutes.None? {
      TrimKeepsProvenanceIff(snapshot, regions, gate, earliest, deadline, slotMinutes);
    }
  }

  /** The regions' zones are as configured, and no two share one. */
  ghost predicate ZonesOk(snapshot: CarbonSnapshot, regions: seq<string>, gate: GatePolicy)
    requires forall r :: r in regions ==> r in snapshot.regions
  {
    && (forall r :: r in regions ==> ZoneMatches(snapshot.regions[r], r, gate))
    && (forall i, j :: 0 <= i < j < |regions|
          ==> ZonesApart(snapshot.regions[regions[i]], snapshot.regions[regions[j]]))
  }

  predicate ZonesApart(a: CarbonRegionData, b: CarbonRegionData) {
    a.providerRegion != b.providerRegion && (a.reportedZone.Some? ==> a.reportedZone != b.reportedZone)
  }

  /** Two records agree on the current value and on the points that pass a test, of which there is one. */
  predicate SameOn(a: CarbonRegionData, b: CarbonRegionData, test: CarbonPoint -> bool) {
    a.current == b.current && Kept(a.forecast, test) == Kept(b.forecast, test) != []
  }

  /** Some pair of regions coincides on the points that pass a test. */
  ghost predicate SomePairSame(snapshot: CarbonSnapshot, regions: seq<string>, test: CarbonPoint -> bool)
    requires forall r :: r in regions ==> r in snapshot.regions
  {
    exists i, j :: 0 <= i < j < |regions| && SameOn(snapshot.regions[regions[i]], snapshot.regions[regions[j]], test)
  }

  lemma DistinguishableIff(a: CarbonRegionData, b: CarbonRegionData, earliest: int, deadline: int)
    ensures Distinguishable(a, b, earliest, deadline)
            <==> ZonesApart(a, b) && !SameOn(a, b, Test(earliest, deadline, None))
  {
    var test := Test(earliest, deadline, None);
    assert WindowSeries(a, earliest, deadline)[1..] == Kept(a.forecast, test);
    assert WindowSeries(b, earliest, deadline)[1..] == Kept(b.forecast, test);
  }

  /** The rail, taken apart: zones, and coincidence in the decision window. */
  lemma ProvenanceIff(snapshot: CarbonSnapshot, regions: seq<string>, gate: GatePolicy, earliest: int, deadline: int)
    requires forall r :: r in regions ==> r in snapshot.regions
    ensures ProvenanceOk(snapshot, regions, gate, earliest, deadline)
            <==> ZonesOk(snapshot, regions, gate) && !SomePairSame(snapshot, regions, Test(earliest, deadline, None))
  {
    forall i, j | 0 <= i < j < |regions|
      ensures var a, b := snapshot.regions[regions[i]], snapshot.regions[regions[j]];
              Distinguishable(a, b, earliest, deadline)
              <==> ZonesApart(a, b) && !SameOn(a, b, Test(earliest, deadline, None))
    {
      DistinguishableIff(snapshot.regions[regions[i]], snapshot.regions[regions[j]], earliest, deadline);
    }
  }

  lemma {:induction false} KeptBySameTest(points: seq<CarbonPoint>, a: CarbonPoint -> bool, b: CarbonPoint -> bool)
    requires forall p :: a(p) <==> b(p)
    ensures Kept(points, a) == Kept(points, b)
  {
    if points != [] {
      KeptBySameTest(points[..|points| - 1], a, b);
    }
  }

  /** A region's record names what is configured for it: the provider zone, and as
      the returned zone the expected zone, else the provider zone, else its own. */
  predicate NamesItsZones(data: CarbonRegionData, provider: string, expected: string) {
    && (provider == "" || data.providerRegion == provider)
    && (data.reportedZone.Some? ==>
          data.reportedZone.value
          == if expected != "" then expected else if provider != "" then provider else data.providerRegion)
  }

  /** The rails by field. Ages: on each clock, at most a minute ahead and at most the
      maximum behind. Zones: as configured, no two the same, none returned twice,
      and no two regions with the same current value and window forecast. */
  lemma DataAgeOkIff(snapshot: CarbonSnapshot, maxAge: real, now: Option<int>)
    ensures DataAgeOk(snapshot, maxAge, now)
            <==> forall r :: r in snapshot.regions ==>
                   var observed := snapshot.regions[r].current.timestamp;
                   && -60.0 <= (snapshot.decisionTime - observed) as real / 1000000.0 <= maxAge
                   && (now.Some? ==> -60.0 <= (now.value - observed) as real / 1000000.0 <= maxAge)
  {
    forall r, at | r in snapshot.regions
      ensures ObservationAge(snapshot.regions[r], at)
              == (at - snapshot.regions[r].current.timestamp) as real / 1000000.0
    {
    }
  }

  lemma ProvenanceOkIff(snapshot: CarbonSnapshot, regions: seq<string>, gate: GatePolicy, earliest: int, deadline: int)
    requires forall r :: r in regions ==> r in snapshot.regions
    ensures var window := (p: CarbonPoint) => earliest <= p.timestamp <= deadline;
            ProvenanceOk(snapshot, regions, gate, earliest, deadline)
            <==> && (forall r :: r in regions ==>
                       NamesItsZones(snapshot.regions[r], Strip(Lookup(gate.expectedProviderRegions, r, "")),
                                     Strip(Lookup(gate.expectedZones, r, ""))))
                 && (forall i, j :: 0 <= i < j < |regions| ==>
                       var a, b := snapshot.regions[regions[i]], snapshot.regions[regions[j]];
                       && a.providerRegion != b.providerRegion
                       && (a.reportedZone.None? || a.reportedZone != b.reportedZone)
                       && (|| a.current != b.current || Kept(a.forecast, window) != Kept(b.forecast, window)
                           || Kept(a.forecast, window) == []))
  {
    var window, test := (p: CarbonPoint) => earliest <= p.timestamp <= deadline, Test(earliest, deadline, None);
    ProvenanceIff(snapshot, regions, gate, earliest, deadline);
    forall r | r in regions
      ensures Kept(snapshot.regions[r].forecast, window) == Kept(snapshot.regions[r].forecast, test)
    {
      KeptBySameTest(snapshot.regions[r].forecast, window, test);
    }
    forall r | r in regions
      ensures ZoneMatches(snapshot.regions[r], r, gate)
              <==> NamesItsZones(snapshot.regions[r], Strip(Lookup(gate.expectedProviderRegions, r, "")),
                                 Strip(Lookup(gate.expectedZones, r, "")))
    {
    }
    forall i, j | 0 <= i < j < |regions|
      ensures var a, b := snapshot.regions[regions[i]], snapshot.regions[regions[j]];
              SameOn(a, b, test)
              <==> a.current == b.current && Kept(a.forecast, window) == Kept(b.forecast, window) != []
    {
      assert regions[i] in regions && regions[j] in regions;
    }
  }

  /** The rail on a trimmed snapshot, for every slot: the same zones, and
      coincidence on the points the grid keeps. */
  lemma TrimmedProvenanceIff(snapshot: CarbonSnapshot, regions: seq<string>, gate: GatePolicy, earliest: int,
                             deadline: int,
                             slotMinutes: Option<int>)
    requires forall r :: r in regions ==> r in snapshot.regions
    ensures ProvenanceOk(Trim(snapshot, earliest, deadline, slotMinutes), regions, gate, earliest, deadline)
            <==> && ZonesOk(snapshot, regions, gate)
                 && !SomePairSame(snapshot, regions, Test(earliest, deadline, GridOf(slotMinutes)))
  {
    var trimmed := Trim(snapshot, earliest, deadline, slotMinutes);
    var window, grid := Test(earliest, deadline, None), Test(earliest, deadline, GridOf(slotMinutes));
    ProvenanceIff(trimmed, regions, gate, earliest, deadline);
    forall r | r in regions
      ensures Kept(trimmed.regions[r].forecast, window) == Kept(snapshot.regions[r].forecast, grid)
    {
      KeptWithin(snapshot.regions[r].forecast, grid, window);
    }
    TrimKeepsZones(snapshot, regions, gate, earliest, deadline, slotMinutes);
    assert forall i, j :: 0 <= i < j < |regions| ==>
      (SameOn(trimmed.regions[regions[i]], trimmed.regions[regions[j]], window)
       <==> SameOn(snapshot.regions[regions[i]], snapshot.regions[regions[j]], grid));
  }

  lemma TrimKeepsZones(snapshot: CarbonSnapshot, regions: seq<string>, gate: GatePolicy, earliest: int, deadline: int,
                       slotMinutes: Option<int>)
    requires forall r :: r in regions ==> r in snapshot.regions
    ensures ZonesOk(Trim(snapshot, earliest, deadline, slotMinutes), regions, gate)
            <==> ZonesOk(snapshot, regions, gate)
  {
    var trimmed := Trim(snapshot, earliest, deadline, slotMinutes);
    assert forall r :: r in regions ==>
      (ZoneMatches(trimmed.regions[r], r, gate) <==> ZoneMatches(snapshot.regions[r], r, gate));
    assert forall i, j :: 0 <= i < j < |regions| ==>
      (ZonesApart(trimmed.regions[regions[i]], trimmed.regions[regions[j]])
       <==> ZonesApart(snapshot.regions[regions[i]], snapshot.regions[regions[j]]));
  }

  /** Exactly when trimming keeps the provenance verdict, for every slot: the
      zones clash already, or coincidence of some pair in the window and
      coincidence of some pair on the grid have the same truth value. */
  lemma TrimKeepsProvenanceIff(snapshot: CarbonSnapshot, regions: seq<string>, gate: GatePolicy, earliest: int,
                               deadline: int,
                               slotMinutes: Option<int>)
    requires forall r :: r in regions ==> r in snapshot.regions
    ensures (ProvenanceOk(Trim(snapshot, earliest, deadline, slotMinutes), regions, gate, earliest, deadline)
             <==> ProvenanceOk(snapshot, regions, gate, earliest, deadline))
            <==> || !ZonesOk(snapshot, regions, gate)
                 || (SomePairSame(snapshot, regions, Test(earliest, deadline, None))
                     <==> SomePairSame(snapshot, regions, Test(earliest, deadline, GridOf(slotMinutes))))
  {
    ProvenanceIff(snapshot, regions, gate, earliest, deadline);
    TrimmedProvenanceIff(snapshot, regions, gate, earliest, deadline, slotMinutes);
  }

  /** A two-region snapshot whose current observations agree. */
  function TwoFeeds(a: seq<CarbonPoint>, b: seq<CarbonPoint>): CarbonSnapshot {
    var current := CarbonPoint(0, 5.0);
    CarbonSnapshot("s", 0,
      map["a" := CarbonRegionData("A", None, Replay, current, a, 0, None, None, None),
          "b" := CarbonRegionData("B", None, Replay, current, b, 0, None, None, None)])
  }

  lemma KeptPair(x: CarbonPoint, y: CarbonPoint, test: CarbonPoint -> bool)
    ensures Kept([x], test) == if test(x) then [x] else []
    ensures Kept([x, y], test) == Kept([x], test) + if test(y) then [y] else []
  {
    assert [x, y][..1] == [x] && [x][..0] == [];
  }

  /** With no zones configured the zones of two such feeds are fine, and they
      coincide exactly when they keep the same points, and some. */
  lemma TwoFeedsPair(a: seq<CarbonPoint>, b: seq<CarbonPoint>, gate: GatePolicy, test: CarbonPoint -> bool)
    requires gate.expectedProviderRegions == map[] && gate.expectedZones == map[]
    ensures ZonesOk(TwoFeeds(a, b), ["a", "b"], gate)
    ensures SomePairSame(TwoFeeds(a, b), ["a", "b"], test) <==> Kept(a, test) == Kept(b, test) != []
  {
    var snapshot, regions := TwoFeeds(a, b), ["a", "b"];
    assert regions[0] == "a" && regions[1] == "b";
    assert SameOn(snapshot.regions[regions[0]], snapshot.regions[regions[1]], test)
      <==> Kept(a, test) == Kept(b, test) != [];
  }

  /** The verdict does change: feeds that differ only off the grid pass
      untrimmed and are rejected once trimmed. */
  lemma GridTrimCanReject(gate: GatePolicy, first: CarbonPoint, other: CarbonPoint, second: CarbonPoint)
    requires gate.expectedProviderRegions == map[] && gate.expectedZones == map[]
    requires first.timestamp == other.timestamp == 150 * SECOND && second.timestamp == 300 * SECOND
    requires first != other
    ensures var snapshot := TwoFeeds([first, second], [other, second]);
            && ProvenanceOk(snapshot, ["a", "b"], gate, 0, 600 * SECOND)
            && !ProvenanceOk(Trim(snapshot, 0, 600 * SECOND, Some(5)), ["a", "b"], gate, 0, 600 * SECOND)
  {
    var a, b, deadline := [first, second], [other, second], 600 * SECOND;
    OffTheGrid(first, second);
    OffTheGrid(other, second);
    assert ProvenanceOk(TwoFeeds(a, b), ["a", "b"], gate, 0, deadline) by {
      var window := Test(0, deadline, None);
      KeptPair(first, second, window);
      KeptPair(other, second, window);
      assert Kept(a, window)[0] != Kept(b, window)[0];
      TwoFeedsPair(a, b, gate, window);
      ProvenanceIff(TwoFeeds(a, b), ["a", "b"], gate, 0, deadline);
    }
    var grid := Test(0, deadline, GridOf(Some(5)));
    KeptPair(first, second, grid);
    KeptPair(other, second, grid);
    TwoFeedsPair(a, b, gate, grid);
    TrimmedProvenanceIff(TwoFeeds(a, b), ["a", "b"], gate, 0, deadline, Some(5));
  }

  /** In the other direction, identical feeds whose only forecast point is off
      the grid are rejected untrimmed and too short to compare once trimmed. */
  lemma GridTrimCanAdmit(gate: GatePolicy, first: CarbonPoint)
    requires gate.expectedProviderRegions == map[] && gate.expectedZones == map[]
    requires first.timestamp == 150 * SECOND
    ensures var snapshot := TwoFeeds([first], [first]);
            && !ProvenanceOk(snapshot, ["a", "b"], gate, 0, 600 * SECOND)
            && ProvenanceOk(Trim(snapshot, 0, 600 * SECOND, Some(5)), ["a", "b"], gate, 0, 600 * SECOND)
  {
    var feeds, deadline := TwoFeeds([first], [first]), 600 * SECOND;
    var window, grid := Test(0, deadline, None), Test(0, deadline, GridOf(Some(5)));
    OffTheGrid(first, CarbonPoint(300 * SECOND, 0.0));
    KeptPair(first, first, window);
    KeptPair(first, first, grid);
    TwoFeedsPair([first], [first], gate, window);
    TwoFeedsPair([first], [first], gate, grid);
    ProvenanceIff(feeds, ["a", "b"], gate, 0, deadline);
    TrimmedProvenanceIff(feeds, ["a", "b"], gate, 0, deadline, Some(5));
  }

  lemma OffTheGrid(first: CarbonPoint, second: CarbonPoint)
    requires first.timestamp == 150 * SECOND && second.timestamp == 300 * SECOND
    ensures !Test(0, 600 * SECOND, GridOf(Some(5)))(first) && Test(0, 600 * SECOND, GridOf(Some(5)))(second)
    ensures Test(0, 600 * SECOND, None)(first) && Test(0, 600 * SECOND, None)(second)
  {
    assert Remainder(150 * SECOND, 300 * SECOND) == 150 * SECOND && Remainder(300 * SECOND, 300 * SECOND) == 0;
  }
}
