/** The station-pair route engine: for every origin station and destination
    station it assembles one journey of three legs (access, metro ride,
    egress), prices it, and returns the fastest journeys, cheapest first
    among equally fast ones. */
module Engine {

  import opened Wrappers
  import opened Text
  import opened Model
  import opened Variant
  import opened Ordering
  import opened Fare
  import opened Summary
  import opened Nearest

  /** The engine's settings; the deployed defaults are `DefaultConfig`. */
  datatype Config = Config(topStations: nat, walkThresholdMeters: int, autoRatePerKmRs: real, maxVariants: nat)

  function DefaultConfig(): Config {
    Config(3, 400, 12.0, 9)
  }

  /** One call of the directions provider: endpoints, mode, departure time
      (epoch seconds, 0 for "not set") and display names. */
  datatype LegRequest = LegRequest(from: Coordinate, to: Coordinate, mode: string, departureTime: int,
                                   fromName: Option<string>, toName: Option<string>)

  /** The query of one engine run. The departure time is read from the clock
      once per run; here it is an input. */
  datatype Query = Query(origin: Coordinate, dest: Coordinate, originName: Option<string>,
                         destName: Option<string>, departure: int)

  /** The three legs of one journey. */
  datatype Journey = Journey(access: RouteLeg, transit: RouteLeg, egress: RouteLeg)

  /** An access or egress hop and the provider calls made to choose it. */
  datatype Hop = Hop(leg: Option<RouteLeg>, requests: seq<LegRequest>)

  /** What trying one station pair produced and which provider calls it made. */
  datatype PairOutcome = PairOutcome(journey: Option<Journey>, requests: seq<LegRequest>)

  function WalkRequest(from: Coordinate, to: Coordinate, fromName: Option<string>, toName: Option<string>): LegRequest {
    LegRequest(from, to, "walking", 0, fromName, toName)
  }

  function DriveRequest(from: Coordinate, to: Coordinate, fromName: Option<string>, toName: Option<string>): LegRequest {
    LegRequest(from, to, "driving", 0, fromName, toName)
  }

  function TransitRequest(so: NearbyStation, sd: NearbyStation, departure: int): LegRequest {
    LegRequest(so.Position(), sd.Position(), "transit", departure, so.name, sd.name)
  }

  /** The walk-or-drive rule for a hop: walk unless the walk is missing or
      longer than the threshold; then drive, except that a too-long walk is
      kept when no drive comes back. */
  function SelectHop(fetch: LegRequest -> Option<RouteLeg>, threshold: int, from: Coordinate, to: Coordinate,
                     fromName: Option<string>, toName: Option<string>): (h: Hop)
    ensures var walk := WalkRequest(from, to, fromName, toName);
            var drive := DriveRequest(from, to, fromName, toName);
            var tooFar := fetch(walk).None? || fetch(walk).value.distanceMeters > threshold;
            && (tooFar ==> h.requests == [walk, drive])
            && (!tooFar ==> h.requests == [walk] && h.leg == fetch(walk))
            && (tooFar && fetch(drive).Some? ==> h.leg == fetch(drive))
            && (tooFar && fetch(drive).None? ==> h.leg == fetch(walk))
            && (h.leg.None? <==> fetch(walk).None? && fetch(drive).None?)
  {
    var walk := WalkRequest(from, to, fromName, toName);
    var drive := DriveRequest(from, to, fromName, toName);
    var walked := fetch(walk);
    if walked.None? then Hop(fetch(drive), [walk, drive])
    else if walked.value.distanceMeters > threshold then
      var driven := fetch(drive);
      Hop(if driven.Some? then driven else walked, [walk, drive])
    else Hop(walked, [walk])
  }

  /** The four cases of the hop rule, one by one. */
  lemma HopCases(fetch: LegRequest -> Option<RouteLeg>, threshold: int, from: Coordinate, to: Coordinate,
                 fromName: Option<string>, toName: Option<string>)
    ensures var walk := WalkRequest(from, to, fromName, toName);
            var drive := DriveRequest(from, to, fromName, toName);
            var h := SelectHop(fetch, threshold, from, to, fromName, toName);
            && (fetch(walk).None? ==> h.leg == fetch(drive))
            && ((fetch(walk).Some? && fetch(walk).value.distanceMeters > threshold && fetch(drive).Some?)
                  ==> h.leg == fetch(drive))
            && ((fetch(walk).Some? && fetch(walk).value.distanceMeters > threshold && fetch(drive).None?)
                  ==> h.leg == fetch(walk))
            && ((fetch(walk).Some? && fetch(walk).value.distanceMeters <= threshold)
                  ==> h.leg == fetch(walk) && drive !in h.requests)
  {
  }

  function AccessHop(fetch: LegRequest -> Option<RouteLeg>, cfg: Config, q: Query, so: NearbyStation): Hop {
    SelectHop(fetch, cfg.walkThresholdMeters, q.origin, so.Position(), q.originName, so.name)
  }

  function EgressHop(fetch: LegRequest -> Option<RouteLeg>, cfg: Config, q: Query, sd: NearbyStation): Hop {
    SelectHop(fetch, cfg.walkThresholdMeters, sd.Position(), q.dest, sd.name, q.destName)
  }

  /** Every call the engine makes is a walking or driving call without a
      departure time, or a transit call at the run's departure time. */
  predicate WellTimed(rq: LegRequest, departure: int) {
    || (rq.mode in {"walking", "driving"} && rq.departureTime == 0)
    || (rq.mode == "transit" && rq.departureTime == departure)
  }

  /** One iteration of the pair loop: the access hop, then the metro ride,
      then the egress hop, giving up at the first missing leg. */
  function TryPair(fetch: LegRequest -> Option<RouteLeg>, cfg: Config, q: Query,
                   so: NearbyStation, sd: NearbyStation): (r: PairOutcome)
    ensures var access := AccessHop(fetch, cfg, q, so);
            var ride := fetch(TransitRequest(so, sd, q.departure));
            var egress := EgressHop(fetch, cfg, q, sd);
            && (r.journey.Some? <==> access.leg.Some? && ride.Some? && egress.leg.Some?)
            && (r.journey.Some? ==>
                  r.journey.value == Journey(access.leg.value, ride.value, egress.leg.value))
    ensures forall i :: 0 <= i < |r.requests| ==> WellTimed(r.requests[i], q.departure)
    ensures forall i :: 0 <= i < |r.requests| && r.requests[i].mode == "transit" ==>
              r.requests[i] == TransitRequest(so, sd, q.departure)
  {
    var access := AccessHop(fetch, cfg, q, so);
    if access.leg.None? then PairOutcome(None, access.requests)
    else
      var ask := TransitRequest(so, sd, q.departure);
      var ride := fetch(ask);
      if ride.None? then PairOutcome(None, access.requests + [ask])
      else
        var egress := EgressHop(fetch, cfg, q, sd);
        var asked := access.requests + [ask] + egress.requests;
        if egress.leg.None? then PairOutcome(None, asked)
        else PairOutcome(Some(Journey(access.leg.value, ride.value, egress.leg.value)), asked)
  }

  /** The leg list of a journey, as stored in a variant. */
  function JourneyLegs(j: Journey): seq<Option<RouteLeg>> {
    [Some(j.access), Some(j.transit), Some(j.egress)]
  }

  /** The per-km auto fare a leg adds: only legs whose mode is "driving",
      in any letter case, are charged. */
  function DriveFare(leg: RouteLeg, ratePerKm: real): (r: real)
    ensures r == r.Floor as real
    ensures r != 0.0 ==> leg.mode.Some? && EqualsIgnoreCase(leg.mode.value, "driving")
    ensures leg.mode.Some? && EqualsIgnoreCase(leg.mode.value, "driving") ==>
              var x := (leg.distanceMeters as real) / 1000.0 * ratePerKm;
              r - 0.5 <= x < r + 0.5
    ensures leg.distanceMeters >= 0 && ratePerKm >= 0.0 ==> r >= 0.0
  {
    if leg.mode.Some? && EqualsIgnoreCase(leg.mode.value, "driving") then AutoFare(leg.distanceMeters, ratePerKm) as real
    else 0.0
  }

  /** The totals loop: null entries are skipped. */
  function SumDuration(legs: seq<Option<RouteLeg>>): int {
    if |legs| == 0 then 0
    else (if legs[0].Some? then legs[0].value.durationSeconds else 0) + SumDuration(legs[1..])
  }

  function SumDistance(legs: seq<Option<RouteLeg>>): int {
    if |legs| == 0 then 0
    else (if legs[0].Some? then legs[0].value.distanceMeters else 0) + SumDistance(legs[1..])
  }

  /** The driving-fare loop: null entries are skipped. */
  function DrivingFares(legs: seq<Option<RouteLeg>>, ratePerKm: real): real {
    if |legs| == 0 then 0.0
    else (if legs[0].Some? then DriveFare(legs[0].value, ratePerKm) else 0.0) + DrivingFares(legs[1..], ratePerKm)
  }

  /** The part of every id that comes from the run's counter. */
  function Serial(n: nat): string {
    "r" + NatToString(n) + "-"
  }

  /** A station's part of an id: its place id, else its name (which prints
      as "null" when missing). */
  function StationTag(s: NearbyStation): string {
    if s.placeId.Some? then s.placeId.value else OrNull(s.name)
  }

  function VariantId(n: nat, so: NearbyStation, sd: NearbyStation): string {
    Serial(n) + StationTag(so) + "-" + StationTag(sd)
  }

  predicate HasSerial(v: RouteVariant, n: nat) {
    v.id.Some? && |Serial(n)| <= |v.id.value| && v.id.value[..|Serial(n)|] == Serial(n)
  }

  /** What the engine promises about a variant built from journey `j`:
      the three legs in order and nothing in the legacy slots; totals are the
      sums over the three legs; the cost is the metro fare plus the auto fare
      of each driving leg; the summary describes the three legs. */
  predicate Carries(v: RouteVariant, j: Journey, ratePerKm: real) {
    && v.piece1.None? && v.piece2.None? && v.piece3.None?
    && v.legs == Some([Some(j.access), Some(j.transit), Some(j.egress)])
    && v.totalDurationSeconds == j.access.durationSeconds + j.transit.durationSeconds + j.egress.durationSeconds
    && v.totalDistanceMeters == (j.access.distanceMeters + j.transit.distanceMeters + j.egress.distanceMeters) as real
    && v.totalCostRs == ParseFare(j.transit.fareText)
                        + DriveFare(j.access, ratePerKm) + DriveFare(j.transit, ratePerKm) + DriveFare(j.egress, ratePerKm)
    && v.summaryText == Some(BuildSummaryText(Some(j.access), Some(j.transit), Some(j.egress)))
  }

  /** A variant the engine may emit: exactly three present legs, and the
      totals, cost and summary those legs call for. */
  predicate Emitted(v: RouteVariant, ratePerKm: real) {
    && v.legs.Some? && |v.legs.value| == 3
    && v.legs.value[0].Some? && v.legs.value[1].Some? && v.legs.value[2].Some?
    && Carries(v, Journey(v.legs.value[0].value, v.legs.value[1].value, v.legs.value[2].value), ratePerKm)
  }

  /** The variant of one surviving pair, built with the setters on a fresh
      object in the engine's order. */
  function BuildVariant(n: nat, so: NearbyStation, sd: NearbyStation, j: Journey, ratePerKm: real): (v: RouteVariant)
    ensures Carries(v, j, ratePerKm) && Emitted(v, ratePerKm)
    ensures v.id == Some(VariantId(n, so, sd)) && HasSerial(v, n)
  {
    var legs := JourneyLegs(j);
    var v1 := SetId(Fresh(), Some(VariantId(n, so, sd)));
    var v2 := SetLegs(v1, Some(legs));
    var cost := 0.0 + ParseFare(j.transit.fareText) + DrivingFares(legs, ratePerKm);
    var v3 := SetTotalDurationSeconds(v2, SumDuration(legs));
    var v4 := SetTotalDistanceMeters(v3, SumDistance(legs) as real);
    var v5 := SetTotalCostRs(v4, cost);
    JourneyTotals(j, ratePerKm);
    IdStartsWithSerial(n, so, sd);
    SetSummaryText(v5, Some(BuildSummaryText(Some(j.access), Some(j.transit), Some(j.egress))))
  }

  /** The totals loops over a journey's three legs add up those legs. */
  lemma JourneyTotals(j: Journey, ratePerKm: real)
    ensures SumDuration(JourneyLegs(j)) == j.access.durationSeconds + j.transit.durationSeconds + j.egress.durationSeconds
    ensures SumDistance(JourneyLegs(j)) == j.access.distanceMeters + j.transit.distanceMeters + j.egress.distanceMeters
    ensures DrivingFares(JourneyLegs(j), ratePerKm)
            == DriveFare(j.access, ratePerKm) + DriveFare(j.transit, ratePerKm) + DriveFare(j.egress, ratePerKm)
  {
    var legs := JourneyLegs(j);
    var last := legs[1..][1..];
    assert legs[1..] == [Some(j.transit), Some(j.egress)];
    assert last == [Some(j.egress)];
    assert last[1..] == [];
    assert SumDuration(last) == j.egress.durationSeconds;
    assert SumDistance(last) == j.egress.distanceMeters;
    assert DrivingFares(last, ratePerKm) == DriveFare(j.egress, ratePerKm);
    assert SumDuration(legs[1..]) == j.transit.durationSeconds + j.egress.durationSeconds;
    assert SumDistance(legs[1..]) == j.transit.distanceMeters + j.egress.distanceMeters;
    assert DrivingFares(legs[1..], ratePerKm) == DriveFare(j.transit, ratePerKm) + DriveFare(j.egress, ratePerKm);
  }

  lemma IdStartsWithSerial(n: nat, so: NearbyStation, sd: NearbyStation)
    ensures var id := VariantId(n, so, sd);
            |Serial(n)| <= |id| && id[..|Serial(n)|] == Serial(n)
  {
    var tail := StationTag(so) + "-" + StationTag(sd);
    assert VariantId(n, so, sd) == Serial(n) + tail;
    assert (Serial(n) + tail)[..|Serial(n)|] == Serial(n);
  }

  /** The station pairs in loop order: every destination station for the
      first origin station, then for the second, and so on. */
  function Pairs(os: seq<NearbyStation>, ds: seq<NearbyStation>): (r: seq<(NearbyStation, NearbyStation)>)
    ensures |r| == |os| * |ds|
  {
    if |os| == 0 then []
    else
      var row := seq(|ds|, j requires 0 <= j < |ds| => (os[0], ds[j]));
      var rest := Pairs(os[1..], ds);
      assert |os| * |ds| == |ds| + (|os| - 1) * |ds|;
      row + rest
  }

  /** Pair `(i, j)` is visited at step `i * |ds| + j`. */
  lemma {:induction false} PairsIndex(os: seq<NearbyStation>, ds: seq<NearbyStation>, i: nat, j: nat)
    requires i < |os| && j < |ds|
    ensures i * |ds| + j < |Pairs(os, ds)|
    ensures Pairs(os, ds)[i * |ds| + j] == (os[i], ds[j])
  {
    var n := |ds|;
    MulMono(i, |os| - 1, n, n);
    MulStep(|os|, n);
    if i > 0 {
      PairsIndex(os[1..], ds, i - 1, j);
      MulStep(i, n);
      var rest := Pairs(os[1..], ds);
      assert Pairs(os, ds)[n + ((i - 1) * n + j)] == rest[(i - 1) * n + j];
    }
  }

  lemma MulStep(i: nat, n: nat)
    requires i > 0
    ensures i * n == n + (i - 1) * n
  {
  }

  /** The pair loop from pair `pairs[0]` on, with `next` the counter's
      current value: one variant per surviving pair, in loop order, numbered
      consecutively. */
  function Collect(fetch: LegRequest -> Option<RouteLeg>, cfg: Config, q: Query,
                   pairs: seq<(NearbyStation, NearbyStation)>, next: nat): (r: seq<RouteVariant>)
    ensures |r| <= |pairs|
  {
    if |pairs| == 0 then []
    else
      var out := TryPair(fetch, cfg, q, pairs[0].0, pairs[0].1);
      if out.journey.None? then Collect(fetch, cfg, q, pairs[1..], next)
      else
        [BuildVariant(next, pairs[0].0, pairs[0].1, out.journey.value, cfg.autoRatePerKmRs)]
        + Collect(fetch, cfg, q, pairs[1..], next + 1)
  }

  /** Every provider call of the pair loop, in order. */
  function RequestLog(fetch: LegRequest -> Option<RouteLeg>, cfg: Config, q: Query,
                      pairs: seq<(NearbyStation, NearbyStation)>): (log: seq<LegRequest>)
    ensures forall i :: 0 <= i < |log| ==> WellTimed(log[i], q.departure)
  {
    if |pairs| == 0 then []
    else TryPair(fetch, cfg, q, pairs[0].0, pairs[0].1).requests + RequestLog(fetch, cfg, q, pairs[1..])
  }

  /** A station pair that yields a journey, with that journey. */
  datatype Survivor = Survivor(so: NearbyStation, sd: NearbyStation, journey: Journey)

  /** The pairs that yield a journey, in loop order. */
  function Survivors(fetch: LegRequest -> Option<RouteLeg>, cfg: Config, q: Query,
                     pairs: seq<(NearbyStation, NearbyStation)>): (r: seq<Survivor>)
    ensures |r| <= |pairs|
  {
    if |pairs| == 0 then []
    else
      var out := TryPair(fetch, cfg, q, pairs[0].0, pairs[0].1);
      (if out.journey.Some? then [Survivor(pairs[0].0, pairs[0].1, out.journey.value)] else [])
      + Survivors(fetch, cfg, q, pairs[1..])
  }

  /** A pair survives exactly when all three of its legs come back. */
  lemma {:induction false} SurvivorsMembers(fetch: LegRequest -> Option<RouteLeg>, cfg: Config, q: Query,
                                            pairs: seq<(NearbyStation, NearbyStation)>, s: Survivor)
    ensures s in Survivors(fetch, cfg, q, pairs)
            <==> (s.so, s.sd) in pairs && TryPair(fetch, cfg, q, s.so, s.sd).journey == Some(s.journey)
  {
    if |pairs| > 0 {
      SurvivorsMembers(fetch, cfg, q, pairs[1..], s);
      assert pairs == [pairs[0]] + pairs[1..];
    }
  }

  /** `build` applied to each element of `s` together with a counter that
      starts at `next` and goes up by one per element. */
  function Numbered<S, V>(s: seq<S>, next: nat, build: (nat, S) -> V): (r: seq<V>)
    ensures |r| == |s|
  {
    if |s| == 0 then []
    else [build(next, s[0])] + Numbered(s[1..], next + 1, build)
  }

  /** The `i`-th element is built with counter value `next + i`. */
  lemma {:induction false} NumberedIndex<S, V>(s: seq<S>, next: nat, build: (nat, S) -> V, i: nat)
    requires i < |s|
    ensures Numbered(s, next, build)[i] == build(next + i, s[i])
  {
    if i > 0 {
      NumberedIndex(s[1..], next + 1, build, i - 1);
      assert s[1..][i - 1] == s[i];
    }
  }

  /** The variant builder the pair loop applies to each survivor. */
  function Builder(ratePerKm: real): (nat, Survivor) -> RouteVariant {
    (n: nat, x: Survivor) => BuildVariant(n, x.so, x.sd, x.journey, ratePerKm)
  }

  /** The pair loop emits, in order, one variant per surviving pair, the
      `i`-th numbered `next + i`. */
  lemma {:induction false} CollectNumbersSurvivors(fetch: LegRequest -> Option<RouteLeg>, cfg: Config, q: Query,
                                                   pairs: seq<(NearbyStation, NearbyStation)>, next: nat)
    ensures Collect(fetch, cfg, q, pairs, next) == Numbered(Survivors(fetch, cfg, q, pairs), next, Builder(cfg.autoRatePerKmRs))
  {
    if |pairs| > 0 {
      var out := TryPair(fetch, cfg, q, pairs[0].0, pairs[0].1);
      var srest := Survivors(fetch, cfg, q, pairs[1..]);
      if out.journey.None? {
        CollectNumbersSurvivors(fetch, cfg, q, pairs[1..], next);
        assert Survivors(fetch, cfg, q, pairs) == [] + srest == srest;
        assert Collect(fetch, cfg, q, pairs, next) == Collect(fetch, cfg, q, pairs[1..], next);
      } else {
        CollectNumbersSurvivors(fetch, cfg, q, pairs[1..], next + 1);
        var head := Survivor(pairs[0].0, pairs[0].1, out.journey.value);
        assert Survivors(fetch, cfg, q, pairs) == [head] + srest;
        var v := BuildVariant(next, head.so, head.sd, head.journey, cfg.autoRatePerKmRs);
        assert ([head] + srest)[0] == head && ([head] + srest)[1..] == srest;
        assert Numbered([head] + srest, next, Builder(cfg.autoRatePerKmRs))
               == [v] + Numbered(srest, next + 1, Builder(cfg.autoRatePerKmRs));
        assert Collect(fetch, cfg, q, pairs, next) == [v] + Collect(fetch, cfg, q, pairs[1..], next + 1);
      }
    }
  }

  /** Every variant of the pair loop is well formed. */
  lemma CollectEmitted(fetch: LegRequest -> Option<RouteLeg>, cfg: Config, q: Query,
                       pairs: seq<(NearbyStation, NearbyStation)>, next: nat)
    ensures forall i :: 0 <= i < |Collect(fetch, cfg, q, pairs, next)| ==>
              Emitted(Collect(fetch, cfg, q, pairs, next)[i], cfg.autoRatePerKmRs)
  {
    CollectNumbersSurvivors(fetch, cfg, q, pairs, next);
    NumberedEmitted(Survivors(fetch, cfg, q, pairs), next, cfg.autoRatePerKmRs);
  }

  /** The `i`-th variant of the pair loop carries counter value `next + i`. */
  lemma CollectSerials(fetch: LegRequest -> Option<RouteLeg>, cfg: Config, q: Query,
                       pairs: seq<(NearbyStation, NearbyStation)>, next: nat)
    ensures forall i :: 0 <= i < |Collect(fetch, cfg, q, pairs, next)| ==>
              HasSerial(Collect(fetch, cfg, q, pairs, next)[i], next + i)
  {
    CollectNumbersSurvivors(fetch, cfg, q, pairs, next);
    NumberedSerials(Survivors(fetch, cfg, q, pairs), next, cfg.autoRatePerKmRs);
  }

  /** Every variant built from survivors is well formed. */
  lemma NumberedEmitted(s: seq<Survivor>, next: nat, ratePerKm: real)
    ensures forall i :: 0 <= i < |Numbered(s, next, Builder(ratePerKm))| ==>
              Emitted(Numbered(s, next, Builder(ratePerKm))[i], ratePerKm)
  {
    var r := Numbered(s, next, Builder(ratePerKm));
    forall i | 0 <= i < |r|
      ensures Emitted(r[i], ratePerKm)
    {
      NumberedIndex(s, next, Builder(ratePerKm), i);
      BuilderMakes(ratePerKm, next + i, s[i]);
    }
  }

  /** The `i`-th variant built from survivors carries counter value `next + i`. */
  lemma NumberedSerials(s: seq<Survivor>, next: nat, ratePerKm: real)
    ensures forall i :: 0 <= i < |Numbered(s, next, Builder(ratePerKm))| ==>
              HasSerial(Numbered(s, next, Builder(ratePerKm))[i], next + i)
  {
    var r := Numbered(s, next, Builder(ratePerKm));
    forall i | 0 <= i < |r|
      ensures HasSerial(r[i], next + i)
    {
      NumberedIndex(s, next, Builder(ratePerKm), i);
      BuilderMakes(ratePerKm, next + i, s[i]);
    }
  }

  /** What the builder promises for one survivor. */
  lemma BuilderMakes(ratePerKm: real, n: nat, x: Survivor)
    ensures Emitted(Builder(ratePerKm)(n, x), ratePerKm) && HasSerial(Builder(ratePerKm)(n, x), n)
  {
    var v := BuildVariant(n, x.so, x.sd, x.journey, ratePerKm);
    assert Builder(ratePerKm)(n, x) == v;
  }

  /** When the provider answers every call, every pair yields a variant. */
  lemma {:induction false} AllAnsweredAllEmitted(fetch: LegRequest -> Option<RouteLeg>, cfg: Config, q: Query,
                                                 pairs: seq<(NearbyStation, NearbyStation)>, next: nat)
    requires forall rq: LegRequest :: fetch(rq).Some?
    ensures |Collect(fetch, cfg, q, pairs, next)| == |pairs|
  {
    if |pairs| > 0 {
      AllAnsweredAllEmitted(fetch, cfg, q, pairs[1..], next + 1);
    }
  }

  /** Without any metro ride there is no journey at all. */
  lemma {:induction false} NoRideNoRoutes(fetch: LegRequest -> Option<RouteLeg>, cfg: Config, q: Query,
                                          pairs: seq<(NearbyStation, NearbyStation)>, next: nat)
    requires forall rq: LegRequest :: rq.mode == "transit" ==> fetch(rq).None?
    ensures Collect(fetch, cfg, q, pairs, next) == []
  {
    if |pairs| > 0 {
      NoRideNoRoutes(fetch, cfg, q, pairs[1..], next);
    }
  }

  /** Where a serial sits in an id: digits from position 1, then '-'. */
  lemma SerialLayout(id: string, n: nat)
    requires |Serial(n)| <= |id| && id[..|Serial(n)|] == Serial(n)
    ensures |NatToString(n)| + 2 <= |id|
    ensures id[1 + |NatToString(n)|] == '-'
    ensures forall k :: 1 <= k < 1 + |NatToString(n)| ==> IsDigit(id[k])
    ensures id[1..1 + |NatToString(n)|] == NatToString(n)
  {
    var a := NatToString(n);
    forall k | 1 <= k < 1 + |a|
      ensures IsDigit(id[k])
    {
      assert id[k] == Serial(n)[k] == a[k - 1];
    }
    assert id[1 + |a|] == Serial(n)[1 + |a|];
    assert id[1..1 + |a|] == Serial(n)[1..1 + |a|];
  }

  /** Counter values `m` and `n` cannot both start the same id unless they
      are equal: the digits run up to the first '-'. */
  lemma SerialDetermined(id: string, m: nat, n: nat)
    requires |Serial(m)| <= |id| && id[..|Serial(m)|] == Serial(m)
    requires |Serial(n)| <= |id| && id[..|Serial(n)|] == Serial(n)
    ensures m == n
  {
    SerialLayout(id, m);
    SerialLayout(id, n);
    assert |NatToString(m)| == |NatToString(n)|;
    NatToStringInjective(m, n);
  }

  function IdOf(v: RouteVariant): Option<string> {
    v.id
  }

  /** Variants numbered consecutively have pairwise distinct ids. */
  lemma SerialsDistinct(r: seq<RouteVariant>, next: nat)
    requires forall i :: 0 <= i < |r| ==> HasSerial(r[i], next + i)
    ensures DistinctBy(r, IdOf)
  {
    forall i, j | 0 <= i < j < |r|
      ensures IdOf(r[i]) != IdOf(r[j])
    {
      if r[i].id == r[j].id {
        SerialDetermined(r[i].id.value, next + i, next + j);
      }
    }
  }

  /** Consecutive serials make the ids of the pair loop distinct. */
  lemma CollectIdsDistinct(fetch: LegRequest -> Option<RouteLeg>, cfg: Config, q: Query,
                           pairs: seq<(NearbyStation, NearbyStation)>, next: nat)
    ensures DistinctBy(Collect(fetch, cfg, q, pairs, next), IdOf)
  {
    CollectSerials(fetch, cfg, q, pairs, next);
    SerialsDistinct(Collect(fetch, cfg, q, pairs, next), next);
  }

  /** The ranking key: duration, then cost. */
  function RankKey(v: RouteVariant): Key {
    Key(v.totalDurationSeconds, v.totalCostRs)
  }

  /** The routes for given station lists: the pair loop, counter starting at
      1, then the stable sort by (duration, cost) and the first
      `maxVariants`. */
  function RoutesFor(fetch: LegRequest -> Option<RouteLeg>, cfg: Config, q: Query,
                     os: seq<NearbyStation>, ds: seq<NearbyStation>): (r: seq<RouteVariant>)
    ensures |r| <= cfg.maxVariants && |r| <= |os| * |ds|
    ensures |os| == 0 || |ds| == 0 ==> r == []
    ensures Sorted(r, RankKey)
    ensures forall i :: 0 <= i < |r| ==> Emitted(r[i], cfg.autoRatePerKmRs)
    ensures DistinctBy(r, IdOf)
  {
    var cands := Collect(fetch, cfg, q, Pairs(os, ds), 1);
    var sorted := SortBy(cands, RankKey);
    var r := Take(sorted, cfg.maxVariants);
    PrefixSorted(sorted, |r|, RankKey);
    CollectIdsDistinct(fetch, cfg, q, Pairs(os, ds), 1);
    SortByKeepsDistinct(cands, RankKey, IdOf);
    CollectEmitted(fetch, cfg, q, Pairs(os, ds), 1);
    EmittedSurviveSort(cands, cfg.autoRatePerKmRs);
    assert |sorted| == |multiset(sorted)| == |multiset(cands)| == |cands|;
    assert |cands| <= |os| * |ds| by {
      assert |cands| <= |Pairs(os, ds)|;
    }
    assert |os| == 0 || |ds| == 0 ==> |os| * |ds| == 0;
    r
  }

  lemma EmittedSurviveSort(cands: seq<RouteVariant>, ratePerKm: real)
    requires forall i :: 0 <= i < |cands| ==> Emitted(cands[i], ratePerKm)
    ensures forall i :: 0 <= i < |SortBy(cands, RankKey)| ==> Emitted(SortBy(cands, RankKey)[i], ratePerKm)
  {
    var sorted := SortBy(cands, RankKey);
    forall i | 0 <= i < |sorted|
      ensures Emitted(sorted[i], ratePerKm)
    {
      assert sorted[i] in multiset(cands);
    }
  }

  /** The routes are exactly the first `min(maxVariants, n)` entries of the
      stable sort of the pair loop's variants: ascending by duration, then
      cost, equal keys in loop order. */
  lemma RoutesArePrefixOfStableSort(fetch: LegRequest -> Option<RouteLeg>, cfg: Config, q: Query,
                                    os: seq<NearbyStation>, ds: seq<NearbyStation>)
    ensures var cands := Collect(fetch, cfg, q, Pairs(os, ds), 1);
            var r := RoutesFor(fetch, cfg, q, os, ds);
            && |r| == (if |cands| <= cfg.maxVariants then |cands| else cfg.maxVariants)
            && multiset(r) <= multiset(cands)
            && forall sorted :: IsStableSortOf(sorted, cands, RankKey) ==> r == sorted[..|r|]
  {
    var cands := Collect(fetch, cfg, q, Pairs(os, ds), 1);
    var sorted := SortBy(cands, RankKey);
    TakeSubMultiset(sorted, cfg.maxVariants);
    forall other | IsStableSortOf(other, cands, RankKey)
      ensures RoutesFor(fetch, cfg, q, os, ds) == other[..|RoutesFor(fetch, cfg, q, os, ds)|]
    {
      StableSortIsSortBy(other, cands, RankKey);
    }
  }

  /** `computeRoutes(oLat, oLng, dLat, dLng, originName, destName)`: look up
      the stations near both ends (origin first), then run the pair loop.
      A lookup exception escapes to the caller. */
  function ComputeRoutes(places: Coordinate -> PlacesReply, dist: (Coordinate, Coordinate) -> nat,
                         fetch: LegRequest -> Option<RouteLeg>, cfg: Config, q: Query): (r: Result<seq<RouteVariant>, LookupError>)
    ensures r.Failure? <==>
              FindNearestStations(places, dist, q.origin, cfg.topStations).Failure?
              || FindNearestStations(places, dist, q.dest, cfg.topStations).Failure?
    ensures r.Success? ==> |r.value| <= cfg.maxVariants && |r.value| <= cfg.topStations * cfg.topStations
    ensures r.Success? ==> Sorted(r.value, RankKey) && DistinctBy(r.value, IdOf)
    ensures r.Success? ==> forall i :: 0 <= i < |r.value| ==> Emitted(r.value[i], cfg.autoRatePerKmRs)
  {
    var os := FindNearestStations(places, dist, q.origin, cfg.topStations);
    if os.Failure? then Failure(os.error)
    else
      var ds := FindNearestStations(places, dist, q.dest, cfg.topStations);
      if ds.Failure? then Failure(ds.error)
      else
        var r := RoutesFor(fetch, cfg, q, os.value, ds.value);
        assert |os.value| * |ds.value| <= cfg.topStations * cfg.topStations by {
          MulMono(|os.value|, cfg.topStations, |ds.value|, cfg.topStations);
        }
        Success(r)
  }

  lemma MulMono(a: nat, b: nat, c: nat, d: nat)
    requires a <= b && c <= d
    ensures a * c <= b * d
  {
    assert a * c <= b * c;
    assert b * c <= b * d;
  }

  /** With no station near one end there is nothing to return, as long as
      neither lookup throws. */
  lemma NoStationsNoRoutes(places: Coordinate -> PlacesReply, dist: (Coordinate, Coordinate) -> nat,
                           fetch: LegRequest -> Option<RouteLeg>, cfg: Config, q: Query)
    requires FindNearestStations(places, dist, q.origin, cfg.topStations).Success?
    requires FindNearestStations(places, dist, q.dest, cfg.topStations).Success?
    requires FindNearestStations(places, dist, q.origin, cfg.topStations).value == []
             || FindNearestStations(places, dist, q.dest, cfg.topStations).value == []
    ensures ComputeRoutes(places, dist, fetch, cfg, q) == Success([])
  {
  }

  /** The entry point with lookups that degrade to "no stations" on a
      malformed reply: it never fails, and it returns what `ComputeRoutes`
      returns whenever that succeeds. */
  function ComputeRoutesDegrading(places: Coordinate -> PlacesReply, dist: (Coordinate, Coordinate) -> nat,
                                  fetch: LegRequest -> Option<RouteLeg>, cfg: Config, q: Query): (r: seq<RouteVariant>)
    ensures ComputeRoutes(places, dist, fetch, cfg, q).Success? ==> r == ComputeRoutes(places, dist, fetch, cfg, q).value
    ensures |r| <= cfg.maxVariants && |r| <= cfg.topStations * cfg.topStations
    ensures Sorted(r, RankKey) && DistinctBy(r, IdOf)
    ensures forall i :: 0 <= i < |r| ==> Emitted(r[i], cfg.autoRatePerKmRs)
  {
    var os := FindNearestStationsDegrading(places, dist, q.origin, cfg.topStations);
    var ds := FindNearestStationsDegrading(places, dist, q.dest, cfg.topStations);
    DegradingAgrees(places, dist, q.origin, cfg.topStations);
    DegradingAgrees(places, dist, q.dest, cfg.topStations);
    MulMono(|os|, cfg.topStations, |ds|, cfg.topStations);
    RoutesFor(fetch, cfg, q, os, ds)
  }

  /** A places reply that is not JSON no longer takes the whole computation
      down: with it at the origin there are simply no routes. */
  lemma UnparseableOriginGivesNoRoutes(places: Coordinate -> PlacesReply, dist: (Coordinate, Coordinate) -> nat,
                                       fetch: LegRequest -> Option<RouteLeg>, cfg: Config, q: Query)
    requires places(q.origin) == Unparseable
    ensures ComputeRoutes(places, dist, fetch, cfg, q) == Failure(MalformedBody)
    ensures ComputeRoutesDegrading(places, dist, fetch, cfg, q) == []
  {
    MalformedReplyEscapes(places, dist, q.origin, cfg.topStations);
  }
}
