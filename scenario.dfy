/** generate_scenario11_full: the airport pool, the fleet, the baseline and
    surge demand, the weather grounding, and the scenario document built
    from them, both as the generator writes it and as it evidently means. */
module Scenario {
  import opened Types
  import opened Geo
  import opened Grounding
  import opened Demand
  import opened Surge

  /** The DOE factors the generator reads. */
  datatype Config = Config(
    arrivalRate: Level,
    substitutes: int,
    scale: Level,
    geoDensity: Level,
    timeWindowDays: nat,
    weather: bool,
    event: bool,
    startTime: int)

  /** 2025-04-01T06:00:00Z in minutes since 1970-01-01T00:00:00Z. */
  const Scenario11Start: int := 29058120

  /** The factors of DOE run #11. */
  const Scenario11: Config := Config(Low, 0, Low, High, 1, true, true, Scenario11Start)

  /** First leg identifier of the weather grounding legs. */
  const WeatherStartingLegId: int := 50_000_000

  /** Airports sampled from the whole table under low geo density. */
  const LowDensitySampleSize: nat := 200

  const Description: string := "DOE Run #11 with Weather disruption"

  /** Every random choice of one run, in the order the generator makes them. */
  datatype Draws = Draws(
    lowDensitySample: seq<Icao>,
    tails: seq<TailDraw>,
    requests: seq<RequestDraw>,
    eventEpicenter: Icao,
    eventOrder: seq<Icao>,
    surge: seq<SurgeDraw>,
    weatherEpicenter: Icao)

  /** The airports requests and tails are drawn from. */
  function AirportPool(cfg: Config, coords: map<Icao, Coord>, dist: Distance, sample: seq<Icao>): set<Icao> {
    if cfg.geoDensity == High then NearHubs(GeoCenters, HubRadiusMiles, coords, dist)
    else set a | a in sample
  }

  /** The event airports, visited once each in `order`. */
  predicate Enumerates(order: seq<Icao>, s: set<Icao>) {
    Distinct(order) && (set a | a in order) == s
  }

  /** Each draw is a choice the generator can make at that point. */
  predicate ValidDraws(cfg: Config, coords: map<Icao, Coord>, usAirports: seq<Icao>, dist: Distance, d: Draws) {
    && (cfg.geoDensity != High ==>
          && |d.lowDensitySample| == LowDensitySampleSize
          && Distinct(d.lowDensitySample)
          && forall k :: 0 <= k < |d.lowDensitySample| ==> d.lowDensitySample[k] in coords)
    && var pool := AirportPool(cfg, coords, dist, d.lowDensitySample);
    && |d.tails| == FleetSize(cfg.scale)
    && (forall i :: 0 <= i < |d.tails| ==> ValidTailDraw(d.tails[i], pool))
    && |d.requests| == RequestCount(FleetSize(cfg.scale), cfg.arrivalRate, cfg.timeWindowDays)
    && (forall i :: 0 <= i < |d.requests| ==>
          ValidRequestDraw(d.requests[i], pool, cfg.timeWindowDays, cfg.substitutes))
    && (cfg.event ==>
          && d.eventEpicenter in usAirports
          && Enumerates(d.eventOrder, ShutdownSet(d.eventEpicenter, DisruptionRadiusMiles, coords, dist))
          && |d.surge| == 10 * |d.eventOrder|
          && forall k :: 0 <= k < |d.surge| ==>
               ValidSurgeDraw(d.surge[k], d.eventOrder[k / 10], pool, cfg.timeWindowDays))
    && (cfg.event && cfg.weather ==> d.weatherEpicenter in usAirports)
  }

  /** What the generator has computed when it assembles the document.
      `extra` is None when the extra-request list was never bound. */
  datatype Parts = Parts(
    tails: seq<Tail>,
    baseline: seq<Request>,
    depCounter: map<Icao, nat>,
    extra: Option<seq<Request>>,
    weatherLegs: seq<Leg>,
    epicenter: Option<Icao>,
    affected: set<Icao>)

  /** The weather summary; the affected airports are written sorted, which
      is not modelled. */
  datatype WeatherBlock = WeatherBlock(enabled: bool, epicenter: Option<Icao>, affectedAirports: set<Icao>)

  /** The scenario document; `legs` is None when the key is absent. */
  datatype ScenarioDoc = ScenarioDoc(
    tails: seq<Tail>,
    flightRequests: seq<Request>,
    legs: Option<seq<Leg>>,
    weather: WeatherBlock,
    description: string)

  datatype Outcome = Generated(doc: ScenarioDoc) | NameError(name: string)

  /** The document as the generator writes it: an unbound extra-request
      list stops it, the extra requests go in twice, and the Legs entry is
      the empty list rather than the grounding legs. */
  function AssembleAsWritten(cfg: Config, p: Parts): (r: Outcome)
    ensures r.NameError? <==> p.extra.None?
    ensures r.Generated? ==>
      && r.doc.tails == p.tails
      && |r.doc.flightRequests| == |p.baseline| + 2 * |p.extra.value|
      && (r.doc.legs.Some? <==> cfg.weather)
      && (cfg.weather ==> r.doc.legs.value == [])
  {
    match p.extra
    case None => NameError("extra_requests")
    case Some(extra) =>
      var requests := p.baseline + extra;
      Generated(ScenarioDoc(
        p.tails,
        requests + extra,
        if cfg.weather then Some([]) else None,
        WeatherBlock(cfg.weather, p.epicenter, p.affected),
        Description))
  }

  /** The document as evidently intended: no extra requests without an
      event, each extra request once, and the grounding legs under Legs. */
  function Assemble(cfg: Config, p: Parts): (r: ScenarioDoc)
    ensures r.tails == p.tails
    ensures |r.flightRequests| == |p.baseline| + (if p.extra.Some? then |p.extra.value| else 0)
    ensures r.flightRequests[..|p.baseline|] == p.baseline
    ensures p.extra.Some? ==> r.flightRequests[|p.baseline|..] == p.extra.value
    ensures r.legs.Some? <==> cfg.weather
    ensures cfg.weather ==> r.legs.value == p.weatherLegs
  {
    var extra := if p.extra.Some? then p.extra.value else [];
    ScenarioDoc(
      p.tails,
      p.baseline + extra,
      if cfg.weather then Some(p.weatherLegs) else None,
      WeatherBlock(cfg.weather, p.epicenter, p.affected),
      Description)
  }

  method GenerateScenario11Full(cfg: Config, coords: map<Icao, Coord>, usAirports: seq<Icao>, dist: Distance,
                                d: Draws)
    returns (parts: Parts, out: Outcome)
    requires ValidDraws(cfg, coords, usAirports, dist, d)
    ensures out == AssembleAsWritten(cfg, parts)
    ensures out.NameError? <==> !cfg.event
    ensures var pool := AirportPool(cfg, coords, dist, d.lowDensitySample);
      && |parts.tails| == FleetSize(cfg.scale)
      && (forall i :: 0 <= i < |parts.tails| ==> parts.tails[i] == MakeTail(i, d.tails[i]))
      && (forall i :: 0 <= i < |parts.tails| ==>
            parts.tails[i].tailNumber == 1000000 + i && parts.tails[i].currentLocation in pool)
      && |parts.baseline| == |parts.tails| * (if cfg.arrivalRate == Low then 2 else 4) * cfg.timeWindowDays
      && (forall k :: 0 <= k < |parts.baseline| ==>
            parts.baseline[k] == BaselineRequest(k + 1, d.requests[k], cfg.startTime, cfg.substitutes))
      && (forall k :: 0 <= k < |parts.baseline| ==>
            && parts.baseline[k].requestId == 50001 + k
            && parts.baseline[k].departureAirport in pool
            && parts.baseline[k].arrivalAirport in pool
            && parts.baseline[k].arrivalAirport != parts.baseline[k].departureAirport
            && cfg.startTime <= parts.baseline[k].requestedTime <= cfg.startTime + cfg.timeWindowDays * 24 * 60
            && (cfg.substitutes == 0 ==>
                  parts.baseline[k].allowedTailTypes == [TailType(parts.baseline[k].requestedAircraftTypeName, 0)]))
      && (forall a :: CounterGet(parts.depCounter, a) == DepCount(parts.baseline, a))
    ensures cfg.event ==>
      var eventAirports := ShutdownSet(d.eventEpicenter, DisruptionRadiusMiles, coords, dist);
      && parts.extra.Some?
      && |parts.extra.value| == 10 * |eventAirports|
      && (forall k :: 0 <= k < |parts.extra.value| ==> parts.extra.value[k].requestId == 900000 + k)
      && (forall a :: DepCount(parts.extra.value, a) == if a in eventAirports then 10 else 0)
      && parts.extra == Some(SurgeSpec(d.eventOrder, d.surge, cfg.startTime))
    ensures cfg.event && cfg.weather ==>
      && parts.epicenter == Some(d.weatherEpicenter)
      && parts.affected == ShutdownSet(d.weatherEpicenter, DisruptionRadiusMiles, coords, dist)
      && parts.weatherLegs
         == GroundingLegsSpec(parts.tails, parts.affected, cfg.startTime, cfg.timeWindowDays, WeatherStartingLegId)
    ensures !(cfg.event && cfg.weather) ==> parts.weatherLegs == [] && parts.epicenter == None && parts.affected == {}
  {
    var numTails := FleetSize(cfg.scale);
    var numRequests := RequestCount(numTails, cfg.arrivalRate, cfg.timeWindowDays);

    var airports: set<Icao>;
    if cfg.geoDensity == High {
      airports := NearbyAirports(GeoCenters, HubRadiusMiles, coords, dist);
    } else {
      airports := set a | a in d.lowDensitySample;
    }

    var tails := GenerateTails(numTails, d.tails, airports);
    var baseline, depCounter := GenerateBaselineRequests(numRequests, d.requests, cfg.startTime, cfg.substitutes);
    forall k | 0 <= k < |baseline|
      ensures && baseline[k].requestId == 50001 + k
              && baseline[k].departureAirport in airports
              && baseline[k].arrivalAirport in airports
              && baseline[k].arrivalAirport != baseline[k].departureAirport
              && cfg.startTime <= baseline[k].requestedTime <= cfg.startTime + cfg.timeWindowDays * 24 * 60
              && (cfg.substitutes == 0 ==>
                    baseline[k].allowedTailTypes == [TailType(baseline[k].requestedAircraftTypeName, 0)])
    {
      BaselineRequestShape(k + 1, d.requests[k], airports, cfg.startTime, cfg.timeWindowDays, cfg.substitutes);
    }

    var extra: Option<seq<Request>> := None;
    if cfg.event {
      var eventAirports := ComputeWeatherShutdownAirports(d.eventEpicenter, DisruptionRadiusMiles, coords, dist);
      var surge := GenerateSurgeRequests(d.eventOrder, d.surge, cfg.startTime);
      extra := Some(surge);
      DistinctCard(d.eventOrder);
      assert (set a | a in d.eventOrder) == eventAirports;
      forall a ensures DepCount(surge, a) == if a in eventAirports then 10 else 0 {
        SurgePerAirport(d.eventOrder, d.surge, cfg.startTime, a);
      }
    }

    var weatherLegs: seq<Leg> := [];
    var epicenter: Option<Icao> := None;
    var affected: set<Icao> := {};
    // Without the event factor the run has already stopped on the unbound
    // extra-request list, so the weather step is never reached.
    if cfg.event && cfg.weather {
      epicenter := Some(d.weatherEpicenter);
      affected := ComputeWeatherShutdownAirports(d.weatherEpicenter, DisruptionRadiusMiles, coords, dist);
      weatherLegs := BuildGroundingLegsForTails(tails, affected, cfg.startTime, cfg.timeWindowDays,
                                                WeatherStartingLegId);
    }

    parts := Parts(tails, baseline, depCounter, extra, weatherLegs, epicenter, affected);
    out := AssembleAsWritten(cfg, parts);
  }

  /** DOE run #11 has 500 tails and 2 * 500 * 1 = 1000 baseline requests. */
  lemma Scenario11Sizes()
    ensures FleetSize(Scenario11.scale) == 500
    ensures RequestCount(FleetSize(Scenario11.scale), Scenario11.arrivalRate, Scenario11.timeWindowDays) == 1000
  {
  }

  /** As written, a run without the event factor stops on the unbound
      extra-request list instead of producing a document. */
  lemma NoEventStopsAsWritten(cfg: Config, p: Parts)
    requires !cfg.event && p.extra == None
    ensures AssembleAsWritten(cfg, p) == NameError("extra_requests")
  {
  }

  /** As intended, a run without the event factor carries exactly the
      baseline requests. */
  lemma NoEventKeepsBaseline(cfg: Config, p: Parts)
    requires p.extra == None
    ensures Assemble(cfg, p).flightRequests == p.baseline
  {
    assert p.baseline + [] == p.baseline;
  }

  /** As written, every extra request appears twice among the flight
      requests (its identifier is counted twice) when identifiers are
      otherwise unique. */
  lemma {:induction false} SurgeRequestsDuplicated(cfg: Config, p: Parts, k: nat)
    requires p.extra.Some? && k < |p.extra.value|
    requires forall i, j :: 0 <= i < j < |p.extra.value| ==> p.extra.value[i].requestId != p.extra.value[j].requestId
    requires forall i :: 0 <= i < |p.baseline| ==> p.baseline[i].requestId != p.extra.value[k].requestId
    ensures AssembleAsWritten(cfg, p).Generated?
    ensures IdCount(AssembleAsWritten(cfg, p).doc.flightRequests, p.extra.value[k].requestId) == 2
  {
    var extra := p.extra.value;
    var id := extra[k].requestId;
    IdCountAppend(p.baseline + extra, extra, id);
    IdCountAppend(p.baseline, extra, id);
    IdCountAbsent(p.baseline, id);
    IdCountDistinct(extra, id);
  }

  /** As intended, baseline identifiers 50001.. and extra identifiers
      900000.. never collide while there are fewer than 850000 baseline
      requests, so every identifier is carried by at most one request. */
  lemma {:induction false} AssembledRequestIdsUnique(cfg: Config, p: Parts, id: int)
    requires forall k :: 0 <= k < |p.baseline| ==> p.baseline[k].requestId == 50001 + k
    requires |p.baseline| < 850000
    requires p.extra.Some? ==> forall k :: 0 <= k < |p.extra.value| ==> p.extra.value[k].requestId == 900000 + k
    ensures IdCount(Assemble(cfg, p).flightRequests, id) <= 1
  {
    var extra := if p.extra.Some? then p.extra.value else [];
    var all := p.baseline + extra;
    assert all == Assemble(cfg, p).flightRequests;
    forall i, j | 0 <= i < j < |all| ensures all[i].requestId != all[j].requestId {
      if j < |p.baseline| {
        assert all[i] == p.baseline[i] && all[j] == p.baseline[j];
      } else if i < |p.baseline| {
        assert all[i] == p.baseline[i] && all[j] == extra[j - |p.baseline|];
      } else {
        assert all[i] == extra[i - |p.baseline|] && all[j] == extra[j - |p.baseline|];
      }
    }
    IdCountDistinct(all, id);
  }

  /** As written, the Legs entry of a weather run is empty: a tail parked
      at an affected airport has no grounding leg in the document. */
  lemma WeatherLegsDropped(cfg: Config, p: Parts, t: Tail)
    requires cfg.weather && p.extra.Some?
    requires t in p.tails && t.currentLocation in p.affected
    ensures AssembleAsWritten(cfg, p).doc.legs == Some([])
    ensures LegCount(AssembleAsWritten(cfg, p).doc.legs.value, t.tailNumber) == 0
  {
  }

  /** As intended, the Legs entry of a weather run holds one grounding leg
      for every tail parked at an affected airport and none for the others. */
  lemma AssembledGroundedExactlyOnce(cfg: Config, p: Parts, t: Tail)
    requires cfg.weather
    requires p.weatherLegs
          == GroundingLegsSpec(p.tails, p.affected, cfg.startTime, cfg.timeWindowDays, WeatherStartingLegId)
    requires forall i, j :: 0 <= i < j < |p.tails| ==> p.tails[i].tailNumber != p.tails[j].tailNumber
    requires t in p.tails
    ensures Assemble(cfg, p).legs.Some?
    ensures LegCount(Assemble(cfg, p).legs.value, t.tailNumber) == if t.currentLocation in p.affected then 1 else 0
  {
    GroundedExactlyOnce(p.tails, p.affected, cfg.startTime, cfg.timeWindowDays, WeatherStartingLegId, t);
  }
}
