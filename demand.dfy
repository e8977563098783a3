/** Fleet and baseline demand of generate_scenario11_full: the tails, the
    revenue-flight requests with their allowed tail types, and the counter of
    departures per airport. Every random choice is a supplied draw. */
module Demand {
  import opened Types

  /** The two-valued DOE factors (arrival rate, fleet scale, geo density). */
  datatype Level = Low | High

  const TailNumberBase: nat := 1000000
  const RequestIdBase: int := 50000

  /** Tails per fleet scale. */
  function FleetSize(scale: Level): nat {
    if scale == Low then 500 else 1000
  }

  /** Baseline requests: two or four per tail and per day. */
  function RequestCount(numTails: nat, arrivalRate: Level, timeWindowDays: nat): nat {
    numTails * (if arrivalRate == Low then 2 else 4) * timeWindowDays
  }

  /** The random choices made for one tail. */
  datatype TailDraw = TailDraw(aircraftType: string, location: Icao, minutesLeft: int, cyclesLeft: int,
                               paxSeats: int, lavSeats: int)

  /** Each choice is one the generator can make: a catalog type, a pool
      airport, and the integer ranges it samples from. */
  predicate ValidTailDraw(d: TailDraw, airports: set<Icao>) {
    && d.aircraftType in AircraftTypeNames
    && d.location in airports
    && 200 <= d.minutesLeft <= 400
    && 20 <= d.cyclesLeft <= 40
    && d.paxSeats in [8, 10, 12]
    && d.lavSeats in [0, 1]
  }

  /** Tail number i of the fleet. */
  function MakeTail(i: nat, d: TailDraw): Tail {
    Tail(TailNumberBase + i, d.aircraftType, d.aircraftType, d.location, d.minutesLeft, d.cyclesLeft,
         d.paxSeats, d.lavSeats)
  }

  method GenerateTails(numTails: nat, draws: seq<TailDraw>, airports: set<Icao>) returns (tails: seq<Tail>)
    requires |draws| == numTails
    requires forall i :: 0 <= i < |draws| ==> ValidTailDraw(draws[i], airports)
    ensures |tails| == numTails
    ensures forall i :: 0 <= i < numTails ==> tails[i] == MakeTail(i, draws[i])
    ensures forall i :: 0 <= i < numTails ==>
      && tails[i].tailNumber == 1000000 + i
      && tails[i].currentLocation in airports
      && tails[i].aircraftTypeName in AircraftTypeNames
      && tails[i].originalAircraftTypeName == tails[i].aircraftTypeName
    ensures forall i, j :: 0 <= i < j < numTails ==> tails[i].tailNumber != tails[j].tailNumber
  {
    tails := [];
    var i := 0;
    while i < numTails
      invariant 0 <= i <= numTails
      invariant |tails| == i
      invariant forall k :: 0 <= k < i ==> tails[k] == MakeTail(k, draws[k])
    {
      tails := tails + [MakeTail(i, draws[i])];
      i := i + 1;
    }
  }

  /** The random choices made for one baseline request. `sampledTypes` is
      only drawn when substitutes are allowed. */
  datatype RequestDraw = RequestDraw(departure: Icao, arrival: Icao, offset: int, jetType: string,
                                     sampledTypes: seq<string>)

  /** The departure is a pool airport, the arrival a pool airport other than
      the departure, the offset a minute of the window, the type a catalog
      type, and the substitutes four distinct catalog types other than it. */
  predicate ValidRequestDraw(d: RequestDraw, airports: set<Icao>, timeWindowDays: nat, substitutes: int) {
    && d.departure in airports
    && d.arrival in airports
    && d.arrival != d.departure
    && 0 <= d.offset <= timeWindowDays * MinutesPerDay
    && d.jetType in AircraftTypeNames
    && (substitutes != 0 ==>
          && |d.sampledTypes| == 4
          && Distinct(d.sampledTypes)
          && forall k :: 0 <= k < |d.sampledTypes| ==>
               d.sampledTypes[k] in AircraftTypeNames && d.sampledTypes[k] != d.jetType)
  }

  /** The AllowedTailTypes list: the requested type alone, or followed by
      the sampled substitutes; every penalty is zero. */
  function AllowedTailTypes(jetType: string, substitutes: int, sampled: seq<string>): seq<TailType> {
    if substitutes == 0 then [TailType(jetType, 0)]
    else [TailType(jetType, 0)] + seq(|sampled|, k requires 0 <= k < |sampled| => TailType(sampled[k], 0))
  }

  /** Request number `rid` (counted from 1) of the baseline. */
  function BaselineRequest(rid: nat, d: RequestDraw, startTime: int, substitutes: int): Request {
    Request(RequestIdBase + rid, d.arrival, d.departure, OperateRevenueFlight, startTime + d.offset,
            Some([PIC, SIC]), None, None, AllowedTailTypes(d.jetType, substitutes, d.sampledTypes), d.jetType)
  }

  /** How often `a` occurs in a Counter (zero when it is not a key). */
  function CounterGet(counter: map<Icao, nat>, a: Icao): nat {
    if a in counter then counter[a] else 0
  }

  method GenerateBaselineRequests(numRequests: nat, draws: seq<RequestDraw>, startTime: int, substitutes: int)
    returns (requests: seq<Request>, depCounter: map<Icao, nat>)
    requires |draws| == numRequests
    ensures |requests| == numRequests
    ensures forall k :: 0 <= k < numRequests ==> requests[k] == BaselineRequest(k + 1, draws[k], startTime, substitutes)
    ensures forall a :: CounterGet(depCounter, a) == DepCount(requests, a)
    ensures forall a :: a in depCounter <==> DepCount(requests, a) > 0
  {
    requests := [];
    depCounter := map[];
    var rid := 1;
    while rid <= numRequests
      invariant 1 <= rid <= numRequests + 1
      invariant |requests| == rid - 1
      invariant forall k :: 0 <= k < rid - 1 ==> requests[k] == BaselineRequest(k + 1, draws[k], startTime, substitutes)
      invariant forall a :: CounterGet(depCounter, a) == DepCount(requests, a)
      invariant forall a :: a in depCounter ==> depCounter[a] > 0
    {
      var req := BaselineRequest(rid, draws[rid - 1], startTime, substitutes);
      var dep := req.departureAirport;
      CounterStep(depCounter, requests, req);
      requests := requests + [req];
      depCounter := depCounter[dep := CounterGet(depCounter, dep) + 1];
      rid := rid + 1;
    }
  }

  /** Counting one more departure keeps the counter equal to the departure
      counts of the extended list, with the departures as its keys. */
  lemma CounterStep(counter: map<Icao, nat>, requests: seq<Request>, req: Request)
    requires forall a :: CounterGet(counter, a) == DepCount(requests, a)
    requires forall a :: a in counter ==> counter[a] > 0
    ensures var next := counter[req.departureAirport := CounterGet(counter, req.departureAirport) + 1];
      && (forall a :: CounterGet(next, a) == DepCount(requests + [req], a))
      && (forall a :: a in next ==> next[a] > 0)
  {
    assert (requests + [req])[..|requests|] == requests;
  }

  /** The allowed types of a request: exactly the requested type without
      substitutes; otherwise five distinct catalog types, the requested one
      first, all at penalty zero. */
  lemma AllowedTailTypesShape(d: RequestDraw, airports: set<Icao>, timeWindowDays: nat, substitutes: int)
    requires ValidRequestDraw(d, airports, timeWindowDays, substitutes)
    ensures var r := AllowedTailTypes(d.jetType, substitutes, d.sampledTypes);
      && r[0] == TailType(d.jetType, 0)
      && (substitutes == 0 ==> |r| == 1)
      && (substitutes != 0 ==> |r| == 5 && forall k :: 1 <= k < 5 ==> r[k].aircraftTypeName != d.jetType)
      && (forall k :: 0 <= k < |r| ==> r[k].aircraftTypeName in AircraftTypeNames && r[k].penalty == 0)
      && (forall i, j :: 0 <= i < j < |r| ==> r[i].aircraftTypeName != r[j].aircraftTypeName)
  {
  }

  /** A baseline request carries identifier 50000 + rid, flies between two
      different pool airports at a minute of the planning window, and asks
      for the drawn type with a PIC and an SIC. */
  lemma BaselineRequestShape(rid: nat, d: RequestDraw, airports: set<Icao>, startTime: int, timeWindowDays: nat,
                             substitutes: int)
    requires ValidRequestDraw(d, airports, timeWindowDays, substitutes)
    ensures var r := BaselineRequest(rid, d, startTime, substitutes);
      && r.requestId == 50000 + rid
      && r.departureAirport in airports && r.arrivalAirport in airports
      && r.arrivalAirport != r.departureAirport
      && startTime <= r.requestedTime <= startTime + timeWindowDays * 24 * 60
      && r.activityType == OperateRevenueFlight
      && r.requiredCrewmemberPositions == Some([PIC, SIC])
      && r.allowedTailTypes[0].aircraftTypeName == r.requestedAircraftTypeName
      && (substitutes == 0 ==> r.allowedTailTypes == [TailType(r.requestedAircraftTypeName, 0)])
      && (substitutes != 0 ==> |r.allowedTailTypes| == 5)
  {
  }

  /** The departure counter adds up to the number of requests. */
  lemma {:induction false} DepCountTotal(reqs: seq<Request>, airports: set<Icao>)
    requires forall k :: 0 <= k < |reqs| ==> reqs[k].departureAirport in airports
    ensures SumCounts(reqs, airports) == |reqs|
    decreases airports
  {
    if airports != {} {
      var a := PickOne(airports);
      var rest := Without(reqs, a);
      DepCountSplit(reqs, a);
      assert forall k :: 0 <= k < |rest| ==> rest[k].departureAirport in airports - {a} by {
        WithoutDepartures(reqs, a);
      }
      DepCountTotal(rest, airports - {a});
      SumCountsWithout(reqs, airports - {a}, a);
    }
  }

  /** Sum over `airports` of the departures counted for each. */
  ghost function SumCounts(reqs: seq<Request>, airports: set<Icao>): nat
    decreases airports
  {
    if airports == {} then 0
    else
      var a := PickOne(airports);
      DepCount(reqs, a) + SumCounts(reqs, airports - {a})
  }

  ghost function PickOne(s: set<Icao>): (a: Icao)
    requires s != {}
    ensures a in s
  {
    var a :| a in s; a
  }

  /** The requests not departing from `a`. */
  function Without(reqs: seq<Request>, a: Icao): seq<Request> {
    if |reqs| == 0 then []
    else Without(reqs[..|reqs| - 1], a) + (if reqs[|reqs| - 1].departureAirport == a then [] else [reqs[|reqs| - 1]])
  }

  lemma {:induction false} WithoutDepartures(reqs: seq<Request>, a: Icao)
    ensures forall k :: 0 <= k < |Without(reqs, a)| ==>
      Without(reqs, a)[k].departureAirport != a && Without(reqs, a)[k] in reqs
    decreases |reqs|
  {
    if |reqs| > 0 {
      WithoutDepartures(reqs[..|reqs| - 1], a);
    }
  }

  lemma {:induction false} DepCountSplit(reqs: seq<Request>, a: Icao)
    ensures |reqs| == DepCount(reqs, a) + |Without(reqs, a)|
    ensures forall b :: b != a ==> DepCount(Without(reqs, a), b) == DepCount(reqs, b)
    ensures DepCount(Without(reqs, a), a) == 0
    decreases |reqs|
  {
    if |reqs| > 0 {
      var init := reqs[..|reqs| - 1];
      var last := reqs[|reqs| - 1];
      DepCountSplit(init, a);
      var w := Without(reqs, a);
      if last.departureAirport != a {
        assert w == Without(init, a) + [last];
        assert w[..|w| - 1] == Without(init, a);
      } else {
        assert w == Without(init, a);
      }
      forall b | b != a ensures DepCount(w, b) == DepCount(reqs, b) {
      }
    }
  }

  lemma {:induction false} SumCountsWithout(reqs: seq<Request>, airports: set<Icao>, a: Icao)
    requires a !in airports
    ensures SumCounts(Without(reqs, a), airports) == SumCounts(reqs, airports)
    decreases airports
  {
    if airports != {} {
      var b := PickOne(airports);
      DepCountSplit(reqs, a);
      SumCountsWithout(reqs, airports - {b}, a);
    }
  }
}
