/** Records of the scenario document built by test_doe.py: airports, tails,
    legs and flight requests, with the constants the generator uses. */
module Types {

  datatype Option<T> = None | Some(value: T)

  /** An airport is identified by its ICAO code. */
  type Icao = string

  /** Latitude and longitude in degrees, as read from the airport table. */
  datatype Coord = Coord(lat: real, lon: real)

  /** Great-circle distance in miles between two coordinates. The haversine
      formula itself is not modelled: every property here holds for any
      distance function. */
  type Distance = (Coord, Coord) -> real

  const MinutesPerDay: nat := 24 * 60

  /** The aircraft-type catalog, in the order the generator lists it. */
  const AircraftTypeNames: seq<string> := [
    "CL-650S", "CE-700", "CL-350S", "CE-680AS", "EMB-545-MOD", "GL5000S", "CE-680",
    "CE-560XLS", "EMB-505S", "EMB-505E", "GL6000S", "GL7500", "GL5500"
  ]

  /** One entry of a request's AllowedTailTypes list. */
  datatype TailType = TailType(aircraftTypeName: string, penalty: int)

  datatype Position = PIC | SIC

  datatype ActivityType = OperateRevenueFlight | Maintenance

  datatype CrewAssignment = CrewAssignment(crewId: nat, position: Position)

  /** An aircraft. Fields the generator fills with a literal for every tail
      (costs, base airport, flags, timestamps) are not carried. */
  datatype Tail = Tail(
    tailNumber: nat,
    aircraftTypeName: string,
    originalAircraftTypeName: string,
    currentLocation: Icao,
    minutesLeftForNextMaintenance: int,
    cyclesLeftForNextMaintenance: int,
    paxSeats: int,
    lavSeats: int)

  datatype Leg = Leg(
    tailNumber: nat,
    legId: int,
    requestId: int,
    isLocked: bool,
    originAirport: Icao,
    destinationAirport: Icao,
    startTime: int,
    duration: int,
    activityType: ActivityType,
    assignedCrewmembers: seq<CrewAssignment>,
    crewModel: string,
    mxType: string)

  /** A flight request. Baseline requests carry crew positions and no
      service or sliding time; surge requests the other way round. */
  datatype Request = Request(
    requestId: int,
    arrivalAirport: Icao,
    departureAirport: Icao,
    activityType: ActivityType,
    requestedTime: int,
    requiredCrewmemberPositions: Option<seq<Position>>,
    serviceTime: Option<int>,
    slidingTime: Option<int>,
    allowedTailTypes: seq<TailType>,
    requestedAircraftTypeName: string)

  predicate Distinct<T(==)>(s: seq<T>) {
    forall i, j :: 0 <= i < j < |s| ==> s[i] != s[j]
  }

  /** Number of requests in `reqs` departing from `a` (what a Counter keyed
      by departure airport holds for `a`). */
  function DepCount(reqs: seq<Request>, a: Icao): nat {
    if |reqs| == 0 then 0
    else DepCount(reqs[..|reqs| - 1], a) + (if reqs[|reqs| - 1].departureAirport == a then 1 else 0)
  }

  lemma {:induction false} DepCountAppend(s: seq<Request>, t: seq<Request>, a: Icao)
    ensures DepCount(s + t, a) == DepCount(s, a) + DepCount(t, a)
    decreases |t|
  {
    if |t| == 0 {
      assert s + t == s;
    } else {
      assert (s + t)[..|s + t| - 1] == s + t[..|t| - 1];
      DepCountAppend(s, t[..|t| - 1], a);
    }
  }

  /** Number of requests in `reqs` carrying identifier `id`. */
  function IdCount(reqs: seq<Request>, id: int): nat {
    if |reqs| == 0 then 0
    else IdCount(reqs[..|reqs| - 1], id) + (if reqs[|reqs| - 1].requestId == id then 1 else 0)
  }

  lemma {:induction false} IdCountAppend(s: seq<Request>, t: seq<Request>, id: int)
    ensures IdCount(s + t, id) == IdCount(s, id) + IdCount(t, id)
    decreases |t|
  {
    if |t| == 0 {
      assert s + t == s;
    } else {
      assert (s + t)[..|s + t| - 1] == s + t[..|t| - 1];
      IdCountAppend(s, t[..|t| - 1], id);
    }
  }

  /** An identifier no request carries is counted zero times. */
  lemma {:induction false} IdCountAbsent(reqs: seq<Request>, id: int)
    requires forall k :: 0 <= k < |reqs| ==> reqs[k].requestId != id
    ensures IdCount(reqs, id) == 0
    decreases |reqs|
  {
    if |reqs| > 0 {
      IdCountAbsent(reqs[..|reqs| - 1], id);
    }
  }

  /** A request identifier occurs at most once when the identifiers are
      pairwise distinct, and exactly once at each position. */
  lemma {:induction false} IdCountDistinct(reqs: seq<Request>, id: int)
    requires forall i, j :: 0 <= i < j < |reqs| ==> reqs[i].requestId != reqs[j].requestId
    ensures IdCount(reqs, id) == if exists k :: 0 <= k < |reqs| && reqs[k].requestId == id then 1 else 0
    decreases |reqs|
  {
    if |reqs| > 0 {
      var init := reqs[..|reqs| - 1];
      IdCountDistinct(init, id);
      if reqs[|reqs| - 1].requestId == id {
        assert !exists k :: 0 <= k < |init| && init[k].requestId == id;
      }
      if exists k :: 0 <= k < |reqs| && reqs[k].requestId == id {
        var k :| 0 <= k < |reqs| && reqs[k].requestId == id;
        if k < |init| { assert init[k].requestId == id; }
      }
    }
  }
}
