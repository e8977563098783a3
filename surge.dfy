/** The event factor of generate_scenario11_full: ten extra revenue-flight
    requests departing from every airport near the event epicentre. */
module Surge {
  import opened Types

  const SurgeIdBase: int := 900000

  /** Extra requests generated per event airport. */
  const RequestsPerEventAirport: nat := 10

  /** The random choices made for one extra request. */
  datatype SurgeDraw = SurgeDraw(arrival: Icao, offset: int, jetType: string)

  /** The arrival is a pool airport other than the departure, the offset a
      minute of the window and the type a catalog type. */
  predicate ValidSurgeDraw(d: SurgeDraw, departure: Icao, airports: set<Icao>, timeWindowDays: nat) {
    && d.arrival in airports
    && d.arrival != departure
    && 0 <= d.offset <= timeWindowDays * MinutesPerDay
    && d.jetType in AircraftTypeNames
  }

  /** Extra request number `index` of the list, departing from `departure`. */
  function SurgeRequest(departure: Icao, index: nat, d: SurgeDraw, startTime: int): Request {
    Request(SurgeIdBase + index, d.arrival, departure, OperateRevenueFlight, startTime + d.offset,
            None, Some(0), Some(0), [TailType(d.jetType, 0)], d.jetType)
  }

  /** The extra requests for the event airports visited in `order`: request
      k departs from airport number k / 10. */
  function SurgeSpec(order: seq<Icao>, draws: seq<SurgeDraw>, startTime: int): seq<Request>
    requires |draws| == 10 * |order|
  {
    seq(|draws|, k requires 0 <= k < |draws| => SurgeRequest(order[k / 10], k, draws[k], startTime))
  }

  method GenerateSurgeRequests(order: seq<Icao>, draws: seq<SurgeDraw>, startTime: int)
    returns (extra: seq<Request>)
    requires |draws| == 10 * |order|
    ensures extra == SurgeSpec(order, draws, startTime)
  {
    extra := [];
    var i := 0;
    while i < |order|
      invariant 0 <= i <= |order|
      invariant |extra| == 10 * i
      invariant forall k :: 0 <= k < |extra| ==> extra[k] == SurgeRequest(order[k / 10], k, draws[k], startTime)
    {
      var ea := order[i];
      var j := 0;
      while j < RequestsPerEventAirport
        invariant 0 <= j <= 10
        invariant |extra| == 10 * i + j
        invariant forall k :: 0 <= k < |extra| ==> extra[k] == SurgeRequest(order[k / 10], k, draws[k], startTime)
      {
        extra := extra + [SurgeRequest(ea, |extra|, draws[|extra|], startTime)];
        j := j + 1;
      }
      i := i + 1;
    }
  }

  /** Extra request k carries identifier 900000 + k, departs from its event
      airport to a different pool airport within the window, allows the
      drawn type alone and has zero service and sliding time. */
  lemma SurgeRequestShape(order: seq<Icao>, draws: seq<SurgeDraw>, airports: set<Icao>, startTime: int,
                          timeWindowDays: nat, k: nat)
    requires |draws| == 10 * |order|
    requires forall i :: 0 <= i < |draws| ==> ValidSurgeDraw(draws[i], order[i / 10], airports, timeWindowDays)
    requires k < |draws|
    ensures var r := SurgeSpec(order, draws, startTime)[k];
      && r.requestId == 900000 + k
      && r.departureAirport == order[k / 10]
      && r.arrivalAirport in airports && r.arrivalAirport != r.departureAirport
      && startTime <= r.requestedTime <= startTime + timeWindowDays * 24 * 60
      && r.allowedTailTypes == [TailType(r.requestedAircraftTypeName, 0)]
      && r.serviceTime == Some(0) && r.slidingTime == Some(0)
  {
  }

  /** Number of requests departing from `a` in a list where every request
      departs from `e`. */
  lemma {:induction false} DepCountUniform(reqs: seq<Request>, e: Icao, a: Icao)
    requires forall k :: 0 <= k < |reqs| ==> reqs[k].departureAirport == e
    ensures DepCount(reqs, a) == if a == e then |reqs| else 0
    decreases |reqs|
  {
    if |reqs| > 0 {
      DepCountUniform(reqs[..|reqs| - 1], e, a);
    }
  }

  /** The first 10 * n extra requests are those of the first n airports. */
  lemma SurgePrefix(order: seq<Icao>, draws: seq<SurgeDraw>, startTime: int, n: nat)
    requires |draws| == 10 * |order|
    requires n <= |order|
    ensures SurgeSpec(order, draws, startTime)[..10 * n] == SurgeSpec(order[..n], draws[..10 * n], startTime)
  {
  }

  /** The last ten extra requests depart from the last airport. */
  lemma SurgeLastBlock(order: seq<Icao>, draws: seq<SurgeDraw>, startTime: int)
    requires |draws| == 10 * |order|
    requires |order| > 0
    ensures var block := SurgeSpec(order, draws, startTime)[10 * (|order| - 1)..];
      forall k :: 0 <= k < |block| ==> block[k].departureAirport == order[|order| - 1]
  {
  }

  /** When the event airports are visited once each, every one of them is
      the departure of exactly ten extra requests and no other airport is
      the departure of any. */
  lemma {:induction false} SurgePerAirport(order: seq<Icao>, draws: seq<SurgeDraw>, startTime: int, a: Icao)
    requires |draws| == 10 * |order|
    requires Distinct(order)
    ensures DepCount(SurgeSpec(order, draws, startTime), a) == if a in order then 10 else 0
    decreases |order|
  {
    if |order| > 0 {
      var n := |order| - 1;
      var init := order[..n];
      var all := SurgeSpec(order, draws, startTime);
      var prefix := SurgeSpec(init, draws[..10 * n], startTime);
      var block := all[10 * n..];
      assert all == all[..10 * n] + block;
      SurgePrefix(order, draws, startTime, n);
      SurgeLastBlock(order, draws, startTime);
      assert Distinct(init);
      SurgePerAirport(init, draws[..10 * n], startTime, a);
      DepCountAppend(prefix, block, a);
      DepCountUniform(block, order[n], a);
      assert |block| == 10;
      assert a in order <==> a in init || a == order[n] by {
        assert order == init + [order[n]];
      }
      assert order[n] !in init;
    }
  }

  /** A list without repeats enumerating a set has the set's size. */
  lemma {:induction false} DistinctCard(order: seq<Icao>)
    requires Distinct(order)
    ensures |set a | a in order| == |order|
    decreases |order|
  {
    if |order| > 0 {
      var n := |order| - 1;
      var init := order[..n];
      DistinctCard(init);
      assert (set a | a in order) == (set a | a in init) + {order[n]};
      assert order[n] !in (set a | a in init);
    }
  }
}
