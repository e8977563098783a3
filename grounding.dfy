/** Weather grounding: one locked MAINTENANCE leg over the whole planning
    window for every tail parked at an affected airport. */
module Grounding {
  import opened Types

  /** The locked leg that keeps tail `t` on the ground at its location. */
  function GroundingLeg(t: Tail, legId: int, startTime: int, duration: int): Leg {
    Leg(t.tailNumber, legId, 0, true, t.currentLocation, t.currentLocation, startTime, duration,
        Maintenance, [], "NO_CREW", "WEATHER_GROUNDED")
  }

  /** The tails whose current location is affected, in tail-list order. */
  function AffectedTails(tails: seq<Tail>, affected: set<Icao>): seq<Tail> {
    if |tails| == 0 then []
    else
      var t := tails[|tails| - 1];
      AffectedTails(tails[..|tails| - 1], affected) + (if t.currentLocation in affected then [t] else [])
  }

  /** The legs for the affected tails: the k-th of them gets leg identifier
      `startingLegId + k` and a duration of the whole window. */
  function GroundingLegsSpec(tails: seq<Tail>, affected: set<Icao>, startTime: int, timeWindowDays: int,
                             startingLegId: int): seq<Leg>
  {
    var grounded := AffectedTails(tails, affected);
    seq(|grounded|, k requires 0 <= k < |grounded| =>
      GroundingLeg(grounded[k], startingLegId + k, startTime, timeWindowDays * MinutesPerDay))
  }

  method BuildGroundingLegsForTails(tails: seq<Tail>, affected: set<Icao>, startTime: int, timeWindowDays: int,
                                    startingLegId: int)
    returns (legs: seq<Leg>)
    ensures legs == GroundingLegsSpec(tails, affected, startTime, timeWindowDays, startingLegId)
  {
    legs := [];
    var duration := timeWindowDays * MinutesPerDay;
    var legId := startingLegId;
    var i := 0;
    while i < |tails|
      invariant 0 <= i <= |tails|
      invariant legId == startingLegId + |legs|
      invariant legs == GroundingLegsSpec(tails[..i], affected, startTime, timeWindowDays, startingLegId)
    {
      var t := tails[i];
      assert tails[..i + 1][..i] == tails[..i];
      if t.currentLocation in affected {
        legs := legs + [GroundingLeg(t, legId, startTime, duration)];
        legId := legId + 1;
      }
      i := i + 1;
    }
    assert tails[..i] == tails;
  }

  /** A tail is grounded exactly when it is in the list and parked at an
      affected airport. */
  lemma {:induction false} AffectedTailsMembership(tails: seq<Tail>, affected: set<Icao>, t: Tail)
    ensures t in AffectedTails(tails, affected) <==> t in tails && t.currentLocation in affected
    decreases |tails|
  {
    if |tails| > 0 {
      var init := tails[..|tails| - 1];
      AffectedTailsMembership(init, affected, t);
      assert tails == init + [tails[|tails| - 1]];
    }
  }

  /** Leg k carries identifier `startingLegId + k` and belongs to a tail of
      the list; it is a locked, crewless MAINTENANCE leg for the whole
      window that starts and ends at that tail's own, affected location. */
  lemma GroundingLegsShape(tails: seq<Tail>, affected: set<Icao>, startTime: int, timeWindowDays: int,
                           startingLegId: int, k: nat)
    requires k < |GroundingLegsSpec(tails, affected, startTime, timeWindowDays, startingLegId)|
    ensures var leg := GroundingLegsSpec(tails, affected, startTime, timeWindowDays, startingLegId)[k];
      && leg.legId == startingLegId + k
      && leg.isLocked && leg.requestId == 0
      && leg.activityType == Maintenance && leg.assignedCrewmembers == []
      && leg.duration == timeWindowDays * 24 * 60 && leg.startTime == startTime
      && leg.originAirport == leg.destinationAirport && leg.originAirport in affected
      && exists t :: t in tails && leg.tailNumber == t.tailNumber && leg.originAirport == t.currentLocation
  {
    var grounded := AffectedTails(tails, affected);
    AffectedTailsMembership(tails, affected, grounded[k]);
  }

  function LegCount(legs: seq<Leg>, tailNumber: nat): nat {
    if |legs| == 0 then 0
    else LegCount(legs[..|legs| - 1], tailNumber) + (if legs[|legs| - 1].tailNumber == tailNumber then 1 else 0)
  }

  lemma {:induction false} LegCountAppend(s: seq<Leg>, t: seq<Leg>, tailNumber: nat)
    ensures LegCount(s + t, tailNumber) == LegCount(s, tailNumber) + LegCount(t, tailNumber)
    decreases |t|
  {
    if |t| == 0 {
      assert s + t == s;
    } else {
      assert (s + t)[..|s + t| - 1] == s + t[..|t| - 1];
      LegCountAppend(s, t[..|t| - 1], tailNumber);
    }
  }

  /** Legs for a tail number that no tail of the list carries: none. */
  lemma {:induction false} NoLegForOtherTail(tails: seq<Tail>, affected: set<Icao>, startTime: int,
                                             timeWindowDays: int, startingLegId: int, n: nat)
    requires forall i :: 0 <= i < |tails| ==> tails[i].tailNumber != n
    ensures LegCount(GroundingLegsSpec(tails, affected, startTime, timeWindowDays, startingLegId), n) == 0
    decreases |tails|
  {
    if |tails| > 0 {
      var init := tails[..|tails| - 1];
      var t := tails[|tails| - 1];
      NoLegForOtherTail(init, affected, startTime, timeWindowDays, startingLegId, n);
      var prev := GroundingLegsSpec(init, affected, startTime, timeWindowDays, startingLegId);
      var legs := GroundingLegsSpec(tails, affected, startTime, timeWindowDays, startingLegId);
      if t.currentLocation in affected {
        assert legs == prev + [legs[|legs| - 1]];
        LegCountAppend(prev, [legs[|legs| - 1]], n);
        assert [legs[|legs| - 1]][..0] == [];
      } else {
        assert legs == prev;
      }
    }
  }

  /** With distinct tail numbers, every tail parked at an affected airport
      gets exactly one grounding leg and every other tail none. */
  lemma {:induction false} GroundedExactlyOnce(tails: seq<Tail>, affected: set<Icao>, startTime: int,
                                               timeWindowDays: int, startingLegId: int, t: Tail)
    requires forall i, j :: 0 <= i < j < |tails| ==> tails[i].tailNumber != tails[j].tailNumber
    requires t in tails
    ensures LegCount(GroundingLegsSpec(tails, affected, startTime, timeWindowDays, startingLegId), t.tailNumber)
         == if t.currentLocation in affected then 1 else 0
    decreases |tails|
  {
    var init := tails[..|tails| - 1];
    var last := tails[|tails| - 1];
    var prev := GroundingLegsSpec(init, affected, startTime, timeWindowDays, startingLegId);
    var legs := GroundingLegsSpec(tails, affected, startTime, timeWindowDays, startingLegId);
    var n := t.tailNumber;
    var lastCount := if last.currentLocation in affected && last.tailNumber == n then 1 else 0;
    if last.currentLocation in affected {
      assert legs == prev + [legs[|legs| - 1]];
      LegCountAppend(prev, [legs[|legs| - 1]], n);
      assert [legs[|legs| - 1]][..0] == [];
    } else {
      assert legs == prev;
    }
    assert LegCount(legs, n) == LegCount(prev, n) + lastCount;
    if t == last {
      NoLegForOtherTail(init, affected, startTime, timeWindowDays, startingLegId, n);
    } else {
      assert t in init by {
        var i :| 0 <= i < |tails| && tails[i] == t;
        assert i < |tails| - 1 && init[i] == t;
      }
      GroundedExactlyOnce(init, affected, startTime, timeWindowDays, startingLegId, t);
      assert last.tailNumber != n by {
        var i :| 0 <= i < |init| && init[i] == t;
        assert tails[i] == t;
      }
    }
  }
}
