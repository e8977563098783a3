/** Radius selection over the airport coordinate table: the weather/event
    shutdown set around an epicentre and the high-density pool around the
    three fixed hubs. */
module Geo {
  import opened Types

  /** Radius, in miles, of the weather shutdown and of the demand surge. */
  const DisruptionRadiusMiles: real := 30.0

  /** Radius, in miles, of the high-density pool around each hub. */
  const HubRadiusMiles: real := 50.0

  datatype Hub = Hub(code: Icao, location: Coord)

  /** The three hubs, in the order the generator visits them. */
  const GeoCenters: seq<Hub> := [
    Hub("KTEB", Coord(40.85, -74.0608)),
    Hub("KPBI", Coord(26.6831, -80.0956)),
    Hub("KIAD", Coord(38.9472, -77.4597))
  ]

  /** Airports of the table no farther than `radius` miles from `center`,
      the bound included. */
  function WithinRadius(center: Coord, radius: real, coords: map<Icao, Coord>, dist: Distance): set<Icao> {
    set icao | icao in coords && dist(center, coords[icao]) <= radius
  }

  /** What compute_weather_shutdown_airports returns: nothing when the
      epicentre has no coordinates, else the airports within the radius of
      the epicentre's own coordinates. */
  function ShutdownSet(epicenter: Icao, radius: real, coords: map<Icao, Coord>, dist: Distance): set<Icao> {
    if epicenter in coords then WithinRadius(coords[epicenter], radius, coords, dist) else {}
  }

  /** Airports within `radius` of at least one hub. */
  function NearHubs(hubs: seq<Hub>, radius: real, coords: map<Icao, Coord>, dist: Distance): set<Icao> {
    set icao | icao in coords && exists k :: 0 <= k < |hubs| && dist(hubs[k].location, coords[icao]) <= radius
  }

  /** One pass over the coordinate table adding every airport within
      `radius` of `center` to the set `acc`. */
  method AddWithinRadius(acc: set<Icao>, center: Coord, radius: real, coords: map<Icao, Coord>, dist: Distance)
    returns (r: set<Icao>)
    ensures r == acc + WithinRadius(center, radius, coords, dist)
  {
    r := acc;
    var todo := coords.Keys;
    while todo != {}
      invariant todo <= coords.Keys
      invariant r == acc + (WithinRadius(center, radius, coords, dist) - todo)
      decreases todo
    {
      var icao :| icao in todo;
      if dist(center, coords[icao]) <= radius {
        r := r + {icao};
      }
      todo := todo - {icao};
    }
  }

  method ComputeWeatherShutdownAirports(epicenter: Icao, radius: real, coords: map<Icao, Coord>, dist: Distance)
    returns (affected: set<Icao>)
    ensures affected == ShutdownSet(epicenter, radius, coords, dist)
  {
    if epicenter !in coords {
      return {};
    }
    affected := AddWithinRadius({}, coords[epicenter], radius, coords, dist);
  }

  /** The high-density airport pool: every hub in turn, every airport of the
      table within `radius` of it. */
  method NearbyAirports(hubs: seq<Hub>, radius: real, coords: map<Icao, Coord>, dist: Distance)
    returns (nearby: set<Icao>)
    ensures nearby == NearHubs(hubs, radius, coords, dist)
  {
    nearby := {};
    var i := 0;
    while i < |hubs|
      invariant 0 <= i <= |hubs|
      invariant nearby == NearHubs(hubs[..i], radius, coords, dist)
    {
      nearby := AddWithinRadius(nearby, hubs[i].location, radius, coords, dist);
      NearHubsSnoc(hubs[..i], hubs[i], radius, coords, dist);
      assert hubs[..i + 1] == hubs[..i] + [hubs[i]];
      i := i + 1;
    }
    assert hubs[..i] == hubs;
  }

  lemma NearHubsSnoc(hubs: seq<Hub>, h: Hub, radius: real, coords: map<Icao, Coord>, dist: Distance)
    ensures NearHubs(hubs + [h], radius, coords, dist)
         == NearHubs(hubs, radius, coords, dist) + WithinRadius(h.location, radius, coords, dist)
  {
    var hs := hubs + [h];
    forall icao | icao in NearHubs(hs, radius, coords, dist)
      ensures icao in NearHubs(hubs, radius, coords, dist) + WithinRadius(h.location, radius, coords, dist)
    {
      var k :| 0 <= k < |hs| && dist(hs[k].location, coords[icao]) <= radius;
      if k < |hubs| {
        assert hubs[k] == hs[k];
      }
    }
    forall icao | icao in NearHubs(hubs, radius, coords, dist)
      ensures icao in NearHubs(hs, radius, coords, dist)
    {
      var k :| 0 <= k < |hubs| && dist(hubs[k].location, coords[icao]) <= radius;
      assert hs[k] == hubs[k];
    }
    forall icao | icao in WithinRadius(h.location, radius, coords, dist)
      ensures icao in NearHubs(hs, radius, coords, dist)
    {
      assert hs[|hubs|] == h;
    }
  }

  /** The shutdown set is empty when the epicentre is not in the table. */
  lemma ShutdownUnknownEpicenter(epicenter: Icao, radius: real, coords: map<Icao, Coord>, dist: Distance)
    requires epicenter !in coords
    ensures ShutdownSet(epicenter, radius, coords, dist) == {}
  {
  }

  /** Otherwise an airport is affected exactly when it is in the table and
      within the radius of the epicentre. */
  lemma ShutdownMembership(epicenter: Icao, radius: real, coords: map<Icao, Coord>, dist: Distance, icao: Icao)
    requires epicenter in coords
    ensures icao in ShutdownSet(epicenter, radius, coords, dist)
        <==> icao in coords && dist(coords[epicenter], coords[icao]) <= radius
  {
  }

  /** The shutdown set only holds airports of the table, and widening the
      radius never drops an airport. */
  lemma ShutdownMonotone(epicenter: Icao, r1: real, r2: real, coords: map<Icao, Coord>, dist: Distance)
    requires r1 <= r2
    ensures ShutdownSet(epicenter, r1, coords, dist) <= ShutdownSet(epicenter, r2, coords, dist) <= coords.Keys
  {
  }

  /** With a distance that is zero exactly between equal coordinates and a
      table that gives distinct airports distinct coordinates, a zero radius
      selects the epicentre alone. */
  lemma ShutdownZeroRadius(epicenter: Icao, coords: map<Icao, Coord>, dist: Distance)
    requires epicenter in coords
    requires forall c1, c2 :: dist(c1, c2) >= 0.0
    requires forall c1, c2 :: dist(c1, c2) == 0.0 <==> c1 == c2
    requires forall a, b :: a in coords && b in coords && a != b ==> coords[a] != coords[b]
    ensures ShutdownSet(epicenter, 0.0, coords, dist) == {epicenter}
  {
  }

  /** The hub pool is the union of the three 50-mile circles around KTEB,
      KPBI and KIAD. */
  lemma {:induction false} HubPoolIsUnion(coords: map<Icao, Coord>, dist: Distance)
    ensures NearHubs(GeoCenters, HubRadiusMiles, coords, dist)
         == WithinRadius(Coord(40.85, -74.0608), 50.0, coords, dist)
          + WithinRadius(Coord(26.6831, -80.0956), 50.0, coords, dist)
          + WithinRadius(Coord(38.9472, -77.4597), 50.0, coords, dist)
  {
    var g := GeoCenters;
    assert NearHubs([], 50.0, coords, dist) == {};
    assert g[..1] == [] + [g[0]];
    NearHubsSnoc([], g[0], 50.0, coords, dist);
    assert g[..2] == g[..1] + [g[1]];
    NearHubsSnoc(g[..1], g[1], 50.0, coords, dist);
    assert g == g[..2] + [g[2]];
    NearHubsSnoc(g[..2], g[2], 50.0, coords, dist);
  }

  /** The hub pool only holds airports of the table, and each of them is
      within the radius of some hub. */
  lemma NearHubsMembership(hubs: seq<Hub>, radius: real, coords: map<Icao, Coord>, dist: Distance, icao: Icao)
    ensures icao in NearHubs(hubs, radius, coords, dist)
        <==> icao in coords && exists k :: 0 <= k < |hubs| && dist(hubs[k].location, coords[icao]) <= radius
  {
  }
}
