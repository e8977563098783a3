# DOE scenario 11 generator, modelled in Dafny

This project models the deterministic core of `test_doe.py`, the generator of
DOE run #11 for an aircraft/crew scheduling optimizer. The generator builds a
scenario document: a fleet of tails, baseline revenue-flight requests, a
demand surge around an event, and locked grounding legs for tails caught by a
weather shutdown. Every random draw is a supplied value, and the haversine
distance is a supplied function. With those two choices the selection and
assembly rules can be stated and proved exactly.

Modules (one per component of the generator):

- `Types` (types.dfy): airports, coordinates, tails, legs, requests, the
  13-entry aircraft-type catalog, and counting helpers.
- `Geo` (geo.dfy): the radius rule of `compute_weather_shutdown_airports`
  and the high-density pool of airports within 50 miles of KTEB, KPBI and
  KIAD.
- `Grounding` (grounding.dfy): `build_grounding_legs_for_tails`.
- `Demand` (demand.dfy): tail numbering, the request count, baseline
  requests, `AllowedTailTypes`, and the departure counter.
- `Surge` (surge.dfy): the event surge of ten extra requests per event
  airport.
- `Scenario` (scenario.dfy): `generate_scenario11_full` end to end, and the
  scenario document both as written and as evidently intended.

The loops of the source are methods with loop invariants. Each method is
proved against a specification function, and the properties the generator
promises are lemmas about those functions.

The DOE factors that `generate_scenario11_full` hard-codes are a `Config`
parameter. `Scenario.Scenario11` holds the run-11 values. The start time
2025-04-01T06:00:00Z is counted in minutes since 1970-01-01T00:00:00Z.

`test_doe.py` never removes weather-affected airports from the request pool:
baseline and surge requests can still use them, and the model claims no such
exclusion.

## Model

| member | source | states |
|---|---|---|
| `Geo.AddWithinRadius` | test_doe.py:39-42 | one pass over the coordinate table adds exactly the airports within the radius of the centre, bound included, to the accumulated set |
| `Geo.ComputeWeatherShutdownAirports` | test_doe.py:33-43 | the result is the empty set for an epicentre missing from the table, otherwise the airports within the radius of the epicentre's coordinates |
| `Geo.ShutdownUnknownEpicenter` | test_doe.py:36-37 | an epicentre that is not a key of the table yields the empty set |
| `Geo.ShutdownMembership` | test_doe.py:38-43 | for a known epicentre, an airport is affected iff it is a key of the table and its distance from the epicentre is at most the radius |
| `Geo.ShutdownMonotone` | test_doe.py:40-43 | the affected set is a subset of the table's keys and grows with the radius |
| `Geo.ShutdownZeroRadius` | test_doe.py:38-43 | if the distance is never negative and is zero exactly between equal coordinates, and airports have distinct coordinates, radius 0 selects the epicentre alone |
| `Geo.NearbyAirports` | test_doe.py:99-105 | the high-density pool is exactly the set of airports within the radius of at least one hub |
| `Geo.NearHubsMembership` | test_doe.py:101-104 | an airport is in the hub pool iff it is in the table and within the radius of some hub |
| `Geo.HubPoolIsUnion` | test_doe.py:19-23 | the 50-mile pool is the union of the 50-mile circles around KTEB, KPBI and KIAD |
| `Grounding.BuildGroundingLegsForTails` | test_doe.py:46-76 | the legs are one per tail at an affected airport, in tail-list order, leg k with identifier starting_leg_id + k |
| `Grounding.AffectedTailsMembership` | test_doe.py:58-60 | a tail gets a grounding leg iff it is in the list and its current location is affected |
| `Grounding.GroundingLegsShape` | test_doe.py:54-75 | leg k has identifier starting_leg_id + k; it is locked and has request 0, type MAINTENANCE and no crew; its duration is time_window_days * 24 * 60; it belongs to a tail of the list, and its origin and destination are that tail's current location, an affected airport |
| `Grounding.GroundedExactlyOnce` | test_doe.py:58-75 | with distinct tail numbers, a tail at an affected airport has exactly one grounding leg and any other tail none |
| `Demand.GenerateTails` | test_doe.py:129-156 | exactly num_tails tails; tail i has number 1000000 + i, a catalog type equal to its original type, and a pool location; the numbers are distinct |
| `Demand.GenerateBaselineRequests` | test_doe.py:159-190 | exactly num_requests requests, request k built from draw k with number k + 1; the counter holds, for every airport, the number of requests departing from it, and its keys are the departures |
| `Demand.AllowedTailTypesShape` | test_doe.py:168-174 | without substitutes AllowedTailTypes is the requested type alone; otherwise it has five distinct catalog types, the requested one first and the other four different from it, all at penalty 0 |
| `Demand.BaselineRequestShape` | test_doe.py:161-188 | a baseline request has identifier 50000 + rid, two different pool airports, a requested time within the window, PIC and SIC positions, and the requested type first among the allowed types |
| `Demand.DepCountTotal` | test_doe.py:160-190 | summed over the pool, the departure counts add up to the number of requests |
| `Surge.GenerateSurgeRequests` | test_doe.py:200-220 | extra request k departs from event airport number k / 10 of the visiting order and is built from draw k with identifier 900000 + k |
| `Surge.SurgeRequestShape` | test_doe.py:204-220 | extra request k has identifier 900000 + k; it departs from its event airport to a different pool airport within the window; it allows the requested type alone and has zero service and sliding time |
| `Surge.SurgePerAirport` | test_doe.py:201-210 | when each event airport is visited once, each one is the departure of exactly 10 extra requests and no other airport is the departure of any |
| `Scenario.GenerateScenario11Full` | test_doe.py:79-272 | puts the whole run together. Tails: scale-many, tail i built from tail draw i, numbered 1000000 + i, at pool airports. Baseline: tails * (2 or 4) * days requests, request k built from request draw k (so its allowed types have the shape above), with identifiers 50001.., arrival different from departure, a requested time within the window, a single allowed type without substitutes. Surge: 10 * (number of event airports) extras with identifiers 900000 + k and 10 per airport. The extras are exactly the surge built from the event visiting order and draws. Weather (reached only with the event factor on): the epicentre, the 30-mile shutdown set and the grounding legs from leg 50000000; without weather no legs and an empty affected set. The document is the as-written assembly of these parts, and the run stops on the unbound name exactly when the event factor is off |
| `Scenario.AssembleAsWritten` | test_doe.py:222-266 | the run stops on the unbound extra_requests exactly when no extra list was bound; otherwise the document keeps the tails, carries baseline + 2 * extras flight requests, and has a Legs entry exactly under weather, which is then empty |
| `Scenario.Assemble` | test_doe.py:222-266 | the corrected document keeps the tails, carries the baseline followed by each extra request once, and has a Legs entry exactly under weather, holding the grounding legs |
| `Scenario.Scenario11Sizes` | test_doe.py:84-96 | run 11 has 500 tails and 1000 baseline requests |
| `Scenario.NoEventStopsAsWritten` | test_doe.py:222-223 | as written, a run without the event factor ends in a NameError on extra_requests |
| `Scenario.NoEventKeepsBaseline` | test_doe.py:193-223 | as intended, a run without the event factor carries exactly the baseline requests |
| `Scenario.SurgeRequestsDuplicated` | test_doe.py:223-257 | as written, each extra request's identifier occurs twice among the flight requests |
| `Scenario.AssembledRequestIdsUnique` | test_doe.py:165-257 | as intended, with fewer than 850000 baseline requests every request identifier occurs at most once |
| `Scenario.WeatherLegsDropped` | test_doe.py:228-259 | as written, the Legs entry of a weather run is empty, so a tail at an affected airport has no grounding leg in the document |
| `Scenario.AssembledGroundedExactlyOnce` | test_doe.py:242-259 | as intended, the Legs entry of a weather run holds exactly one grounding leg per tail at an affected airport and none for the others |

## Left out

- Reading `srd.json` and building the coordinate table and the US airport list (test_doe.py:8-16): file I/O. Both are inputs.
- The body of `haversine` (test_doe.py:25-31): floating-point trigonometry. The distance is a supplied function `(Coord, Coord) -> real`.
- Random seeding and sampling: every `random.choice`, `random.sample` and `random.randint` is a supplied draw. The draw must be a value the call can return. A choice from an empty list (IndexError) or a 200-airport sample from a smaller table (ValueError) has no such value, so those runs fall outside the preconditions.
- `strftime` timestamps: times are integer minutes, and the planning-window start is a number.
- Console prints, the JSON dump and the module-level call (test_doe.py:106, 109, 198, 224, 239, 268-271, 278): output plumbing.
- Tail fields the generator fills with the same literal for every tail are not carried: AvailableTime, maintenance timestamp, costs, base airport and flags. AssignedProperties (the tail number, the aircraft type and three literal flags) is derived from carried fields and is not carried either. TailNumber is the string form of 1000000 + i and tailId the integer itself (test_doe.py:153); the model's `tailNumber` keeps that number for both.
- Leg fields StartTime (a formatted string) and the string constants are kept as minutes and plain strings.
- The Weather block's AffectedAirports is a sorted list in the source. The model keeps it as a set, because string sorting is not modelled.
- The DOE factors are a `Config`. Arrival rate, scale and geo density are two-valued. A scale outside {low, high} (a KeyError on scale_map) is not representable.
- The default `starting_leg_id` of 10000000 in `build_grounding_legs_for_tails` (test_doe.py:48): the only call passes 50000000, so the model always takes the first leg identifier as a parameter.
- The `seed` argument is ignored by the source, which reseeds from the clock. It has no counterpart.
- Python's iteration order over dictionaries and sets does not affect any set result. Only the event-airport visiting order matters: it fixes which extra request gets which identifier, so it is a supplied sequence that lists the event set once each.

## Findings

| source | as written | input that shows it | evidently intended | confidence | as-written member | corrected member |
|---|---|---|---|---|---|---|
| test_doe.py:222-223 | `extra_requests` is bound only inside `if event:` but read unconditionally | event = False | no extra requests; the baseline alone | not executed; high | `Scenario.NoEventStopsAsWritten` | `Scenario.NoEventKeepsBaseline` |
| test_doe.py:223-257 | extra requests are appended to `requests` and then concatenated again in the output | event = True with at least one airport within 30 miles of the event epicentre | each extra request once | not executed; high | `Scenario.SurgeRequestsDuplicated` | `Scenario.AssembledRequestIdsUnique` |
| test_doe.py:228-259 | the Legs entry is the empty `legs` list, not `weather_legs` | weather = True with a tail located at an affected airport | the grounding legs under Legs | not executed; high | `Scenario.WeatherLegsDropped` | `Scenario.AssembledGroundedExactlyOnce` |

The as-written document is `Scenario.AssembleAsWritten`. `Scenario.GenerateScenario11Full` produces it, as the code does. For a run with the event factor on, the corrected document is `Scenario.Assemble`, built from the same generated parts. Without the event factor the run stops before the weather step, so its parts carry no weather data; the corrected document then speaks only for the requests (`Scenario.NoEventKeepsBaseline`).
