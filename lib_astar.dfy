/** The standalone `AStarAlgorithm` class: the same single greedy pass over
    the deliveries in descending priority as the page's solver, with other
    filters and another score. A delivery whose id is already routed is
    skipped; a drone qualifies when the parcel fits, it arrives by the end of
    the window and the delivery point is outside every zone's base polygon
    at the arrival time (the path itself is not checked); the cost is the
    distance plus 5 per priority level below 6. */
module LibAStar {
  import opened Types
  import opened Zones
  import opened Schedule
  import Greedy

  /** `heuristic(currentPos, targetPos, priority)`. */
  function Heuristic(m: MathLib, from: Point, to: Point, priority: int): real {
    Distance(m, from, to) + ((6 - priority) as real) * 5.0
  }

  /** The priority bonus is the same for every drone, so comparing two
      drones' costs for one delivery is comparing their distances. */
  lemma HeuristicRanksByDistance(m: MathLib, p: Point, q: Point, target: Point, priority: int)
    ensures Heuristic(m, p, target, priority) < Heuristic(m, q, target, priority) <==>
              Distance(m, p, target) < Distance(m, q, target)
    ensures Heuristic(m, p, target, priority) <= Heuristic(m, q, target, priority) <==>
              Distance(m, p, target) <= Distance(m, q, target)
  {
  }

  /** `drone.currentTime + calculateDistance(drone.currentPos, delivery.pos) / drone.speed`. */
  function Arrival(m: MathLib, drone: Drone, s: Greedy.DroneState, d: Delivery): real
    requires drone.speed != 0.0
  {
    s.time + Distance(m, s.pos, d.pos) / drone.speed
  }

  /** The three filters of the candidate loop: capacity, the end of the
      window, and the delivery point outside every active zone on arrival. */
  predicate CanTake(m: MathLib, zones: seq<Zone>, drone: Drone, s: Greedy.DroneState, d: Delivery)
    requires drone.speed != 0.0
  {
    && s.load + d.weight <= drone.maxWeight
    && Arrival(m, drone, s, d) <= d.latest
    && !InAnyStaticZone(zones, d.pos, Arrival(m, drone, s, d))
  }

  /** The inner loop: among the drones that pass the filters, the nearest
      one, the first in fleet order on a tie (a later drone must cost
      strictly less to replace it). */
  method ChooseDrone(m: MathLib, zones: seq<Zone>, drones: seq<Drone>, states: seq<Greedy.DroneState>, delivery: Delivery)
    returns (best: Option<nat>)
    requires |states| == |drones| && PositiveSpeeds(drones)
    ensures best.None? <==> forall k :: 0 <= k < |drones| ==> !CanTake(m, zones, drones[k], states[k], delivery)
    ensures best.Some? ==> best.value < |drones| && CanTake(m, zones, drones[best.value], states[best.value], delivery)
    ensures best.Some? ==> forall k :: 0 <= k < |drones| && CanTake(m, zones, drones[k], states[k], delivery) ==>
              Distance(m, states[best.value].pos, delivery.pos) <= Distance(m, states[k].pos, delivery.pos)
    ensures best.Some? ==> forall k :: 0 <= k < best.value && CanTake(m, zones, drones[k], states[k], delivery) ==>
              Distance(m, states[best.value].pos, delivery.pos) < Distance(m, states[k].pos, delivery.pos)
    ensures best.Some? ==> Best(m, zones, drones, states, delivery, best.value)
  {
    best := None;
    var bestCost := 0.0;  // meaningful once `best` is set; stands for +infinity before
    var k := 0;
    while k < |drones|
      invariant 0 <= k <= |drones|
      invariant best.None? <==> forall j :: 0 <= j < k ==> !CanTake(m, zones, drones[j], states[j], delivery)
      invariant best.Some? ==> best.value < k && CanTake(m, zones, drones[best.value], states[best.value], delivery)
      invariant best.Some? ==> bestCost == Heuristic(m, states[best.value].pos, delivery.pos, delivery.priority)
      invariant best.Some? ==> forall j :: 0 <= j < k && CanTake(m, zones, drones[j], states[j], delivery) ==>
                  bestCost <= Heuristic(m, states[j].pos, delivery.pos, delivery.priority)
      invariant best.Some? ==> forall j :: 0 <= j < best.value && CanTake(m, zones, drones[j], states[j], delivery) ==>
                  bestCost < Heuristic(m, states[j].pos, delivery.pos, delivery.priority)
    {
      var drone := drones[k];
      var s := states[k];
      if s.load + delivery.weight <= drone.maxWeight {
        var travelTime := Distance(m, s.pos, delivery.pos) / drone.speed;
        var arrivalTime := s.time + travelTime;
        if arrivalTime <= delivery.latest {
          var blocked := IsInStaticNoFlyZone(zones, delivery.pos, arrivalTime);
          if !blocked {
            var cost := Heuristic(m, s.pos, delivery.pos, delivery.priority);
            if best.None? || cost < bestCost {
              best := Some(k);
              bestCost := cost;
            }
          }
        }
      }
      k := k + 1;
    }
    if best.Some? {
      forall j | 0 <= j < |drones| && CanTake(m, zones, drones[j], states[j], delivery)
        ensures Distance(m, states[best.value].pos, delivery.pos) <= Distance(m, states[j].pos, delivery.pos)
        ensures j < best.value ==> Distance(m, states[best.value].pos, delivery.pos) < Distance(m, states[j].pos, delivery.pos)
      {
        HeuristicRanksByDistance(m, states[best.value].pos, states[j].pos, delivery.pos, delivery.priority);
      }
    }
  }

  /** Drone `k` is the one `findOptimalRoute` commits `d` to: it passes the
      filters, no drone that passes is nearer, and every earlier drone that
      passes is farther (the strict `<` keeps the first on ties). */
  ghost predicate Best(m: MathLib, zones: seq<Zone>, drones: seq<Drone>, states: seq<Greedy.DroneState>, d: Delivery, k: int)
    requires |states| == |drones| && PositiveSpeeds(drones)
  {
    && 0 <= k < |drones| && CanTake(m, zones, drones[k], states[k], d)
    && (forall j :: 0 <= j < |drones| && CanTake(m, zones, drones[j], states[j], d) ==>
          Distance(m, states[k].pos, d.pos) <= Distance(m, states[j].pos, d.pos))
    && (forall j :: 0 <= j < k && CanTake(m, zones, drones[j], states[j], d) ==>
          Distance(m, states[k].pos, d.pos) < Distance(m, states[j].pos, d.pos))
  }

  /** At most one drone is the best. */
  lemma BestUnique(m: MathLib, zones: seq<Zone>, drones: seq<Drone>, states: seq<Greedy.DroneState>, d: Delivery, k1: int, k2: int)
    requires |states| == |drones| && PositiveSpeeds(drones)
    requires Best(m, zones, drones, states, d, k1) && Best(m, zones, drones, states, d, k2)
    ensures k1 == k2
  {
  }

  /** The solver's choice for `d`, as a value: the best drone, if any. */
  ghost function Choice(m: MathLib, zones: seq<Zone>, drones: seq<Drone>, states: seq<Greedy.DroneState>, d: Delivery): (c: Option<nat>)
    requires |states| == |drones| && PositiveSpeeds(drones)
    ensures c.Some? ==> Best(m, zones, drones, states, d, c.value)
  {
    if exists k :: Best(m, zones, drones, states, d, k) then
      var k :| Best(m, zones, drones, states, d, k); Some(k)
    else None
  }

  /** `findOptimalRoute`'s loop as a reference definition: from position
      `idx` of the processing order on, a delivery is skipped when its id is
      already routed or when no drone can take it; otherwise it joins the
      best drone's route. */
  ghost function Run(m: MathLib, zones: seq<Zone>, drones: seq<Drone>, sorted: seq<Delivery>, idx: nat,
                     states: seq<Greedy.DroneState>, plan: seq<seq<Delivery>>, routed: set<nat>): seq<seq<Delivery>>
    requires PositiveSpeeds(drones) && |states| == |drones| && |plan| == |drones| && idx <= |sorted|
    decreases |sorted| - idx
  {
    if idx == |sorted| then plan
    else
      var d := sorted[idx];
      var c := Choice(m, zones, drones, states, d);
      if d.id in routed || c.None? then
        Run(m, zones, drones, sorted, idx + 1, states, plan, routed)
      else
        var k := c.value;
        Run(m, zones, drones, sorted, idx + 1, states[k := Greedy.Moved(m, drones[k], states[k], d)],
            plan[k := plan[k] + [d]], routed + {d.id})
  }

  /** One pass of the loop body, described by the drone it picked (`None`
      for a skip), is one step of `Run`; it skips exactly when the id is
      routed or no drone can take the delivery, and otherwise extends the
      best drone's route. */
  lemma StepIsRun(m: MathLib, zones: seq<Zone>, drones: seq<Drone>, sorted: seq<Delivery>, idx: nat,
                  states: seq<Greedy.DroneState>, plan: seq<seq<Delivery>>, routed: set<nat>, best: Option<nat>,
                  states': seq<Greedy.DroneState>, plan': seq<seq<Delivery>>, routed': set<nat>)
    requires PositiveSpeeds(drones) && |states| == |drones| && |plan| == |drones| && idx < |sorted|
    requires best.None? ==>
               && (sorted[idx].id in routed || forall k :: 0 <= k < |drones| ==> !CanTake(m, zones, drones[k], states[k], sorted[idx]))
               && states' == states && plan' == plan && routed' == routed
    requires best.Some? ==>
               && sorted[idx].id !in routed && Best(m, zones, drones, states, sorted[idx], best.value)
               && states' == states[best.value := Greedy.Moved(m, drones[best.value], states[best.value], sorted[idx])]
               && plan' == plan[best.value := plan[best.value] + [sorted[idx]]]
               && routed' == routed + {sorted[idx].id}
    ensures |states'| == |drones| && |plan'| == |drones|
    ensures Run(m, zones, drones, sorted, idx + 1, states', plan', routed')
         == Run(m, zones, drones, sorted, idx, states, plan, routed)
    ensures plan' == plan <==>
              || sorted[idx].id in routed
              || forall k :: 0 <= k < |drones| ==> !CanTake(m, zones, drones[k], states[k], sorted[idx])
    ensures plan' != plan ==> exists k :: Best(m, zones, drones, states, sorted[idx], k) && plan' == plan[k := plan[k] + [sorted[idx]]]
  {
    if best.Some? {
      var k := best.value;
      BestUnique(m, zones, drones, states, sorted[idx], Choice(m, zones, drones, states, sorted[idx]).value, k);
      assert |plan'[k]| == |plan[k]| + 1;
    }
  }

  /** Every delivery point of a route lies outside every active zone (base
      polygons) at the moment the drone reaches it. */
  ghost predicate ClearOnArrival(zones: seq<Zone>, m: MathLib, drone: Drone, ds: seq<Delivery>)
    requires drone.speed != 0.0
  {
    forall i {:trigger EndTime(m, drone, ds[..i])} | 0 < i <= |ds| :: !InAnyStaticZone(zones, ds[i - 1].pos, EndTime(m, drone, ds[..i]))
  }

  lemma ClearExtend(zones: seq<Zone>, m: MathLib, drone: Drone, ds: seq<Delivery>, d: Delivery)
    requires drone.speed != 0.0
    ensures ClearOnArrival(zones, m, drone, ds + [d]) <==>
              ClearOnArrival(zones, m, drone, ds) && !InAnyStaticZone(zones, d.pos, EndTime(m, drone, ds + [d]))
  {
    var e := ds + [d];
    forall i | 0 < i <= |ds| ensures e[..i] == ds[..i] && e[i - 1] == ds[i - 1] {
      PrefixOfSnoc(ds, d, i);
    }
    assert e[..|e|] == e;
  }

  /** One drone's route respects its capacity after every delivery, reaches
      every delivery by the end of its window, and finds every delivery
      point clear when it gets there. */
  ghost predicate RouteFeasible(m: MathLib, zones: seq<Zone>, drone: Drone, ds: seq<Delivery>)
    requires drone.speed != 0.0
  {
    WithinCapacity(drone, ds) && MeetsDeadlines(m, drone, ds) && ClearOnArrival(zones, m, drone, ds)
  }

  /** Everything the solver keeps true about one drone after processing `sorted[..idx]`. */
  ghost predicate DroneOk(m: MathLib, zones: seq<Zone>, deliveries: seq<Delivery>, sorted: seq<Delivery>, idx: nat,
                          routes: map<nat, seq<nat>>, drone: Drone, s: Greedy.DroneState, ds: seq<Delivery>)
    requires drone.speed != 0.0
  {
    && Greedy.Tracked(m, drone, s, ds)
    && RouteFeasible(m, zones, drone, ds)
    && Greedy.Reported(routes, drone, ds)
    && Greedy.FromRequests(deliveries, ds)
    && Greedy.Ordered(ds)
    && Greedy.Outranks(ds, sorted, idx)
  }

  /** The loop invariant of `findOptimalRoute` after processing `sorted[..idx]`:
      `routed` is `assignedDeliveries`, and its size counts the plan. */
  ghost predicate Inv(m: MathLib, zones: seq<Zone>, drones: seq<Drone>, deliveries: seq<Delivery>,
                      sorted: seq<Delivery>, idx: nat, states: seq<Greedy.DroneState>, plan: seq<seq<Delivery>>,
                      routed: set<nat>, routes: map<nat, seq<nat>>, totalDistance: real, energy: real)
    requires PositiveSpeeds(drones)
  {
    && idx <= |sorted| && |states| == |drones| && |plan| == |drones|
    && Fleet(m, zones, drones, deliveries, sorted, idx, states, plan, routes)
    && Greedy.Tally(m, drones, plan, routed, |routed|, totalDistance, energy)
  }

  /** The per-drone part of the invariant. */
  ghost predicate Fleet(m: MathLib, zones: seq<Zone>, drones: seq<Drone>, deliveries: seq<Delivery>,
                        sorted: seq<Delivery>, idx: nat, states: seq<Greedy.DroneState>, plan: seq<seq<Delivery>>,
                        routes: map<nat, seq<nat>>)
    requires PositiveSpeeds(drones) && |states| == |drones| && |plan| == |drones|
  {
    && (forall k {:trigger DroneOk(m, zones, deliveries, sorted, idx, routes, drones[k], states[k], plan[k])} ::
          0 <= k < |drones| ==> DroneOk(m, zones, deliveries, sorted, idx, routes, drones[k], states[k], plan[k]))
    && routes.Keys <= DroneIds(drones)
  }

  /** What the solver promises about every route. */
  ghost predicate RoutesSound(m: MathLib, zones: seq<Zone>, drones: seq<Drone>, deliveries: seq<Delivery>,
                              routes: map<nat, seq<nat>>, plan: seq<seq<Delivery>>)
    requires PositiveSpeeds(drones) && |plan| == |drones|
  {
    && routes.Keys <= DroneIds(drones)
    && (forall k :: 0 <= k < |drones| ==> Greedy.Reported(routes, drones[k], plan[k]))
    && (forall k :: 0 <= k < |drones| ==> RouteFeasible(m, zones, drones[k], plan[k]))
    && (forall k :: 0 <= k < |drones| ==> Greedy.Ordered(plan[k]) && Greedy.FromRequests(deliveries, plan[k]))
  }

  /** The class: the instance it was built with, and the solver. */
  class AStarAlgorithm {
    const math: MathLib
    const drones: seq<Drone>
    const deliveries: seq<Delivery>
    const noFlyZones: seq<Zone>

    constructor (math: MathLib, drones: seq<Drone>, deliveries: seq<Delivery>, noFlyZones: seq<Zone>)
      ensures this.math == math && this.drones == drones && this.deliveries == deliveries && this.noFlyZones == noFlyZones
    {
      this.math := math;
      this.drones := drones;
      this.deliveries := deliveries;
      this.noFlyZones := noFlyZones;
    }

    /** `findOptimalRoute`. `plan[k]` is drone `k`'s route as deliveries; it
        is ghost and records what the reported ids stand for. */
    method FindOptimalRoute() returns (result: RouteResult, ghost plan: seq<seq<Delivery>>)
      requires PositiveSpeeds(drones) && UniqueDroneIds(drones)
      ensures |plan| == |drones|
      ensures RoutesSound(math, noFlyZones, drones, deliveries, result.routes, plan)
      ensures Greedy.DistinctIds(plan)
      ensures result.completed == Greedy.Count(plan)
      ensures result.totalDistance == Greedy.Sum(Greedy.Lengths(math, drones, plan))
      ensures result.energy == Greedy.Sum(Greedy.Energies(math, drones, plan))
      ensures plan == Run(math, noFlyZones, drones, Greedy.ByPriority(deliveries), 0,
                          Greedy.StartStates(drones), Greedy.EmptyPlan(|drones|), {})
    {
      var sorted := Greedy.ByPriority(deliveries);
      Greedy.ByPriorityFacts(deliveries);
      assert Greedy.Descending(sorted);
      var routes: map<nat, seq<nat>> := map[];
      var routed: set<nat> := {};
      var totalDistance, energy := 0.0, 0.0;
      var states := Greedy.StartStates(drones);
      plan := Greedy.EmptyPlan(|drones|);
      Start(math, noFlyZones, drones, deliveries, sorted, states, plan);
      var idx := 0;
      while idx < |sorted|
        invariant Inv(math, noFlyZones, drones, deliveries, sorted, idx, states, plan, routed, routes, totalDistance, energy)
        invariant Greedy.Descending(sorted) && multiset(sorted) == multiset(deliveries)
        invariant Run(math, noFlyZones, drones, sorted, idx, states, plan, routed)
               == Run(math, noFlyZones, drones, sorted, 0, Greedy.StartStates(drones), Greedy.EmptyPlan(|drones|), {})
      {
        states, plan, routed, routes, totalDistance, energy :=
          Step(math, noFlyZones, drones, deliveries, sorted, idx, states, plan, routed, routes, totalDistance, energy);
        idx := idx + 1;
      }
      result := RouteResult(routes, totalDistance, |routed|, energy);
      Sound(math, noFlyZones, drones, deliveries, sorted, idx, states, plan, routed, routes, totalDistance, energy);
    }
  }

  /** One iteration of the solver's loop: `sorted[idx]` is skipped when its
      id is already routed, and otherwise goes to the drone `ChooseDrone`
      picks, if any. */
  method Step(m: MathLib, zones: seq<Zone>, drones: seq<Drone>, deliveries: seq<Delivery>,
              sorted: seq<Delivery>, idx: nat, states: seq<Greedy.DroneState>, ghost plan: seq<seq<Delivery>>,
              routed: set<nat>, routes: map<nat, seq<nat>>, totalDistance: real, energy: real)
    returns (states': seq<Greedy.DroneState>, ghost plan': seq<seq<Delivery>>, routed': set<nat>,
             routes': map<nat, seq<nat>>, totalDistance': real, energy': real)
    requires PositiveSpeeds(drones) && UniqueDroneIds(drones) && idx < |sorted|
    requires Greedy.Descending(sorted) && multiset(sorted) == multiset(deliveries)
    requires Inv(m, zones, drones, deliveries, sorted, idx, states, plan, routed, routes, totalDistance, energy)
    ensures Inv(m, zones, drones, deliveries, sorted, idx + 1, states', plan', routed', routes', totalDistance', energy')
    ensures Run(m, zones, drones, sorted, idx + 1, states', plan', routed')
         == Run(m, zones, drones, sorted, idx, states, plan, routed)
    ensures plan' == plan <==>
              || sorted[idx].id in routed
              || forall k :: 0 <= k < |drones| ==> !CanTake(m, zones, drones[k], states[k], sorted[idx])
    ensures plan' != plan ==> exists k :: Best(m, zones, drones, states, sorted[idx], k) && plan' == plan[k := plan[k] + [sorted[idx]]]
  {
    var delivery := sorted[idx];
    assert delivery in multiset(deliveries);
    states', plan', routed', routes', totalDistance', energy' := states, plan, routed, routes, totalDistance, energy;
    var best: Option<nat> := None;
    if delivery.id !in routed {
      best := ChooseDrone(m, zones, drones, states, delivery);
    }
    if best.Some? {
      states', plan', routed', routes', totalDistance', energy' :=
        Place(m, zones, drones, deliveries, sorted, idx, states, plan, routed, routes, totalDistance, energy, best.value);
    } else {
      Skip(m, zones, drones, deliveries, sorted, idx, states, plan, routed, routes, totalDistance, energy);
    }
    StepIsRun(m, zones, drones, sorted, idx, states, plan, routed, best, states', plan', routed');
  }

  /** The moment of a commit: the invariant holds, `sorted[idx]` is not yet
      routed, and drone `k` passes the filters for it. */
  ghost predicate CanPlace(m: MathLib, zones: seq<Zone>, drones: seq<Drone>, deliveries: seq<Delivery>,
                           sorted: seq<Delivery>, idx: nat, states: seq<Greedy.DroneState>, plan: seq<seq<Delivery>>,
                           routed: set<nat>, routes: map<nat, seq<nat>>, totalDistance: real, energy: real, k: nat)
  {
    && PositiveSpeeds(drones) && UniqueDroneIds(drones) && idx < |sorted| && k < |drones|
    && Greedy.Descending(sorted) && sorted[idx] in deliveries
    && Inv(m, zones, drones, deliveries, sorted, idx, states, plan, routed, routes, totalDistance, energy)
    && sorted[idx].id !in routed && CanTake(m, zones, drones[k], states[k], sorted[idx])
  }

  /** `sorted[idx]` goes to drone `k`, which can take it: the invariant moves on. */
  method Place(m: MathLib, zones: seq<Zone>, drones: seq<Drone>, deliveries: seq<Delivery>,
               sorted: seq<Delivery>, idx: nat, states: seq<Greedy.DroneState>, ghost plan: seq<seq<Delivery>>,
               routed: set<nat>, routes: map<nat, seq<nat>>, totalDistance: real, energy: real, k: nat)
    returns (states': seq<Greedy.DroneState>, ghost plan': seq<seq<Delivery>>, routed': set<nat>,
             routes': map<nat, seq<nat>>, totalDistance': real, energy': real)
    requires CanPlace(m, zones, drones, deliveries, sorted, idx, states, plan, routed, routes, totalDistance, energy, k)
    ensures Inv(m, zones, drones, deliveries, sorted, idx + 1, states', plan', routed', routes', totalDistance', energy')
    ensures plan' == plan[k := plan[k] + [sorted[idx]]]
    ensures states' == states[k := Greedy.Moved(m, drones[k], states[k], sorted[idx])]
    ensures routed' == routed + {sorted[idx].id}
  {
    var completed;
    states', plan', routed', routes', completed, totalDistance', energy' :=
      Greedy.Assign(m, drones, states, plan, routed, routes, |routed|, totalDistance, energy, k, sorted[idx]);
    Commit(m, zones, drones, deliveries, sorted, idx, states, plan, routed, routes, totalDistance, energy, k,
           states', plan', routed', routes', totalDistance', energy');
  }

  /** Committing `sorted[idx]` to drone `k` keeps the invariant. */
  lemma Commit(m: MathLib, zones: seq<Zone>, drones: seq<Drone>, deliveries: seq<Delivery>,
               sorted: seq<Delivery>, idx: nat, states: seq<Greedy.DroneState>, plan: seq<seq<Delivery>>,
               routed: set<nat>, routes: map<nat, seq<nat>>, totalDistance: real, energy: real, k: nat,
               states': seq<Greedy.DroneState>, plan': seq<seq<Delivery>>, routed': set<nat>,
               routes': map<nat, seq<nat>>, totalDistance': real, energy': real)
    requires CanPlace(m, zones, drones, deliveries, sorted, idx, states, plan, routed, routes, totalDistance, energy, k)
    requires states' == states[k := Greedy.Moved(m, drones[k], states[k], sorted[idx])]
    requires plan' == plan[k := plan[k] + [sorted[idx]]]
    requires routed' == routed + {sorted[idx].id} && routes' == Greedy.Appended(routes, drones[k].id, sorted[idx].id)
    requires totalDistance' == totalDistance + Distance(m, states[k].pos, sorted[idx].pos)
    requires energy' == energy + LegEnergy(Distance(m, states[k].pos, sorted[idx].pos), sorted[idx].weight)
    ensures Inv(m, zones, drones, deliveries, sorted, idx + 1, states', plan', routed', routes', totalDistance', energy')
  {
    var d := sorted[idx];
    assert states[k].pos == EndPos(drones[k].startPos, plan[k]) by {
      assert DroneOk(m, zones, deliveries, sorted, idx, routes, drones[k], states[k], plan[k]);
    }
    DronesStep(m, zones, drones, deliveries, sorted, idx, states, plan, routes, k);
    var distance := Distance(m, states[k].pos, d.pos);
    Greedy.TallyStep(m, drones, plan, routed, |routed|, totalDistance, energy, k, d);
    assert |routed + {d.id}| == |routed| + 1;
    assert Greedy.Tally(m, drones, plan[k := plan[k] + [d]], routed + {d.id}, |routed + {d.id}|,
                        totalDistance + distance, energy + LegEnergy(distance, d.weight));
  }

  lemma Start(m: MathLib, zones: seq<Zone>, drones: seq<Drone>, deliveries: seq<Delivery>, sorted: seq<Delivery>,
              states: seq<Greedy.DroneState>, plan: seq<seq<Delivery>>)
    requires PositiveSpeeds(drones)
    requires states == Greedy.StartStates(drones)
    requires plan == Greedy.EmptyPlan(|drones|)
    ensures Inv(m, zones, drones, deliveries, sorted, 0, states, plan, {}, map[], 0.0, 0.0)
  {
    Greedy.EmptyTotals(m, drones, plan, |drones|);
    assert Greedy.Lengths(m, drones, plan)[..|drones|] == Greedy.Lengths(m, drones, plan);
    assert Greedy.Energies(m, drones, plan)[..|drones|] == Greedy.Energies(m, drones, plan);
    assert plan[..|drones|] == plan;
    forall k | 0 <= k < |drones| ensures DroneOk(m, zones, deliveries, sorted, 0, map[], drones[k], states[k], plan[k]) {
    }
  }

  /** A delivery that is not routed leaves the state alone. */
  lemma Skip(m: MathLib, zones: seq<Zone>, drones: seq<Drone>, deliveries: seq<Delivery>,
             sorted: seq<Delivery>, idx: nat, states: seq<Greedy.DroneState>, plan: seq<seq<Delivery>>,
             routed: set<nat>, routes: map<nat, seq<nat>>, totalDistance: real, energy: real)
    requires PositiveSpeeds(drones) && idx < |sorted|
    requires Inv(m, zones, drones, deliveries, sorted, idx, states, plan, routed, routes, totalDistance, energy)
    ensures Inv(m, zones, drones, deliveries, sorted, idx + 1, states, plan, routed, routes, totalDistance, energy)
  {
    forall k | 0 <= k < |drones| ensures DroneOk(m, zones, deliveries, sorted, idx + 1, routes, drones[k], states[k], plan[k]) {
      assert DroneOk(m, zones, deliveries, sorted, idx, routes, drones[k], states[k], plan[k]);
    }
  }

  /** The per-drone facts of the invariant give what the solver promises. */
  lemma Sound(m: MathLib, zones: seq<Zone>, drones: seq<Drone>, deliveries: seq<Delivery>,
              sorted: seq<Delivery>, idx: nat, states: seq<Greedy.DroneState>, plan: seq<seq<Delivery>>,
              routed: set<nat>, routes: map<nat, seq<nat>>, totalDistance: real, energy: real)
    requires PositiveSpeeds(drones)
    requires Inv(m, zones, drones, deliveries, sorted, idx, states, plan, routed, routes, totalDistance, energy)
    ensures RoutesSound(m, zones, drones, deliveries, routes, plan)
    ensures Greedy.DistinctIds(plan) && |routed| == Greedy.Count(plan)
  {
    forall k | 0 <= k < |drones|
      ensures Greedy.Reported(routes, drones[k], plan[k]) && RouteFeasible(m, zones, drones[k], plan[k])
      ensures Greedy.Ordered(plan[k]) && Greedy.FromRequests(deliveries, plan[k])
    {
      assert DroneOk(m, zones, deliveries, sorted, idx, routes, drones[k], states[k], plan[k]);
    }
  }

  /** Committing `sorted[idx]` to drone `k`: that drone's facts carry over
      to its extended route, every other drone's carry over unchanged. */
  lemma DronesStep(m: MathLib, zones: seq<Zone>, drones: seq<Drone>, deliveries: seq<Delivery>,
                   sorted: seq<Delivery>, idx: nat, states: seq<Greedy.DroneState>, plan: seq<seq<Delivery>>,
                   routes: map<nat, seq<nat>>, k: nat)
    requires PositiveSpeeds(drones) && UniqueDroneIds(drones) && idx < |sorted| && k < |drones|
    requires |states| == |drones| && |plan| == |drones|
    requires Greedy.Descending(sorted) && sorted[idx] in deliveries
    requires Fleet(m, zones, drones, deliveries, sorted, idx, states, plan, routes)
    requires CanTake(m, zones, drones[k], states[k], sorted[idx])
    ensures Fleet(m, zones, drones, deliveries, sorted, idx + 1, states[k := Greedy.Moved(m, drones[k], states[k], sorted[idx])],
                  plan[k := plan[k] + [sorted[idx]]], Greedy.Appended(routes, drones[k].id, sorted[idx].id))
  {
    var states' := states[k := Greedy.Moved(m, drones[k], states[k], sorted[idx])];
    var plan' := plan[k := plan[k] + [sorted[idx]]];
    var routes' := Greedy.Appended(routes, drones[k].id, sorted[idx].id);
    assert DroneOk(m, zones, deliveries, sorted, idx, routes, drones[k], states[k], plan[k]);
    DroneExtends(m, zones, deliveries, sorted, idx, routes, drones[k], states[k], plan[k]);
    forall j | 0 <= j < |drones| && j != k
      ensures DroneOk(m, zones, deliveries, sorted, idx + 1, routes', drones[j], states'[j], plan'[j])
    {
      assert drones[j].id != drones[k].id;
      assert DroneOk(m, zones, deliveries, sorted, idx, routes, drones[j], states[j], plan[j]);
      DroneUnaffected(m, zones, deliveries, sorted, idx, routes, drones[j], states[j], plan[j], drones[k].id, sorted[idx].id);
    }
    assert drones[k].id in DroneIds(drones);
  }

  /** Another drone's facts survive the commit: its map entry is untouched
      and outranking one fewer pending delivery is weaker. */
  lemma DroneUnaffected(m: MathLib, zones: seq<Zone>, deliveries: seq<Delivery>, sorted: seq<Delivery>, idx: nat,
                        routes: map<nat, seq<nat>>, drone: Drone, s: Greedy.DroneState, ds: seq<Delivery>, g: nat, id: nat)
    requires drone.speed != 0.0 && drone.id != g
    requires DroneOk(m, zones, deliveries, sorted, idx, routes, drone, s, ds)
    ensures DroneOk(m, zones, deliveries, sorted, idx + 1, Greedy.Appended(routes, g, id), drone, s, ds)
  {
  }

  /** Appending `sorted[idx]` to a drone that can take it. */
  lemma DroneExtends(m: MathLib, zones: seq<Zone>, deliveries: seq<Delivery>, sorted: seq<Delivery>, idx: nat,
                     routes: map<nat, seq<nat>>, drone: Drone, s: Greedy.DroneState, ds: seq<Delivery>)
    requires drone.speed != 0.0 && idx < |sorted| && Greedy.Descending(sorted) && sorted[idx] in deliveries
    requires DroneOk(m, zones, deliveries, sorted, idx, routes, drone, s, ds)
    requires CanTake(m, zones, drone, s, sorted[idx])
    ensures
      var d := sorted[idx];
      DroneOk(m, zones, deliveries, sorted, idx + 1, Greedy.Appended(routes, drone.id, d.id), drone,
              Greedy.Moved(m, drone, s, d), ds + [d])
  {
    var d := sorted[idx];
    Greedy.TrackedExtends(m, zones, drone, s, ds, d);
    FeasibleExtends(m, zones, drone, s, ds, d);
    Greedy.ReportedExtends(routes, drone, ds, d);
    Greedy.OrderExtends(deliveries, sorted, idx, ds);
  }

  lemma FeasibleExtends(m: MathLib, zones: seq<Zone>, drone: Drone, s: Greedy.DroneState, ds: seq<Delivery>, d: Delivery)
    requires drone.speed != 0.0 && Greedy.Tracked(m, drone, s, ds) && RouteFeasible(m, zones, drone, ds)
    requires CanTake(m, zones, drone, s, d)
    ensures RouteFeasible(m, zones, drone, ds + [d])
  {
    Snoc(m, drone, ds, d);
    CapacityExtend(drone, ds, d);
    DeadlinesExtend(m, drone, ds, d);
    ClearExtend(zones, m, drone, ds, d);
  }
}
