/** The page's "A*" solver (`aStarAlgorithm`): a single greedy pass over the
    deliveries in descending priority. Each delivery goes to the feasible
    drone with the smallest score, and that drone's position, load and clock
    move on; nothing is ever reassigned. */
module Greedy {
  import opened Types
  import opened Zones
  import opened RouteCheck
  import opened Schedule
  import opened StableSort

  /** The per-drone record the solver mutates (`current_pos`, `current_load`, `current_time`). */
  datatype DroneState = DroneState(pos: Point, load: real, time: real)

  function PriorityKey(d: Delivery): real { -(d.priority as real) }

  /** `[...deliveries].sort((a, b) => b.priority - a.priority)`. */
  function ByPriority(deliveries: seq<Delivery>): seq<Delivery> {
    SortBy(deliveries, PriorityKey)
  }

  /** The processing order holds every delivery once, highest priority first,
      and keeps the input order among deliveries of equal priority. */
  lemma ByPriorityFacts(deliveries: seq<Delivery>)
    ensures multiset(ByPriority(deliveries)) == multiset(deliveries)
    ensures forall i, j :: 0 <= i < j < |ByPriority(deliveries)| ==>
              ByPriority(deliveries)[i].priority >= ByPriority(deliveries)[j].priority
    ensures forall c :: WithKey(ByPriority(deliveries), PriorityKey, c) == WithKey(deliveries, PriorityKey, c)
  {
    SortByFacts(deliveries, PriorityKey);
    var s := ByPriority(deliveries);
    forall i, j | 0 <= i < j < |s| ensures s[i].priority >= s[j].priority {
      assert PriorityKey(s[i]) <= PriorityKey(s[j]);
    }
  }

  /** The three filters of the candidate loop: capacity, the end of the
      window, and the sampled route from where the drone is now. */
  predicate CanTake(m: MathLib, zones: seq<Zone>, drone: Drone, s: DroneState, d: Delivery)
    requires drone.speed != 0.0
  {
    && s.load + d.weight <= drone.maxWeight
    && s.time + Distance(m, s.pos, d.pos) / drone.speed <= d.latest
    && RouteValid(m, zones, s.pos, d.pos, s.time, drone.speed)
  }

  /** The heuristic: distance, a priority penalty and a lateness penalty. */
  function Score(m: MathLib, drone: Drone, s: DroneState, d: Delivery): real
    requires drone.speed != 0.0
  {
    var distance := Distance(m, s.pos, d.pos);
    var arrival := s.time + distance / drone.speed;
    distance + ((6 - d.priority) as real) * 10.0 + Max(0.0, arrival - d.latest) * 50.0
  }

  /** For a drone that passes the filters the lateness penalty is zero, so
      its score is its distance plus a term that depends only on the delivery. */
  lemma ScoreOfCandidate(m: MathLib, zones: seq<Zone>, drone: Drone, s: DroneState, d: Delivery)
    requires drone.speed != 0.0 && CanTake(m, zones, drone, s, d)
    ensures Score(m, drone, s, d) == Distance(m, s.pos, d.pos) + ((6 - d.priority) as real) * 10.0
  {
  }

  /** The inner loop: the first drone, in fleet order, with the smallest
      score among those that pass the filters (a later drone must score
      strictly less to replace it). */
  method ChooseDrone(m: MathLib, zones: seq<Zone>, drones: seq<Drone>, states: seq<DroneState>, delivery: Delivery)
    returns (best: Option<nat>)
    requires |states| == |drones| && PositiveSpeeds(drones)
    ensures best.None? <==> forall k :: 0 <= k < |drones| ==> !CanTake(m, zones, drones[k], states[k], delivery)
    ensures best.Some? ==> best.value < |drones| && CanTake(m, zones, drones[best.value], states[best.value], delivery)
    ensures best.Some? ==> forall k :: 0 <= k < |drones| && CanTake(m, zones, drones[k], states[k], delivery) ==>
              Score(m, drones[best.value], states[best.value], delivery) <= Score(m, drones[k], states[k], delivery)
    ensures best.Some? ==> forall k :: 0 <= k < best.value && CanTake(m, zones, drones[k], states[k], delivery) ==>
              Score(m, drones[best.value], states[best.value], delivery) < Score(m, drones[k], states[k], delivery)
    ensures best.Some? ==> forall k :: 0 <= k < |drones| && CanTake(m, zones, drones[k], states[k], delivery) ==>
              Distance(m, states[best.value].pos, delivery.pos) <= Distance(m, states[k].pos, delivery.pos)
    ensures best.Some? ==> Best(m, zones, drones, states, delivery, best.value)
  {
    best := None;
    var bestScore := 0.0;  // meaningful once `best` is set; stands for +infinity before
    var k := 0;
    while k < |drones|
      invariant 0 <= k <= |drones|
      invariant best.None? <==> forall j :: 0 <= j < k ==> !CanTake(m, zones, drones[j], states[j], delivery)
      invariant best.Some? ==> best.value < k && CanTake(m, zones, drones[best.value], states[best.value], delivery)
      invariant best.Some? ==> bestScore == Score(m, drones[best.value], states[best.value], delivery)
      invariant best.Some? ==> forall j :: 0 <= j < k && CanTake(m, zones, drones[j], states[j], delivery) ==>
                  bestScore <= Score(m, drones[j], states[j], delivery)
      invariant best.Some? ==> forall j :: 0 <= j < best.value && CanTake(m, zones, drones[j], states[j], delivery) ==>
                  bestScore < Score(m, drones[j], states[j], delivery)
    {
      var drone := drones[k];
      var s := states[k];
      var travelTime := Distance(m, s.pos, delivery.pos) / drone.speed;
      var arrivalTime := s.time + travelTime;
      if s.load + delivery.weight <= drone.maxWeight && arrivalTime <= delivery.latest {
        var clear := IsRouteValid(m, zones, s.pos, delivery.pos, s.time, drone.speed);
        if clear {
          var heuristic := Score(m, drone, s, delivery);
          if best.None? || heuristic < bestScore {
            best := Some(k);
            bestScore := heuristic;
          }
        }
      }
      k := k + 1;
    }
    if best.Some? {
      forall j | 0 <= j < |drones| && CanTake(m, zones, drones[j], states[j], delivery)
        ensures Distance(m, states[best.value].pos, delivery.pos) <= Distance(m, states[j].pos, delivery.pos)
      {
        ScoreOfCandidate(m, zones, drones[j], states[j], delivery);
        ScoreOfCandidate(m, zones, drones[best.value], states[best.value], delivery);
      }
    }
  }

  /** Drone `k` is the one the solver commits `d` to: it passes the checks,
      no drone that passes has a lower score, and every earlier drone that
      passes has a higher one (the strict `<` keeps the first on ties). */
  ghost predicate Best(m: MathLib, zones: seq<Zone>, drones: seq<Drone>, states: seq<DroneState>, d: Delivery, k: int)
    requires |states| == |drones| && PositiveSpeeds(drones)
  {
    && 0 <= k < |drones| && CanTake(m, zones, drones[k], states[k], d)
    && (forall j :: 0 <= j < |drones| && CanTake(m, zones, drones[j], states[j], d) ==>
          Score(m, drones[k], states[k], d) <= Score(m, drones[j], states[j], d))
    && (forall j :: 0 <= j < k && CanTake(m, zones, drones[j], states[j], d) ==>
          Score(m, drones[k], states[k], d) < Score(m, drones[j], states[j], d))
  }

  /** At most one drone is the best. */
  lemma BestUnique(m: MathLib, zones: seq<Zone>, drones: seq<Drone>, states: seq<DroneState>, d: Delivery, k1: int, k2: int)
    requires |states| == |drones| && PositiveSpeeds(drones)
    requires Best(m, zones, drones, states, d, k1) && Best(m, zones, drones, states, d, k2)
    ensures k1 == k2
  {
  }

  /** The solver's choice for `d`, as a value: the best drone, if any. */
  ghost function Choice(m: MathLib, zones: seq<Zone>, drones: seq<Drone>, states: seq<DroneState>, d: Delivery): (c: Option<nat>)
    requires |states| == |drones| && PositiveSpeeds(drones)
    ensures c.Some? ==> Best(m, zones, drones, states, d, c.value)
  {
    if exists k :: Best(m, zones, drones, states, d, k) then
      var k :| Best(m, zones, drones, states, d, k); Some(k)
    else None
  }

  /** A drone record agrees with replaying the drone's route so far. */
  ghost predicate Tracked(m: MathLib, drone: Drone, s: DroneState, ds: seq<Delivery>)
    requires drone.speed != 0.0
  {
    s == DroneState(EndPos(drone.startPos, ds), Load(ds), EndTime(m, drone, ds))
  }

  /** One drone's route respects its capacity after every delivery, reaches
      every delivery by the end of its window, and every leg passed the route
      check when it was flown. */
  ghost predicate RouteFeasible(m: MathLib, zones: seq<Zone>, drone: Drone, ds: seq<Delivery>)
    requires drone.speed != 0.0
  {
    WithinCapacity(drone, ds) && MeetsDeadlines(m, drone, ds) && LegsClear(m, zones, drone, ds)
  }

  /** Every delivery of a route had its point outside every zone at the
      start of its window (checked one delivery at a time, as appended). */
  ghost predicate StartsClear(m: MathLib, zones: seq<Zone>, ds: seq<Delivery>)
    decreases |ds|
  {
    ds == [] ||
    (StartsClear(m, zones, ds[..|ds| - 1]) && !InAnyZone(m, zones, ds[|ds| - 1].pos, ds[|ds| - 1].earliest))
  }

  lemma {:induction false} StartsClearMeans(m: MathLib, zones: seq<Zone>, ds: seq<Delivery>)
    ensures StartsClear(m, zones, ds) <==> forall i :: 0 <= i < |ds| ==> !InAnyZone(m, zones, ds[i].pos, ds[i].earliest)
    decreases |ds|
  {
    if ds != [] {
      var prev := ds[..|ds| - 1];
      StartsClearMeans(m, zones, prev);
      assert forall i :: 0 <= i < |prev| ==> prev[i] == ds[i];
    }
  }

  /** The reported map's entry for one drone: present exactly when the drone
      took a delivery, listing its deliveries' ids in the order taken. */
  ghost predicate Reported(routes: map<nat, seq<nat>>, drone: Drone, ds: seq<Delivery>) {
    (drone.id in routes <==> ds != []) && (drone.id in routes ==> routes[drone.id] == IdsOf(ds))
  }

  /** Along a route, priorities never increase. */
  ghost predicate Ordered(ds: seq<Delivery>) {
    forall i, j :: 0 <= i < j < |ds| ==> ds[i].priority >= ds[j].priority
  }

  /** Every delivery of a route outranks (or ties) every delivery from `sorted[idx]` on. */
  ghost predicate Outranks(ds: seq<Delivery>, sorted: seq<Delivery>, idx: nat) {
    forall i, j :: 0 <= i < |ds| && idx <= j < |sorted| ==> ds[i].priority >= sorted[j].priority
  }

  ghost predicate FromRequests(deliveries: seq<Delivery>, ds: seq<Delivery>) {
    forall i :: 0 <= i < |ds| ==> ds[i] in deliveries
  }

  /** Everything the solver keeps true about one drone after processing `sorted[..idx]`. */
  ghost predicate DroneOk(m: MathLib, zones: seq<Zone>, deliveries: seq<Delivery>, sorted: seq<Delivery>, idx: nat,
                          routes: map<nat, seq<nat>>, drone: Drone, s: DroneState, ds: seq<Delivery>)
    requires drone.speed != 0.0
  {
    && Tracked(m, drone, s, ds)
    && RouteFeasible(m, zones, drone, ds)
    && StartsClear(m, zones, ds)
    && Reported(routes, drone, ds)
    && FromRequests(deliveries, ds)
    && Ordered(ds)
    && Outranks(ds, sorted, idx)
  }

  /** The id of the `i`-th delivery of route `k`. */
  ghost function IdAt(plan: seq<seq<Delivery>>, k: int, i: int): nat
    requires 0 <= k < |plan| && 0 <= i < |plan[k]|
  {
    plan[k][i].id
  }

  ghost function AllIds(plan: seq<seq<Delivery>>): set<nat> {
    set k, i | 0 <= k < |plan| && 0 <= i < |plan[k]| :: IdAt(plan, k, i)
  }

  /** No delivery id is routed twice, within a route or across routes. */
  ghost predicate DistinctIds(plan: seq<seq<Delivery>>) {
    forall k1, i1, k2, i2 ::
      0 <= k1 < |plan| && 0 <= i1 < |plan[k1]| && 0 <= k2 < |plan| && 0 <= i2 < |plan[k2]| && (k1, i1) != (k2, i2) ==>
        IdAt(plan, k1, i1) != IdAt(plan, k2, i2)
  }

  /** Number of routed deliveries. */
  function Count(plan: seq<seq<Delivery>>): nat
    decreases |plan|
  {
    if plan == [] then 0 else Count(plan[..|plan| - 1]) + |plan[|plan| - 1]|
  }

  function Sum(s: seq<real>): real
    decreases |s|
  {
    if s == [] then 0.0 else Sum(s[..|s| - 1]) + s[|s| - 1]
  }

  ghost function Lengths(m: MathLib, drones: seq<Drone>, plan: seq<seq<Delivery>>): (r: seq<real>)
    requires |plan| == |drones|
    ensures |r| == |drones|
    ensures forall k :: 0 <= k < |drones| ==> r[k] == PathLength(m, drones[k].startPos, plan[k])
  {
    seq(|drones|, k requires 0 <= k < |drones| => PathLength(m, drones[k].startPos, plan[k]))
  }

  ghost function Energies(m: MathLib, drones: seq<Drone>, plan: seq<seq<Delivery>>): (r: seq<real>)
    requires |plan| == |drones|
    ensures |r| == |drones|
    ensures forall k :: 0 <= k < |drones| ==> r[k] == PathEnergy(m, drones[k].startPos, plan[k])
  {
    seq(|drones|, k requires 0 <= k < |drones| => PathEnergy(m, drones[k].startPos, plan[k]))
  }

  lemma {:induction false} SumUpdate(s: seq<real>, k: nat, x: real)
    requires k < |s|
    ensures Sum(s[k := s[k] + x]) == Sum(s) + x
    decreases |s|
  {
    var t := s[k := s[k] + x];
    if k < |s| - 1 {
      assert t[..|t| - 1] == s[..|s| - 1][k := s[k] + x];
      SumUpdate(s[..|s| - 1], k, x);
    } else {
      assert t[..|t| - 1] == s[..|s| - 1];
    }
  }

  lemma {:induction false} CountUpdate(plan: seq<seq<Delivery>>, k: nat, d: Delivery)
    requires k < |plan|
    ensures Count(plan[k := plan[k] + [d]]) == Count(plan) + 1
    decreases |plan|
  {
    var q := plan[k := plan[k] + [d]];
    if k < |plan| - 1 {
      assert q[..|q| - 1] == plan[..|plan| - 1][k := plan[k] + [d]];
      CountUpdate(plan[..|plan| - 1], k, d);
    } else {
      assert q[..|q| - 1] == plan[..|plan| - 1];
    }
  }

  /** Highest priority first. */
  ghost predicate Descending(sorted: seq<Delivery>) {
    forall i, j :: 0 <= i < j < |sorted| ==> sorted[i].priority >= sorted[j].priority
  }

  /** The loop invariant of the solver after processing `sorted[..idx]`. */
  ghost predicate Inv(m: MathLib, zones: seq<Zone>, drones: seq<Drone>, deliveries: seq<Delivery>,
                      sorted: seq<Delivery>, idx: nat, states: seq<DroneState>, plan: seq<seq<Delivery>>,
                      assignedIds: set<nat>, routes: map<nat, seq<nat>>, completed: nat, totalDistance: real, energy: real)
    requires PositiveSpeeds(drones)
  {
    && idx <= |sorted| && |states| == |drones| && |plan| == |drones|
    && (forall k {:trigger DroneOk(m, zones, deliveries, sorted, idx, routes, drones[k], states[k], plan[k])} ::
          0 <= k < |drones| ==> DroneOk(m, zones, deliveries, sorted, idx, routes, drones[k], states[k], plan[k]))
    && routes.Keys <= DroneIds(drones)
    && Tally(m, drones, plan, assignedIds, completed, totalDistance, energy)
  }

  /** The running figures agree with the plan: the assigned set holds exactly
      its ids (each used once), and the counters are its size, length and energy. */
  ghost predicate Tally(m: MathLib, drones: seq<Drone>, plan: seq<seq<Delivery>>,
                        assignedIds: set<nat>, completed: nat, totalDistance: real, energy: real)
    requires PositiveSpeeds(drones) && |plan| == |drones|
  {
    && assignedIds == AllIds(plan) && DistinctIds(plan)
    && completed == Count(plan)
    && totalDistance == Sum(Lengths(m, drones, plan))
    && energy == Sum(Energies(m, drones, plan))
  }

  /** What the solver promises about every route (the per-drone facts of `Inv`, spelled out). */
  ghost predicate RoutesSound(m: MathLib, zones: seq<Zone>, drones: seq<Drone>, deliveries: seq<Delivery>,
                              routes: map<nat, seq<nat>>, plan: seq<seq<Delivery>>)
    requires PositiveSpeeds(drones) && |plan| == |drones|
  {
    && routes.Keys <= DroneIds(drones)
    && (forall k :: 0 <= k < |drones| ==> Reported(routes, drones[k], plan[k]))
    && (forall k :: 0 <= k < |drones| ==> RouteFeasible(m, zones, drones[k], plan[k]))
    && (forall k :: 0 <= k < |drones| ==> Ordered(plan[k]) && FromRequests(deliveries, plan[k]))
    && (forall k, i :: 0 <= k < |drones| && 0 <= i < |plan[k]| ==>
          !InAnyZone(m, zones, plan[k][i].pos, plan[k][i].earliest))
  }

  /** Every drone at its start position, empty, at time 0. */
  function StartStates(drones: seq<Drone>): seq<DroneState> {
    seq(|drones|, k requires 0 <= k < |drones| => DroneState(drones[k].startPos, 0.0, 0.0))
  }

  /** No drone has a route yet. */
  function EmptyPlan(n: nat): seq<seq<Delivery>> {
    seq(n, k => [])
  }

  /** The solver's loop as a reference definition: from position `idx` of
      the processing order on, a delivery is skipped when already routed,
      when its point is in a zone at the start of its window, or when no
      drone can take it; otherwise it joins the best drone's route. */
  ghost function Run(m: MathLib, zones: seq<Zone>, drones: seq<Drone>, sorted: seq<Delivery>, idx: nat,
                     states: seq<DroneState>, plan: seq<seq<Delivery>>, assignedIds: set<nat>): seq<seq<Delivery>>
    requires PositiveSpeeds(drones) && |states| == |drones| && |plan| == |drones| && idx <= |sorted|
    decreases |sorted| - idx
  {
    if idx == |sorted| then plan
    else
      var d := sorted[idx];
      var c := Choice(m, zones, drones, states, d);
      if d.id in assignedIds || InAnyZone(m, zones, d.pos, d.earliest) || c.None? then
        Run(m, zones, drones, sorted, idx + 1, states, plan, assignedIds)
      else
        var k := c.value;
        Run(m, zones, drones, sorted, idx + 1, states[k := Moved(m, drones[k], states[k], d)],
            plan[k := plan[k] + [d]], assignedIds + {d.id})
  }

  /** One pass of the loop body, described by the drone it picked (`None`
      for a skip), is one step of `Run`; it skips exactly when the id is
      assigned, the point is in a zone at the start of the window, or no
      drone can take the delivery, and otherwise extends the best drone's route. */
  lemma StepIsRun(m: MathLib, zones: seq<Zone>, drones: seq<Drone>, sorted: seq<Delivery>, idx: nat,
                  states: seq<DroneState>, plan: seq<seq<Delivery>>, assignedIds: set<nat>, best: Option<nat>,
                  states': seq<DroneState>, plan': seq<seq<Delivery>>, assignedIds': set<nat>)
    requires PositiveSpeeds(drones) && |states| == |drones| && |plan| == |drones| && idx < |sorted|
    requires best.None? ==>
               && (|| sorted[idx].id in assignedIds
                   || InAnyZone(m, zones, sorted[idx].pos, sorted[idx].earliest)
                   || forall k :: 0 <= k < |drones| ==> !CanTake(m, zones, drones[k], states[k], sorted[idx]))
               && states' == states && plan' == plan && assignedIds' == assignedIds
    requires best.Some? ==>
               && sorted[idx].id !in assignedIds && !InAnyZone(m, zones, sorted[idx].pos, sorted[idx].earliest)
               && Best(m, zones, drones, states, sorted[idx], best.value)
               && states' == states[best.value := Moved(m, drones[best.value], states[best.value], sorted[idx])]
               && plan' == plan[best.value := plan[best.value] + [sorted[idx]]]
               && assignedIds' == assignedIds + {sorted[idx].id}
    ensures |states'| == |drones| && |plan'| == |drones|
    ensures Run(m, zones, drones, sorted, idx + 1, states', plan', assignedIds')
         == Run(m, zones, drones, sorted, idx, states, plan, assignedIds)
    ensures plan' == plan <==>
              || sorted[idx].id in assignedIds
              || InAnyZone(m, zones, sorted[idx].pos, sorted[idx].earliest)
              || forall k :: 0 <= k < |drones| ==> !CanTake(m, zones, drones[k], states[k], sorted[idx])
    ensures plan' != plan ==> exists k :: Best(m, zones, drones, states, sorted[idx], k) && plan' == plan[k := plan[k] + [sorted[idx]]]
  {
    if best.Some? {
      var k := best.value;
      BestUnique(m, zones, drones, states, sorted[idx], Choice(m, zones, drones, states, sorted[idx]).value, k);
      assert |plan'[k]| == |plan[k]| + 1;
    }
  }

  /** The solver. `plan[k]` is drone `k`'s route as deliveries; it is ghost
      and records what the reported ids stand for. */
  method AStar(m: MathLib, zones: seq<Zone>, drones: seq<Drone>, deliveries: seq<Delivery>)
    returns (result: RouteResult, ghost plan: seq<seq<Delivery>>)
    requires PositiveSpeeds(drones) && UniqueDroneIds(drones)
    ensures |plan| == |drones|
    ensures RoutesSound(m, zones, drones, deliveries, result.routes, plan)
    ensures DistinctIds(plan)
    ensures result.completed == Count(plan)
    ensures result.totalDistance == Sum(Lengths(m, drones, plan))
    ensures result.energy == Sum(Energies(m, drones, plan))
    ensures plan == Run(m, zones, drones, ByPriority(deliveries), 0, StartStates(drones), EmptyPlan(|drones|), {})
  {
    var sorted := ByPriority(deliveries);
    ByPriorityFacts(deliveries);
    assert Descending(sorted);
    var routes: map<nat, seq<nat>> := map[];
    var totalDistance, completed, energy := 0.0, 0, 0.0;
    var states := StartStates(drones);
    var assignedIds: set<nat> := {};
    plan := EmptyPlan(|drones|);
    Start(m, zones, drones, deliveries, sorted, states, plan);
    var idx := 0;
    while idx < |sorted|
      invariant Inv(m, zones, drones, deliveries, sorted, idx, states, plan, assignedIds, routes, completed, totalDistance, energy)
      invariant Descending(sorted) && multiset(sorted) == multiset(deliveries)
      invariant Run(m, zones, drones, sorted, idx, states, plan, assignedIds)
             == Run(m, zones, drones, sorted, 0, StartStates(drones), EmptyPlan(|drones|), {})
    {
      states, plan, assignedIds, routes, completed, totalDistance, energy :=
        Step(m, zones, drones, deliveries, sorted, idx, states, plan, assignedIds, routes, completed, totalDistance, energy);
      idx := idx + 1;
    }
    result := RouteResult(routes, totalDistance, completed, energy);
    Sound(m, zones, drones, deliveries, sorted, idx, states, plan, assignedIds, routes, completed, totalDistance, energy);
  }

  /** One iteration of the solver's loop: `sorted[idx]` is skipped when
      already routed or when its point is in a zone at the start of its
      window, and otherwise goes to the drone `ChooseDrone` picks, if any. */
  method Step(m: MathLib, zones: seq<Zone>, drones: seq<Drone>, deliveries: seq<Delivery>,
              sorted: seq<Delivery>, idx: nat, states: seq<DroneState>, ghost plan: seq<seq<Delivery>>,
              assignedIds: set<nat>, routes: map<nat, seq<nat>>, completed: nat, totalDistance: real, energy: real)
    returns (states': seq<DroneState>, ghost plan': seq<seq<Delivery>>, assignedIds': set<nat>, routes': map<nat, seq<nat>>,
             completed': nat, totalDistance': real, energy': real)
    requires PositiveSpeeds(drones) && UniqueDroneIds(drones) && idx < |sorted|
    requires Descending(sorted) && multiset(sorted) == multiset(deliveries)
    requires Inv(m, zones, drones, deliveries, sorted, idx, states, plan, assignedIds, routes, completed, totalDistance, energy)
    ensures Inv(m, zones, drones, deliveries, sorted, idx + 1, states', plan', assignedIds', routes', completed', totalDistance', energy')
    ensures Run(m, zones, drones, sorted, idx + 1, states', plan', assignedIds')
         == Run(m, zones, drones, sorted, idx, states, plan, assignedIds)
    ensures plan' == plan <==>
              || sorted[idx].id in assignedIds
              || InAnyZone(m, zones, sorted[idx].pos, sorted[idx].earliest)
              || forall k :: 0 <= k < |drones| ==> !CanTake(m, zones, drones[k], states[k], sorted[idx])
    ensures plan' != plan ==> exists k :: Best(m, zones, drones, states, sorted[idx], k) && plan' == plan[k := plan[k] + [sorted[idx]]]
  {
    var delivery := sorted[idx];
    assert delivery in multiset(deliveries);
    states', plan', assignedIds', routes', completed', totalDistance', energy' :=
      states, plan, assignedIds, routes, completed, totalDistance, energy;
    var best: Option<nat> := None;
    if delivery.id !in assignedIds {
      var blocked := IsInNoFlyZone(m, zones, delivery.pos, delivery.earliest);
      if !blocked {
        best := ChooseDrone(m, zones, drones, states, delivery);
      }
    }
    if best.Some? {
      states', plan', assignedIds', routes', completed', totalDistance', energy' :=
        Place(m, zones, drones, deliveries, sorted, idx, states, plan, assignedIds, routes, completed,
              totalDistance, energy, best.value);
    } else {
      Skip(m, zones, drones, deliveries, sorted, idx, states, plan, assignedIds, routes, completed, totalDistance, energy);
    }
    StepIsRun(m, zones, drones, sorted, idx, states, plan, assignedIds, best, states', plan', assignedIds');
  }

  /** `sorted[idx]` goes to drone `k`, which can take it: the invariant moves on. */
  method Place(m: MathLib, zones: seq<Zone>, drones: seq<Drone>, deliveries: seq<Delivery>,
               sorted: seq<Delivery>, idx: nat, states: seq<DroneState>, ghost plan: seq<seq<Delivery>>,
               assignedIds: set<nat>, routes: map<nat, seq<nat>>, completed: nat, totalDistance: real, energy: real, k: nat)
    returns (states': seq<DroneState>, ghost plan': seq<seq<Delivery>>, assignedIds': set<nat>, routes': map<nat, seq<nat>>,
             completed': nat, totalDistance': real, energy': real)
    requires PositiveSpeeds(drones) && UniqueDroneIds(drones) && idx < |sorted| && k < |drones|
    requires Descending(sorted) && sorted[idx] in deliveries
    requires Inv(m, zones, drones, deliveries, sorted, idx, states, plan, assignedIds, routes, completed, totalDistance, energy)
    requires sorted[idx].id !in assignedIds && !InAnyZone(m, zones, sorted[idx].pos, sorted[idx].earliest)
    requires CanTake(m, zones, drones[k], states[k], sorted[idx])
    ensures Inv(m, zones, drones, deliveries, sorted, idx + 1, states', plan', assignedIds', routes', completed', totalDistance', energy')
    ensures plan' == plan[k := plan[k] + [sorted[idx]]]
    ensures states' == states[k := Moved(m, drones[k], states[k], sorted[idx])]
    ensures assignedIds' == assignedIds + {sorted[idx].id}
  {
    states', plan', assignedIds', routes', completed', totalDistance', energy' :=
      Assign(m, drones, states, plan, assignedIds, routes, completed, totalDistance, energy, k, sorted[idx]);
    Commit(m, zones, drones, deliveries, sorted, idx, states, plan, assignedIds, routes, completed, totalDistance, energy, k,
           states', plan', assignedIds', routes', completed', totalDistance', energy');
  }

  /** The commit block: append the delivery to the chosen drone's route,
      add the leg to the totals and move the drone's record on. */
  method Assign(m: MathLib, drones: seq<Drone>, states: seq<DroneState>, ghost plan: seq<seq<Delivery>>,
                assignedIds: set<nat>, routes: map<nat, seq<nat>>, completed: nat, totalDistance: real, energy: real,
                k: nat, delivery: Delivery)
    returns (states': seq<DroneState>, ghost plan': seq<seq<Delivery>>, assignedIds': set<nat>, routes': map<nat, seq<nat>>,
             completed': nat, totalDistance': real, energy': real)
    requires PositiveSpeeds(drones) && k < |drones| && |states| == |drones| && |plan| == |drones|
    ensures states' == states[k := Moved(m, drones[k], states[k], delivery)]
    ensures plan' == plan[k := plan[k] + [delivery]]
    ensures assignedIds' == assignedIds + {delivery.id} && completed' == completed + 1
    ensures routes' == Appended(routes, drones[k].id, delivery.id)
    ensures totalDistance' == totalDistance + Distance(m, states[k].pos, delivery.pos)
    ensures energy' == energy + LegEnergy(Distance(m, states[k].pos, delivery.pos), delivery.weight)
  {
    var droneId := drones[k].id;
    var route := if droneId in routes then routes[droneId] else [];  // a drone's list is created on first use
    routes' := routes[droneId := route + [delivery.id]];

    var s := states[k];
    var distance := Distance(m, s.pos, delivery.pos);
    var travelTime := distance / drones[k].speed;
    totalDistance' := totalDistance + distance;
    energy' := energy + LegEnergy(distance, delivery.weight);
    states' := states[k := DroneState(delivery.pos, s.load + delivery.weight, s.time + travelTime)];
    assignedIds' := assignedIds + {delivery.id};
    completed' := completed + 1;
    plan' := plan[k := plan[k] + [delivery]];
  }

  /** The drone record after flying to `d`. */
  function Moved(m: MathLib, drone: Drone, s: DroneState, d: Delivery): DroneState
    requires drone.speed != 0.0
  {
    DroneState(d.pos, s.load + d.weight, s.time + Distance(m, s.pos, d.pos) / drone.speed)
  }

  /** The route map with `id` appended to drone `g`'s list (created if missing). */
  function Appended(routes: map<nat, seq<nat>>, g: nat, id: nat): map<nat, seq<nat>> {
    routes[g := (if g in routes then routes[g] else []) + [id]]
  }

  /** Committing `sorted[idx]` to drone `k` keeps the invariant. */
  lemma Commit(m: MathLib, zones: seq<Zone>, drones: seq<Drone>, deliveries: seq<Delivery>,
               sorted: seq<Delivery>, idx: nat, states: seq<DroneState>, plan: seq<seq<Delivery>>,
               assignedIds: set<nat>, routes: map<nat, seq<nat>>, completed: nat, totalDistance: real, energy: real, k: nat,
               states': seq<DroneState>, plan': seq<seq<Delivery>>, assignedIds': set<nat>, routes': map<nat, seq<nat>>,
               completed': nat, totalDistance': real, energy': real)
    requires PositiveSpeeds(drones) && UniqueDroneIds(drones) && idx < |sorted| && k < |drones|
    requires Descending(sorted) && sorted[idx] in deliveries
    requires Inv(m, zones, drones, deliveries, sorted, idx, states, plan, assignedIds, routes, completed, totalDistance, energy)
    requires sorted[idx].id !in assignedIds && !InAnyZone(m, zones, sorted[idx].pos, sorted[idx].earliest)
    requires CanTake(m, zones, drones[k], states[k], sorted[idx])
    requires states' == states[k := Moved(m, drones[k], states[k], sorted[idx])]
    requires plan' == plan[k := plan[k] + [sorted[idx]]]
    requires assignedIds' == assignedIds + {sorted[idx].id} && completed' == completed + 1
    requires routes' == Appended(routes, drones[k].id, sorted[idx].id)
    requires totalDistance' == totalDistance + Distance(m, states[k].pos, sorted[idx].pos)
    requires energy' == energy + LegEnergy(Distance(m, states[k].pos, sorted[idx].pos), sorted[idx].weight)
    ensures Inv(m, zones, drones, deliveries, sorted, idx + 1, states', plan', assignedIds', routes', completed', totalDistance', energy')
  {
    var d := sorted[idx];
    assert states[k].pos == EndPos(drones[k].startPos, plan[k]) by {
      assert DroneOk(m, zones, deliveries, sorted, idx, routes, drones[k], states[k], plan[k]);
    }
    DronesStep(m, zones, drones, deliveries, sorted, idx, states, plan, routes, k);
    TallyStep(m, drones, plan, assignedIds, completed, totalDistance, energy, k, d);
  }

  /** Appending a fresh delivery to one route moves every figure by that delivery. */
  lemma TallyStep(m: MathLib, drones: seq<Drone>, plan: seq<seq<Delivery>>,
                  assignedIds: set<nat>, completed: nat, totalDistance: real, energy: real, k: nat, d: Delivery)
    requires PositiveSpeeds(drones) && |plan| == |drones| && k < |drones|
    requires Tally(m, drones, plan, assignedIds, completed, totalDistance, energy) && d.id !in assignedIds
    ensures
      var leg := Distance(m, EndPos(drones[k].startPos, plan[k]), d.pos);
      Tally(m, drones, plan[k := plan[k] + [d]], assignedIds + {d.id}, completed + 1,
            totalDistance + leg, energy + LegEnergy(leg, d.weight))
  {
    IdsAfter(plan, k, d);
    CountUpdate(plan, k, d);
    LengthSumStep(m, drones, plan, k, d);
    EnergySumStep(m, drones, plan, k, d);
  }

  lemma Start(m: MathLib, zones: seq<Zone>, drones: seq<Drone>, deliveries: seq<Delivery>, sorted: seq<Delivery>,
              states: seq<DroneState>, plan: seq<seq<Delivery>>)
    requires PositiveSpeeds(drones)
    requires states == StartStates(drones)
    requires plan == EmptyPlan(|drones|)
    ensures Inv(m, zones, drones, deliveries, sorted, 0, states, plan, {}, map[], 0, 0.0, 0.0)
  {
    EmptyTotals(m, drones, plan, |drones|);
    assert Lengths(m, drones, plan)[..|drones|] == Lengths(m, drones, plan);
    assert Energies(m, drones, plan)[..|drones|] == Energies(m, drones, plan);
    assert plan[..|drones|] == plan;
    forall k | 0 <= k < |drones| ensures DroneOk(m, zones, deliveries, sorted, 0, map[], drones[k], states[k], plan[k]) {
    }
  }

  lemma {:induction false} EmptyTotals(m: MathLib, drones: seq<Drone>, plan: seq<seq<Delivery>>, n: nat)
    requires |plan| == |drones| && n <= |drones| && forall k :: 0 <= k < |plan| ==> plan[k] == []
    ensures Sum(Lengths(m, drones, plan)[..n]) == 0.0 && Sum(Energies(m, drones, plan)[..n]) == 0.0
    ensures Count(plan[..n]) == 0
  {
    if n > 0 {
      EmptyTotals(m, drones, plan, n - 1);
      assert Lengths(m, drones, plan)[..n][..n - 1] == Lengths(m, drones, plan)[..n - 1];
      assert Energies(m, drones, plan)[..n][..n - 1] == Energies(m, drones, plan)[..n - 1];
      assert plan[..n][..n - 1] == plan[..n - 1];
    }
  }

  /** A delivery that is not routed leaves the state alone. */
  lemma Skip(m: MathLib, zones: seq<Zone>, drones: seq<Drone>, deliveries: seq<Delivery>,
             sorted: seq<Delivery>, idx: nat, states: seq<DroneState>, plan: seq<seq<Delivery>>,
             assignedIds: set<nat>, routes: map<nat, seq<nat>>, completed: nat, totalDistance: real, energy: real)
    requires PositiveSpeeds(drones) && idx < |sorted|
    requires Inv(m, zones, drones, deliveries, sorted, idx, states, plan, assignedIds, routes, completed, totalDistance, energy)
    ensures Inv(m, zones, drones, deliveries, sorted, idx + 1, states, plan, assignedIds, routes, completed, totalDistance, energy)
  {
    forall k | 0 <= k < |drones| ensures DroneOk(m, zones, deliveries, sorted, idx + 1, routes, drones[k], states[k], plan[k]) {
      assert DroneOk(m, zones, deliveries, sorted, idx, routes, drones[k], states[k], plan[k]);
    }
  }

  /** The per-drone facts of the invariant give what the solver promises. */
  lemma Sound(m: MathLib, zones: seq<Zone>, drones: seq<Drone>, deliveries: seq<Delivery>,
              sorted: seq<Delivery>, idx: nat, states: seq<DroneState>, plan: seq<seq<Delivery>>,
              assignedIds: set<nat>, routes: map<nat, seq<nat>>, completed: nat, totalDistance: real, energy: real)
    requires PositiveSpeeds(drones)
    requires Inv(m, zones, drones, deliveries, sorted, idx, states, plan, assignedIds, routes, completed, totalDistance, energy)
    ensures RoutesSound(m, zones, drones, deliveries, routes, plan)
  {
    forall k | 0 <= k < |drones|
      ensures Reported(routes, drones[k], plan[k]) && RouteFeasible(m, zones, drones[k], plan[k])
      ensures Ordered(plan[k]) && FromRequests(deliveries, plan[k])
      ensures forall i :: 0 <= i < |plan[k]| ==> !InAnyZone(m, zones, plan[k][i].pos, plan[k][i].earliest)
    {
      assert DroneOk(m, zones, deliveries, sorted, idx, routes, drones[k], states[k], plan[k]);
      StartsClearMeans(m, zones, plan[k]);
    }
  }

  /** Committing `d` to drone `k`: that drone's facts carry over to its
      extended route, every other drone's carry over unchanged. */
  lemma DronesStep(m: MathLib, zones: seq<Zone>, drones: seq<Drone>, deliveries: seq<Delivery>,
                   sorted: seq<Delivery>, idx: nat, states: seq<DroneState>, plan: seq<seq<Delivery>>,
                   routes: map<nat, seq<nat>>, k: nat)
    requires PositiveSpeeds(drones) && UniqueDroneIds(drones) && idx < |sorted| && k < |drones|
    requires |states| == |drones| && |plan| == |drones|
    requires Descending(sorted) && sorted[idx] in deliveries && !InAnyZone(m, zones, sorted[idx].pos, sorted[idx].earliest)
    requires forall j {:trigger DroneOk(m, zones, deliveries, sorted, idx, routes, drones[j], states[j], plan[j])} ::
               0 <= j < |drones| ==> DroneOk(m, zones, deliveries, sorted, idx, routes, drones[j], states[j], plan[j])
    requires routes.Keys <= DroneIds(drones)
    requires CanTake(m, zones, drones[k], states[k], sorted[idx])
    ensures
      var states' := states[k := Moved(m, drones[k], states[k], sorted[idx])];
      var plan' := plan[k := plan[k] + [sorted[idx]]];
      var routes' := Appended(routes, drones[k].id, sorted[idx].id);
      && (forall j {:trigger DroneOk(m, zones, deliveries, sorted, idx + 1, routes', drones[j], states'[j], plan'[j])} ::
            0 <= j < |drones| ==> DroneOk(m, zones, deliveries, sorted, idx + 1, routes', drones[j], states'[j], plan'[j]))
      && routes'.Keys <= DroneIds(drones)
  {
    var states' := states[k := Moved(m, drones[k], states[k], sorted[idx])];
    var plan' := plan[k := plan[k] + [sorted[idx]]];
    var routes' := Appended(routes, drones[k].id, sorted[idx].id);
    assert DroneOk(m, zones, deliveries, sorted, idx, routes, drones[k], states[k], plan[k]);
    DroneExtends(m, zones, deliveries, sorted, idx, routes, drones[k], states[k], plan[k]);
    forall j | 0 <= j < |drones| && j != k
      ensures DroneOk(m, zones, deliveries, sorted, idx + 1, routes', drones[j], states'[j], plan'[j])
    {
      assert drones[j].id != drones[k].id;
      assert DroneOk(m, zones, deliveries, sorted, idx, routes, drones[j], states[j], plan[j]);
      DroneUnaffected(m, zones, deliveries, sorted, idx, routes, drones[j], states[j], plan[j], drones[k].id, sorted[idx].id);
    }
    assert drones[k].id in DroneIds(drones);
  }

  /** Another drone's facts survive the commit: its map entry is untouched
      and outranking one fewer pending delivery is weaker. */
  lemma DroneUnaffected(m: MathLib, zones: seq<Zone>, deliveries: seq<Delivery>, sorted: seq<Delivery>, idx: nat,
                        routes: map<nat, seq<nat>>, drone: Drone, s: DroneState, ds: seq<Delivery>, g: nat, id: nat)
    requires drone.speed != 0.0 && drone.id != g
    requires DroneOk(m, zones, deliveries, sorted, idx, routes, drone, s, ds)
    ensures DroneOk(m, zones, deliveries, sorted, idx + 1, Appended(routes, g, id), drone, s, ds)
  {
  }

  /** Appending `sorted[idx]` to a drone that can take it. */
  lemma DroneExtends(m: MathLib, zones: seq<Zone>, deliveries: seq<Delivery>, sorted: seq<Delivery>, idx: nat,
                     routes: map<nat, seq<nat>>, drone: Drone, s: DroneState, ds: seq<Delivery>)
    requires drone.speed != 0.0 && idx < |sorted| && Descending(sorted)
    requires sorted[idx] in deliveries && !InAnyZone(m, zones, sorted[idx].pos, sorted[idx].earliest)
    requires DroneOk(m, zones, deliveries, sorted, idx, routes, drone, s, ds)
    requires CanTake(m, zones, drone, s, sorted[idx])
    ensures
      var d := sorted[idx];
      DroneOk(m, zones, deliveries, sorted, idx + 1, Appended(routes, drone.id, d.id), drone, Moved(m, drone, s, d), ds + [d])
  {
    var d := sorted[idx];
    TrackedExtends(m, zones, drone, s, ds, d);
    FeasibleExtends(m, zones, drone, s, ds, d);
    ClearExtends(m, zones, ds, d);
    ReportedExtends(routes, drone, ds, d);
    OrderExtends(deliveries, sorted, idx, ds);
  }

  lemma TrackedExtends(m: MathLib, zones: seq<Zone>, drone: Drone, s: DroneState, ds: seq<Delivery>, d: Delivery)
    requires drone.speed != 0.0 && Tracked(m, drone, s, ds)
    ensures Tracked(m, drone, Moved(m, drone, s, d), ds + [d])
  {
    Snoc(m, drone, ds, d);
  }

  lemma FeasibleExtends(m: MathLib, zones: seq<Zone>, drone: Drone, s: DroneState, ds: seq<Delivery>, d: Delivery)
    requires drone.speed != 0.0 && Tracked(m, drone, s, ds) && RouteFeasible(m, zones, drone, ds)
    requires CanTake(m, zones, drone, s, d)
    ensures RouteFeasible(m, zones, drone, ds + [d])
  {
    Snoc(m, drone, ds, d);
    CapacityExtend(drone, ds, d);
    DeadlinesExtend(m, drone, ds, d);
    LegsExtend(m, zones, drone, ds, d);
  }

  lemma ClearExtends(m: MathLib, zones: seq<Zone>, ds: seq<Delivery>, d: Delivery)
    requires StartsClear(m, zones, ds) && !InAnyZone(m, zones, d.pos, d.earliest)
    ensures StartsClear(m, zones, ds + [d])
  {
    assert (ds + [d])[..|ds|] == ds;
  }

  lemma ReportedExtends(routes: map<nat, seq<nat>>, drone: Drone, ds: seq<Delivery>, d: Delivery)
    requires Reported(routes, drone, ds)
    ensures Reported(Appended(routes, drone.id, d.id), drone, ds + [d])
  {
    assert IdsOf(ds + [d]) == IdsOf(ds) + [d.id];
  }

  /** The route stays in priority order and keeps outranking what is left. */
  lemma OrderExtends(deliveries: seq<Delivery>, sorted: seq<Delivery>, idx: nat, ds: seq<Delivery>)
    requires idx < |sorted| && Descending(sorted) && sorted[idx] in deliveries
    requires FromRequests(deliveries, ds) && Ordered(ds) && Outranks(ds, sorted, idx)
    ensures FromRequests(deliveries, ds + [sorted[idx]]) && Ordered(ds + [sorted[idx]])
    ensures Outranks(ds + [sorted[idx]], sorted, idx + 1)
  {
    var e := ds + [sorted[idx]];
    forall i, j | 0 <= i < j < |e| ensures e[i].priority >= e[j].priority {
      if j < |ds| {
        assert e[i] == ds[i] && e[j] == ds[j];
      } else {
        assert e[i] == ds[i] && e[j] == sorted[idx];
      }
    }
    forall i, j | 0 <= i < |e| && idx + 1 <= j < |sorted| ensures e[i].priority >= sorted[j].priority {
      if i < |ds| {
        assert e[i] == ds[i];
      }
    }
    forall i | 0 <= i < |e| ensures e[i] in deliveries {
      if i < |ds| {
        assert e[i] == ds[i];
      }
    }
  }

  lemma IdsAfter(before: seq<seq<Delivery>>, k: nat, d: Delivery)
    requires k < |before| && DistinctIds(before) && d.id !in AllIds(before)
    ensures DistinctIds(before[k := before[k] + [d]])
    ensures AllIds(before[k := before[k] + [d]]) == AllIds(before) + {d.id}
  {
    var after: seq<seq<Delivery>> := before[k := before[k] + [d]];
    forall k1, i1 | 0 <= k1 < |after| && 0 <= i1 < |after[k1]|
      ensures IdAt(after, k1, i1) == if k1 == k && i1 == |before[k]| then d.id else IdAt(before, k1, i1)
    {
    }
    forall k1, i1 | 0 <= k1 < |after| && 0 <= i1 < |after[k1]| ensures IdAt(after, k1, i1) in AllIds(before) + {d.id} {
    }
    forall x | x in AllIds(before) + {d.id} ensures x in AllIds(after) {
      if x == d.id {
        assert IdAt(after, k, |before[k]|) == x;
      } else {
        var k1, i1 :| 0 <= k1 < |before| && 0 <= i1 < |before[k1]| && IdAt(before, k1, i1) == x;
        assert IdAt(after, k1, i1) == x;
      }
    }
    forall k1, i1, k2, i2 | 0 <= k1 < |after| && 0 <= i1 < |after[k1]| && 0 <= k2 < |after| && 0 <= i2 < |after[k2]|
                             && (k1, i1) != (k2, i2)
      ensures IdAt(after, k1, i1) != IdAt(after, k2, i2)
    {
      var new1 := k1 == k && i1 == |before[k]|;
      var new2 := k2 == k && i2 == |before[k]|;
      if !new1 && !new2 {
        assert IdAt(before, k1, i1) != IdAt(before, k2, i2);
      } else if !new1 {
        assert IdAt(before, k1, i1) in AllIds(before);
      } else if !new2 {
        assert IdAt(before, k2, i2) in AllIds(before);
      }
    }
  }

  lemma LengthSumStep(m: MathLib, drones: seq<Drone>, plan: seq<seq<Delivery>>, k: nat, d: Delivery)
    requires PositiveSpeeds(drones) && |plan| == |drones| && k < |drones|
    ensures Sum(Lengths(m, drones, plan[k := plan[k] + [d]])) ==
              Sum(Lengths(m, drones, plan)) + Distance(m, EndPos(drones[k].startPos, plan[k]), d.pos)
  {
    var before := Lengths(m, drones, plan);
    var leg := Distance(m, EndPos(drones[k].startPos, plan[k]), d.pos);
    LengthsStep(m, drones, plan, k, d);
    assert Lengths(m, drones, plan[k := plan[k] + [d]]) == before[k := before[k] + leg];
    SumUpdate(before, k, leg);
  }

  lemma EnergySumStep(m: MathLib, drones: seq<Drone>, plan: seq<seq<Delivery>>, k: nat, d: Delivery)
    requires PositiveSpeeds(drones) && |plan| == |drones| && k < |drones|
    ensures Sum(Energies(m, drones, plan[k := plan[k] + [d]])) ==
              Sum(Energies(m, drones, plan)) + LegEnergy(Distance(m, EndPos(drones[k].startPos, plan[k]), d.pos), d.weight)
  {
    var before := Energies(m, drones, plan);
    var leg := LegEnergy(Distance(m, EndPos(drones[k].startPos, plan[k]), d.pos), d.weight);
    EnergiesStep(m, drones, plan, k, d);
    assert Energies(m, drones, plan[k := plan[k] + [d]]) == before[k := before[k] + leg];
    SumUpdate(before, k, leg);
  }

  lemma LengthsStep(m: MathLib, drones: seq<Drone>, plan: seq<seq<Delivery>>, k: nat, d: Delivery)
    requires PositiveSpeeds(drones) && |plan| == |drones| && k < |drones|
    ensures
      var before := Lengths(m, drones, plan);
      Lengths(m, drones, plan[k := plan[k] + [d]]) ==
        before[k := before[k] + Distance(m, EndPos(drones[k].startPos, plan[k]), d.pos)]
  {
    var before := Lengths(m, drones, plan);
    var after := Lengths(m, drones, plan[k := plan[k] + [d]]);
    var expected := before[k := before[k] + Distance(m, EndPos(drones[k].startPos, plan[k]), d.pos)];
    Snoc(m, drones[k], plan[k], d);
    forall j | 0 <= j < |drones| ensures after[j] == expected[j] {
    }
  }

  lemma EnergiesStep(m: MathLib, drones: seq<Drone>, plan: seq<seq<Delivery>>, k: nat, d: Delivery)
    requires PositiveSpeeds(drones) && |plan| == |drones| && k < |drones|
    ensures
      var before := Energies(m, drones, plan);
      Energies(m, drones, plan[k := plan[k] + [d]]) ==
        before[k := before[k] + LegEnergy(Distance(m, EndPos(drones[k].startPos, plan[k]), d.pos), d.weight)]
  {
    var before := Energies(m, drones, plan);
    var after := Energies(m, drones, plan[k := plan[k] + [d]]);
    var expected := before[k := before[k] + LegEnergy(Distance(m, EndPos(drones[k].startPos, plan[k]), d.pos), d.weight)];
    Snoc(m, drones[k], plan[k], d);
    forall j | 0 <= j < |drones| ensures after[j] == expected[j] {
    }
  }

}
