/** A drone's route as the solvers see it: the deliveries it flies to, in
    order, leaving its start position at time 0. The load, arrival time and
    position after every prefix are replayed here, once, for every solver. */
module Schedule {
  import opened Types
  import opened Zones
  import opened RouteCheck

  /** Position after flying the route: the last delivery's point, or the start. */
  function EndPos(start: Point, ds: seq<Delivery>): Point {
    if ds == [] then start else ds[|ds| - 1].pos
  }

  /** Total weight carried. */
  function Load(ds: seq<Delivery>): real
    decreases |ds|
  {
    if ds == [] then 0.0 else Load(ds[..|ds| - 1]) + ds[|ds| - 1].weight
  }

  /** Arrival time at the last delivery. */
  function EndTime(m: MathLib, drone: Drone, ds: seq<Delivery>): real
    requires drone.speed != 0.0
    decreases |ds|
  {
    if ds == [] then 0.0
    else
      var prev := ds[..|ds| - 1];
      EndTime(m, drone, prev) + Distance(m, EndPos(drone.startPos, prev), ds[|ds| - 1].pos) / drone.speed
  }

  /** Sum of the leg lengths. */
  function PathLength(m: MathLib, start: Point, ds: seq<Delivery>): real
    decreases |ds|
  {
    if ds == [] then 0.0
    else
      var prev := ds[..|ds| - 1];
      PathLength(m, start, prev) + Distance(m, EndPos(start, prev), ds[|ds| - 1].pos)
  }

  /** Energy of one leg: its length times the weight delivered at its end, times 0.1. */
  function LegEnergy(distance: real, weight: real): real {
    distance * weight * 0.1
  }

  /** Energy of the whole route. */
  function PathEnergy(m: MathLib, start: Point, ds: seq<Delivery>): real
    decreases |ds|
  {
    if ds == [] then 0.0
    else
      var prev := ds[..|ds| - 1];
      PathEnergy(m, start, prev) + LegEnergy(Distance(m, EndPos(start, prev), ds[|ds| - 1].pos), ds[|ds| - 1].weight)
  }

  /** The load after every delivery stays within the drone's capacity. */
  ghost predicate WithinCapacity(drone: Drone, ds: seq<Delivery>) {
    forall i {:trigger Load(ds[..i])} | 0 < i <= |ds| :: Load(ds[..i]) <= drone.maxWeight
  }

  /** Every delivery is reached no later than the end of its window. */
  ghost predicate MeetsDeadlines(m: MathLib, drone: Drone, ds: seq<Delivery>)
    requires drone.speed != 0.0
  {
    forall i {:trigger EndTime(m, drone, ds[..i])} | 0 < i <= |ds| :: EndTime(m, drone, ds[..i]) <= ds[i - 1].latest
  }

  /** Every delivery is reached inside its window, both ends included. */
  ghost predicate MeetsWindows(m: MathLib, drone: Drone, ds: seq<Delivery>)
    requires drone.speed != 0.0
  {
    forall i {:trigger EndTime(m, drone, ds[..i])} | 0 < i <= |ds| :: ds[i - 1].earliest <= EndTime(m, drone, ds[..i]) <= ds[i - 1].latest
  }

  /** No delivery point lies in an active zone at the moment it is reached. */
  ghost predicate ClearOnArrival(m: MathLib, zones: seq<Zone>, drone: Drone, ds: seq<Delivery>)
    requires drone.speed != 0.0
  {
    forall i {:trigger EndTime(m, drone, ds[..i])} | 0 < i <= |ds| :: !InAnyZone(m, zones, ds[i - 1].pos, EndTime(m, drone, ds[..i]))
  }

  /** Every leg passes the sampled route check, flown when the previous leg ends. */
  ghost predicate LegsClear(m: MathLib, zones: seq<Zone>, drone: Drone, ds: seq<Delivery>)
    requires drone.speed != 0.0
  {
    forall i {:trigger RouteValid(m, zones, EndPos(drone.startPos, ds[..i]), ds[i].pos, EndTime(m, drone, ds[..i]), drone.speed)}
      | 0 <= i < |ds| ::
      RouteValid(m, zones, EndPos(drone.startPos, ds[..i]), ds[i].pos, EndTime(m, drone, ds[..i]), drone.speed)
  }

  /** Appending a delivery adds exactly one leg to every replayed quantity. */
  lemma Snoc(m: MathLib, drone: Drone, ds: seq<Delivery>, d: Delivery)
    requires drone.speed != 0.0
    ensures EndPos(drone.startPos, ds + [d]) == d.pos
    ensures Load(ds + [d]) == Load(ds) + d.weight
    ensures EndTime(m, drone, ds + [d]) == EndTime(m, drone, ds) + Distance(m, EndPos(drone.startPos, ds), d.pos) / drone.speed
    ensures PathLength(m, drone.startPos, ds + [d]) == PathLength(m, drone.startPos, ds) + Distance(m, EndPos(drone.startPos, ds), d.pos)
    ensures PathEnergy(m, drone.startPos, ds + [d]) ==
              PathEnergy(m, drone.startPos, ds) + LegEnergy(Distance(m, EndPos(drone.startPos, ds), d.pos), d.weight)
  {
    assert (ds + [d])[..|ds|] == ds;
  }

  lemma PrefixOfSnoc(ds: seq<Delivery>, d: Delivery, i: nat)
    requires i <= |ds|
    ensures (ds + [d])[..i] == ds[..i]
    ensures (ds + [d])[..|ds| + 1] == ds + [d]
  {
  }

  lemma CapacityExtend(drone: Drone, ds: seq<Delivery>, d: Delivery)
    ensures WithinCapacity(drone, ds + [d]) <==> WithinCapacity(drone, ds) && Load(ds) + d.weight <= drone.maxWeight
  {
    var e := ds + [d];
    assert e[..|e|] == e;
    if WithinCapacity(drone, e) {
      forall i | 0 < i <= |ds| ensures Load(ds[..i]) <= drone.maxWeight {
        PrefixOfSnoc(ds, d, i);
        assert Load(e[..i]) <= drone.maxWeight;
      }
      assert Load(e[..|e|]) <= drone.maxWeight;
    }
    if WithinCapacity(drone, ds) && Load(ds) + d.weight <= drone.maxWeight {
      forall i | 0 < i <= |e| ensures Load(e[..i]) <= drone.maxWeight {
        if i <= |ds| {
          PrefixOfSnoc(ds, d, i);
          assert Load(ds[..i]) <= drone.maxWeight;
        }
      }
    }
  }

  lemma DeadlinesExtend(m: MathLib, drone: Drone, ds: seq<Delivery>, d: Delivery)
    requires drone.speed != 0.0
    ensures MeetsDeadlines(m, drone, ds + [d]) <==>
              MeetsDeadlines(m, drone, ds) && EndTime(m, drone, ds + [d]) <= d.latest
  {
    var e := ds + [d];
    forall i | 0 < i <= |ds| ensures e[..i] == ds[..i] && e[i - 1] == ds[i - 1] {
      PrefixOfSnoc(ds, d, i);
    }
    assert e[..|e|] == e;
  }

  lemma WindowsExtend(m: MathLib, drone: Drone, ds: seq<Delivery>, d: Delivery)
    requires drone.speed != 0.0
    ensures MeetsWindows(m, drone, ds + [d]) <==>
              MeetsWindows(m, drone, ds) && d.earliest <= EndTime(m, drone, ds + [d]) <= d.latest
  {
    var e := ds + [d];
    forall i | 0 < i <= |ds| ensures e[..i] == ds[..i] && e[i - 1] == ds[i - 1] {
      PrefixOfSnoc(ds, d, i);
    }
    assert e[..|e|] == e;
  }

  lemma ArrivalExtend(m: MathLib, zones: seq<Zone>, drone: Drone, ds: seq<Delivery>, d: Delivery)
    requires drone.speed != 0.0
    ensures ClearOnArrival(m, zones, drone, ds + [d]) <==>
              ClearOnArrival(m, zones, drone, ds) && !InAnyZone(m, zones, d.pos, EndTime(m, drone, ds + [d]))
  {
    var e := ds + [d];
    forall i | 0 < i <= |ds| ensures e[..i] == ds[..i] && e[i - 1] == ds[i - 1] {
      PrefixOfSnoc(ds, d, i);
    }
    assert e[..|e|] == e;
  }

  lemma LegsExtend(m: MathLib, zones: seq<Zone>, drone: Drone, ds: seq<Delivery>, d: Delivery)
    requires drone.speed != 0.0
    ensures LegsClear(m, zones, drone, ds + [d]) <==>
              LegsClear(m, zones, drone, ds) &&
              RouteValid(m, zones, EndPos(drone.startPos, ds), d.pos, EndTime(m, drone, ds), drone.speed)
  {
    var e := ds + [d];
    var start := drone.startPos;
    assert e[..|ds|] == ds;
    if LegsClear(m, zones, drone, e) {
      forall i | 0 <= i < |ds|
        ensures RouteValid(m, zones, EndPos(start, ds[..i]), ds[i].pos, EndTime(m, drone, ds[..i]), drone.speed)
      {
        PrefixOfSnoc(ds, d, i);
        assert RouteValid(m, zones, EndPos(start, e[..i]), e[i].pos, EndTime(m, drone, e[..i]), drone.speed);
      }
      assert RouteValid(m, zones, EndPos(start, e[..|ds|]), e[|ds|].pos, EndTime(m, drone, e[..|ds|]), drone.speed);
    }
    if LegsClear(m, zones, drone, ds) && RouteValid(m, zones, EndPos(start, ds), d.pos, EndTime(m, drone, ds), drone.speed) {
      forall i | 0 <= i < |e|
        ensures RouteValid(m, zones, EndPos(start, e[..i]), e[i].pos, EndTime(m, drone, e[..i]), drone.speed)
      {
        if i < |ds| {
          PrefixOfSnoc(ds, d, i);
          assert RouteValid(m, zones, EndPos(start, ds[..i]), ds[i].pos, EndTime(m, drone, ds[..i]), drone.speed);
        }
      }
    }
  }

  /** With a constant speed, the arrival time is the path length over the speed. */
  lemma {:induction false} EndTimeIsLengthOverSpeed(m: MathLib, drone: Drone, ds: seq<Delivery>)
    requires drone.speed != 0.0
    ensures EndTime(m, drone, ds) == PathLength(m, drone.startPos, ds) / drone.speed
  {
    if ds != [] {
      var prev := ds[..|ds| - 1];
      EndTimeIsLengthOverSpeed(m, drone, prev);
      var leg := Distance(m, EndPos(drone.startPos, prev), ds[|ds| - 1].pos);
      var len := PathLength(m, drone.startPos, prev);
      assert len / drone.speed + leg / drone.speed == (len + leg) / drone.speed;
    }
  }

  /** Path length and energy are never negative (with non-negative weights). */
  lemma {:induction false} PathTotalsNonNegative(m: MathLib, start: Point, ds: seq<Delivery>)
    requires ValidMath(m)
    requires forall i :: 0 <= i < |ds| ==> ds[i].weight >= 0.0
    ensures PathLength(m, start, ds) >= 0.0 && PathEnergy(m, start, ds) >= 0.0
  {
    if ds != [] {
      var prev := ds[..|ds| - 1];
      PathTotalsNonNegative(m, start, prev);
      var leg := Distance(m, EndPos(start, prev), ds[|ds| - 1].pos);
      DistanceFacts(m, EndPos(start, prev), ds[|ds| - 1].pos);
      var w := ds[|ds| - 1].weight;
      assert leg * w >= 0.0;
      assert LegEnergy(leg, w) >= 0.0;
    }
  }

  /** With non-negative weights the load never decreases along the route, so
      the prefix-wise capacity check amounts to checking the total load. */
  lemma {:induction false} LoadMonotone(ds: seq<Delivery>, i: nat)
    requires i <= |ds|
    requires forall k :: 0 <= k < |ds| ==> ds[k].weight >= 0.0
    ensures Load(ds[..i]) <= Load(ds)
    decreases |ds|
  {
    if i < |ds| {
      var prev := ds[..|ds| - 1];
      assert prev[..i] == ds[..i];
      LoadMonotone(prev, i);
    } else {
      assert ds[..i] == ds;
    }
  }

  lemma CapacityIsTotalLoad(drone: Drone, ds: seq<Delivery>)
    requires forall k :: 0 <= k < |ds| ==> ds[k].weight >= 0.0
    ensures WithinCapacity(drone, ds) <==> (ds == [] || Load(ds) <= drone.maxWeight)
  {
    forall i | 0 < i <= |ds| ensures Load(ds[..i]) <= Load(ds) {
      LoadMonotone(ds, i);
    }
    if ds != [] {
      assert ds[..|ds|] == ds;
    }
  }

  /** The forward replay of a route that checks every window, as the
      time-window constraint does: one leg at a time from the start. */
  method CheckWindows(m: MathLib, drone: Drone, ds: seq<Delivery>) returns (ok: bool)
    requires drone.speed != 0.0
    ensures ok == MeetsWindows(m, drone, ds)
  {
    var currentTime := 0.0;
    var currentPos := drone.startPos;
    var k := 0;
    while k < |ds|
      invariant 0 <= k <= |ds|
      invariant currentTime == EndTime(m, drone, ds[..k]) && currentPos == EndPos(drone.startPos, ds[..k])
      invariant MeetsWindows(m, drone, ds[..k])
    {
      var delivery := ds[k];
      var travelTime := Distance(m, currentPos, delivery.pos) / drone.speed;
      currentTime := currentTime + travelTime;
      assert ds[..k + 1] == ds[..k] + [delivery];
      Snoc(m, drone, ds[..k], delivery);
      WindowsExtend(m, drone, ds[..k], delivery);
      if currentTime < delivery.earliest || currentTime > delivery.latest {
        WindowsPrefix(m, drone, ds, k + 1);
        return false;
      }
      currentPos := delivery.pos;
      k := k + 1;
    }
    assert ds[..k] == ds;
    return true;
  }

  /** Every prefix of a route that meets its windows meets them too. */
  lemma WindowsPrefix(m: MathLib, drone: Drone, ds: seq<Delivery>, n: nat)
    requires drone.speed != 0.0 && n <= |ds|
    ensures MeetsWindows(m, drone, ds) ==> MeetsWindows(m, drone, ds[..n])
  {
    if MeetsWindows(m, drone, ds) {
      forall i | 0 < i <= n ensures ds[..n][..i] == ds[..i] && ds[..n][i - 1] == ds[i - 1] {
      }
    }
  }
}
