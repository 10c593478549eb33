/** Turning an assignment into the reported result: grouping delivery ids
    into per-drone routes (`routes[droneId].push(deliveryId)` over the
    assignment's entries) and replaying every route from its drone's start to
    total its distance and energy. */
module Metrics {
  import opened Types
  import opened Schedule
  import opened StableSort

  /** An assignment entry: (delivery id, drone id). */
  type Pair = (nat, nat)

  /** The delivery ids paired with drone `g`, in the order of the entries. */
  function Bucket(pairs: seq<Pair>, g: nat): seq<nat>
    decreases |pairs|
  {
    if pairs == [] then []
    else Bucket(pairs[..|pairs| - 1], g) + (if pairs[|pairs| - 1].1 == g then [pairs[|pairs| - 1].0] else [])
  }

  /** The drones that receive at least one delivery. */
  function Carriers(pairs: seq<Pair>): set<nat> {
    set i | 0 <= i < |pairs| :: pairs[i].1
  }

  /** The grouping loop: a route is created on a drone's first entry and
      extended on every later one; every entry counts as completed. */
  method GroupRoutes(pairs: seq<Pair>) returns (routes: map<nat, seq<nat>>, completed: nat)
    ensures completed == |pairs|
    ensures routes.Keys == Carriers(pairs)
    ensures forall g :: g in routes ==> routes[g] == Bucket(pairs, g)
  {
    routes := map[];
    completed := 0;
    var k := 0;
    while k < |pairs|
      invariant 0 <= k <= |pairs| && completed == k
      invariant routes.Keys == Carriers(pairs[..k])
      invariant forall g :: g in routes ==> routes[g] == Bucket(pairs[..k], g)
    {
      var (deliveryId, droneId) := pairs[k];
      if droneId !in routes {
        routes := routes[droneId := []];
      }
      routes := routes[droneId := routes[droneId] + [deliveryId]];
      completed := completed + 1;
      assert pairs[..k + 1][..k] == pairs[..k];
      forall g | g in routes ensures routes[g] == Bucket(pairs[..k + 1], g) {
        if g != droneId && g in Carriers(pairs[..k]) {
          assert routes[g] == Bucket(pairs[..k], g);
        }
        if g == droneId && g !in Carriers(pairs[..k]) {
          BucketEmpty(pairs[..k], g);
        }
      }
      k := k + 1;
    }
    assert pairs[..k] == pairs;
  }

  lemma {:induction false} BucketEmpty(pairs: seq<Pair>, g: nat)
    requires g !in Carriers(pairs)
    ensures Bucket(pairs, g) == []
    decreases |pairs|
  {
    if pairs != [] {
      var prev := pairs[..|pairs| - 1];
      assert Carriers(prev) <= Carriers(pairs) by {
        forall x | x in Carriers(prev) ensures x in Carriers(pairs) {
          var i :| 0 <= i < |prev| && prev[i].1 == x;
          assert pairs[i] == prev[i];
        }
      }
      BucketEmpty(prev, g);
    }
  }

  /** A delivery id is in drone `g`'s route exactly when the assignment pairs them. */
  lemma {:induction false} BucketMembership(pairs: seq<Pair>, g: nat, x: nat)
    ensures x in Bucket(pairs, g) <==> (x, g) in pairs
    decreases |pairs|
  {
    if pairs != [] {
      var prev := pairs[..|pairs| - 1];
      BucketMembership(prev, g, x);
      assert pairs == prev + [pairs[|pairs| - 1]];
    }
  }

  /** When every delivery id is assigned once, no id appears in two routes. */
  lemma BucketsDisjoint(pairs: seq<Pair>, g1: nat, g2: nat, x: nat)
    requires forall i, j :: 0 <= i < j < |pairs| ==> pairs[i].0 != pairs[j].0
    requires x in Bucket(pairs, g1) && x in Bucket(pairs, g2)
    ensures g1 == g2
  {
    BucketMembership(pairs, g1, x);
    BucketMembership(pairs, g2, x);
    var i :| 0 <= i < |pairs| && pairs[i] == (x, g1);
    var j :| 0 <= j < |pairs| && pairs[j] == (x, g2);
    assert i == j;
  }

  /** The deliveries behind a route's ids, found by id (`find(d => d.id === id)!`). */
  function Lookup(deliveries: seq<Delivery>, ids: seq<nat>): (ds: seq<Delivery>)
    requires forall k :: 0 <= k < |ids| ==> ids[k] in DeliveryIds(deliveries)
    ensures |ds| == |ids|
    ensures forall k :: 0 <= k < |ids| ==> ds[k] in deliveries && ds[k].id == ids[k]
    ensures forall k :: 0 <= k < |ids| ==> ds[k] == DeliveryById(deliveries, ids[k])
  {
    if ids == [] then [] else [DeliveryById(deliveries, ids[0])] + Lookup(deliveries, ids[1..])
  }

  function NatKey(k: nat): real { k as real }

  /** The keys of a map keyed by drone id in the order JavaScript enumerates
      integer keys: ascending. Every key is a drone id, so this is the sorted
      drone ids that have an entry. */
  function KeyOrder<V>(drones: seq<Drone>, routes: map<nat, V>): seq<nat> {
    Present(SortBy(DroneIdsOf(drones), NatKey), routes)
  }

  function Present<V>(ids: seq<nat>, routes: map<nat, V>): (r: seq<nat>)
    ensures forall k :: 0 <= k < |r| ==> r[k] in routes && r[k] in ids
    ensures forall g :: g in ids && g in routes ==> g in r
  {
    if ids == [] then []
    else (if ids[0] in routes then [ids[0]] else []) + Present(ids[1..], routes)
  }

  /** The enumeration covers exactly the keys of the map. */
  lemma KeyOrderFacts<V>(drones: seq<Drone>, routes: map<nat, V>)
    requires routes.Keys <= DroneIds(drones)
    ensures forall g :: g in routes <==> g in KeyOrder(drones, routes)
  {
    var sorted := SortBy(DroneIdsOf(drones), NatKey);
    SortByFacts(DroneIdsOf(drones), NatKey);
    forall g | g in routes ensures g in sorted {
      var i :| 0 <= i < |drones| && drones[i].id == g;
      assert DroneIdsOf(drones)[i] == g;
      assert g in multiset(DroneIdsOf(drones));
    }
  }

  /** Well-formedness of a route map against the instance. */
  ghost predicate RoutesKnown(drones: seq<Drone>, deliveries: seq<Delivery>, routes: map<nat, seq<nat>>) {
    && routes.Keys <= DroneIds(drones)
    && forall g, k :: g in routes && 0 <= k < |routes[g]| ==> routes[g][k] in DeliveryIds(deliveries)
  }

  /** Total distance of the routes listed in `order`. */
  function RoutesDistance(m: MathLib, drones: seq<Drone>, deliveries: seq<Delivery>, routes: map<nat, seq<nat>>, order: seq<nat>): real
    requires RoutesKnown(drones, deliveries, routes)
    requires forall k :: 0 <= k < |order| ==> order[k] in routes
    decreases |order|
  {
    if order == [] then 0.0
    else
      var g := order[|order| - 1];
      RoutesDistance(m, drones, deliveries, routes, order[..|order| - 1])
        + PathLength(m, DroneById(drones, g).startPos, Lookup(deliveries, routes[g]))
  }

  /** Total energy of the routes listed in `order`. */
  function RoutesEnergy(m: MathLib, drones: seq<Drone>, deliveries: seq<Delivery>, routes: map<nat, seq<nat>>, order: seq<nat>): real
    requires RoutesKnown(drones, deliveries, routes)
    requires forall k :: 0 <= k < |order| ==> order[k] in routes
    decreases |order|
  {
    if order == [] then 0.0
    else
      var g := order[|order| - 1];
      RoutesEnergy(m, drones, deliveries, routes, order[..|order| - 1])
        + PathEnergy(m, DroneById(drones, g).startPos, Lookup(deliveries, routes[g]))
  }

  /** The replay loop: every route in key order. */
  method RouteTotals(m: MathLib, drones: seq<Drone>, deliveries: seq<Delivery>, routes: map<nat, seq<nat>>)
    returns (totalDistance: real, energy: real)
    requires RoutesKnown(drones, deliveries, routes)
    ensures totalDistance == RoutesDistance(m, drones, deliveries, routes, KeyOrder(drones, routes))
    ensures energy == RoutesEnergy(m, drones, deliveries, routes, KeyOrder(drones, routes))
  {
    var order := KeyOrder(drones, routes);
    totalDistance, energy := 0.0, 0.0;
    var k := 0;
    while k < |order|
      invariant 0 <= k <= |order|
      invariant totalDistance == RoutesDistance(m, drones, deliveries, routes, order[..k])
      invariant energy == RoutesEnergy(m, drones, deliveries, routes, order[..k])
    {
      var g := order[k];
      var drone := DroneById(drones, g);
      var distance, used := ReplayRoute(m, drone.startPos, deliveries, routes[g]);
      TotalsPrefix(m, drones, deliveries, routes, order, k);
      totalDistance := totalDistance + distance;
      energy := energy + used;
      k := k + 1;
    }
    assert order[..k] == order;
  }

  lemma TotalsPrefix(m: MathLib, drones: seq<Drone>, deliveries: seq<Delivery>, routes: map<nat, seq<nat>>,
                     order: seq<nat>, k: nat)
    requires RoutesKnown(drones, deliveries, routes)
    requires forall j :: 0 <= j < |order| ==> order[j] in routes
    requires k < |order|
    ensures RoutesDistance(m, drones, deliveries, routes, order[..k + 1]) ==
              RoutesDistance(m, drones, deliveries, routes, order[..k])
                + PathLength(m, DroneById(drones, order[k]).startPos, Lookup(deliveries, routes[order[k]]))
    ensures RoutesEnergy(m, drones, deliveries, routes, order[..k + 1]) ==
              RoutesEnergy(m, drones, deliveries, routes, order[..k])
                + PathEnergy(m, DroneById(drones, order[k]).startPos, Lookup(deliveries, routes[order[k]]))
  {
    assert order[..k + 1] == order[..k] + [order[k]];
    TotalsSnoc(m, drones, deliveries, routes, order[..k], order[k]);
  }

  lemma TotalsSnoc(m: MathLib, drones: seq<Drone>, deliveries: seq<Delivery>, routes: map<nat, seq<nat>>,
                   order: seq<nat>, g: nat)
    requires RoutesKnown(drones, deliveries, routes)
    requires forall k :: 0 <= k < |order| ==> order[k] in routes
    requires g in routes
    ensures RoutesDistance(m, drones, deliveries, routes, order + [g]) ==
              RoutesDistance(m, drones, deliveries, routes, order) + PathLength(m, DroneById(drones, g).startPos, Lookup(deliveries, routes[g]))
    ensures RoutesEnergy(m, drones, deliveries, routes, order + [g]) ==
              RoutesEnergy(m, drones, deliveries, routes, order) + PathEnergy(m, DroneById(drones, g).startPos, Lookup(deliveries, routes[g]))
  {
    var o := order + [g];
    assert o[..|o| - 1] == order;
  }

  /** One route, leg by leg from the drone's start. */
  method ReplayRoute(m: MathLib, start: Point, deliveries: seq<Delivery>, ids: seq<nat>)
    returns (distance: real, energy: real)
    requires forall k :: 0 <= k < |ids| ==> ids[k] in DeliveryIds(deliveries)
    ensures distance == PathLength(m, start, Lookup(deliveries, ids))
    ensures energy == PathEnergy(m, start, Lookup(deliveries, ids))
  {
    var ds := Lookup(deliveries, ids);
    var currentPos := start;
    distance, energy := 0.0, 0.0;
    var j := 0;
    while j < |ids|
      invariant 0 <= j <= |ids|
      invariant currentPos == EndPos(start, ds[..j])
      invariant distance == PathLength(m, start, ds[..j])
      invariant energy == PathEnergy(m, start, ds[..j])
    {
      var delivery := DeliveryById(deliveries, ids[j]);
      assert delivery == ds[j];
      var leg := Distance(m, currentPos, delivery.pos);
      assert ds[..j + 1] == ds[..j] + [delivery];
      PathSnoc(m, start, ds[..j], delivery);
      distance := distance + leg;
      energy := energy + LegEnergy(leg, delivery.weight);
      currentPos := delivery.pos;
      j := j + 1;
    }
    assert ds[..j] == ds;
  }

  lemma PathSnoc(m: MathLib, start: Point, ds: seq<Delivery>, d: Delivery)
    ensures EndPos(start, ds + [d]) == d.pos
    ensures PathLength(m, start, ds + [d]) == PathLength(m, start, ds) + Distance(m, EndPos(start, ds), d.pos)
    ensures PathEnergy(m, start, ds + [d]) == PathEnergy(m, start, ds) + LegEnergy(Distance(m, EndPos(start, ds), d.pos), d.weight)
  {
    assert (ds + [d])[..|ds|] == ds;
  }

  /** Reported totals are never negative when weights are not. */
  lemma {:induction false} TotalsNonNegative(m: MathLib, drones: seq<Drone>, deliveries: seq<Delivery>,
                                             routes: map<nat, seq<nat>>, order: seq<nat>)
    requires ValidMath(m) && RoutesKnown(drones, deliveries, routes)
    requires forall k :: 0 <= k < |order| ==> order[k] in routes
    requires forall i :: 0 <= i < |deliveries| ==> deliveries[i].weight >= 0.0
    ensures RoutesDistance(m, drones, deliveries, routes, order) >= 0.0
    ensures RoutesEnergy(m, drones, deliveries, routes, order) >= 0.0
    decreases |order|
  {
    if order != [] {
      TotalsNonNegative(m, drones, deliveries, routes, order[..|order| - 1]);
      var g := order[|order| - 1];
      var ds := Lookup(deliveries, routes[g]);
      PathTotalsNonNegative(m, DroneById(drones, g).startPos, ds);
    }
  }
}
