/** The standalone `CSPAlgorithm` class: one variable per delivery id, its
    domain the drones strong enough to carry it, and plain chronological
    backtracking in input order. Every tentative value is checked against
    two constraints over the whole assignment: the summed weight per drone
    within its capacity, and, flying each drone's deliveries in ascending
    delivery id from its start at time 0, every arrival inside the window
    (both ends). A value that fails, or whose subtree fails, is deleted
    again. */
module LibCsp {
  import opened Types
  import opened Schedule
  import opened Metrics
  import Csp

  /** `drones.filter((drone) => drone.max_weight >= weight).map((drone) => drone.id)`. */
  function Capable(drones: seq<Drone>, weight: real): (ids: seq<nat>)
    ensures |ids| <= |drones|
    ensures forall g :: g in ids <==> exists k :: 0 <= k < |drones| && drones[k].id == g && drones[k].maxWeight >= weight
    decreases |drones|
  {
    if drones == [] then []
    else
      var rest := Capable(drones[1..], weight);
      assert forall k :: 0 < k < |drones| ==> drones[k] == drones[1..][k - 1];
      (if drones[0].maxWeight >= weight then [drones[0].id] else []) + rest
  }

  /** The domains `initializeDomains` builds: for every variable, the drones
      able to lift the delivery with that id. */
  ghost function DomainsOf(drones: seq<Drone>, deliveries: seq<Delivery>, variables: seq<nat>): map<nat, seq<nat>>
    requires forall k :: 0 <= k < |variables| ==> variables[k] in DeliveryIds(deliveries)
  {
    map id | id in variables :: Capable(drones, DeliveryById(deliveries, id).weight)
  }

  /** What the search needs of the domains: every variable has one, and
      every value in one is a known drone for a known delivery. */
  ghost predicate DomainsSound(drones: seq<Drone>, deliveries: seq<Delivery>, variables: seq<nat>, domains: map<nat, seq<nat>>) {
    && (forall k :: 0 <= k < |variables| ==> variables[k] in domains)
    && (forall id :: id in domains ==> id in DeliveryIds(deliveries))
    && (forall id, g :: id in domains && g in domains[id] ==> g in DroneIds(drones))
  }

  /** `initializeDomains`: one entry per variable. */
  method InitializeDomains(drones: seq<Drone>, deliveries: seq<Delivery>, variables: seq<nat>)
    returns (domains: map<nat, seq<nat>>)
    requires forall k :: 0 <= k < |variables| ==> variables[k] in DeliveryIds(deliveries)
    ensures domains == DomainsOf(drones, deliveries, variables)
    ensures forall id, g :: id in domains && g in domains[id] <==>
              id in variables && exists k :: 0 <= k < |drones| && drones[k].id == g &&
                                           drones[k].maxWeight >= DeliveryById(deliveries, id).weight
  {
    domains := map[];
    for i := 0 to |variables|
      invariant domains == DomainsOf(drones, deliveries, variables[..i])
    {
      var deliveryId := variables[i];
      var delivery := DeliveryById(deliveries, deliveryId);
      domains := domains[deliveryId := Capable(drones, delivery.weight)];
      assert variables[..i + 1] == variables[..i] + [deliveryId];
    }
    assert variables[..|variables|] == variables;
  }

  /** Entries listed in strictly ascending key order. */
  predicate Increasing(pairs: seq<Pair>) {
    forall i, j :: 0 <= i < j < |pairs| ==> pairs[i].0 < pairs[j].0
  }

  /** The entries listed are exactly those of the assignment. */
  ghost predicate Enumerates(pairs: seq<Pair>, a: map<nat, nat>) {
    forall id, g :: (id, g) in pairs <==> id in a && a[id] == g
  }

  /** `Object.entries(assignment)`: JavaScript lists integer keys in
      ascending order. */
  ghost function SortedEntries(a: map<nat, nat>): (pairs: seq<Pair>)
    ensures Increasing(pairs) && Enumerates(pairs, a)
    decreases |a.Keys|
  {
    if a.Keys == {} then []
    else
      var k := Csp.Least(a.Keys);
      var rest := a - {k};
      assert rest.Keys == a.Keys - {k};
      var tail := SortedEntries(rest);
      assert forall j :: 0 <= j < |tail| ==> tail[j] in tail && k < tail[j].0;
      [(k, a[k])] + tail
  }

  /** A separate lemma, not an inline assert: in the base case of
      `ListingUnique` the inline form is proved from that case's clashing
      facts rather than on its own. */
  lemma HeadListed(q: seq<Pair>)
    ensures q != [] ==> q[0] in q
  {
  }

  /** Two ascending listings of the same entries are the same listing. */
  lemma {:induction false} ListingUnique(p: seq<Pair>, q: seq<Pair>)
    requires Increasing(p) && Increasing(q)
    requires forall x :: x in p <==> x in q
    ensures p == q
    decreases |p|
  {
    if p == [] {
      HeadListed(q);
    } else {
      assert p[0] in p && q[0] in q;
      assert p[0] == q[0];
      forall x ensures x in p[1..] <==> x in q[1..] {
        if x in p[1..] {
          var a :| 0 <= a < |p[1..]| && p[1..][a] == x;
          assert p[a + 1] == x && p[0].0 < x.0;
          assert x in q;
          var b :| 0 <= b < |q| && q[b] == x;
          assert b != 0;
          assert q[1..][b - 1] == x;
        }
        if x in q[1..] {
          var b :| 0 <= b < |q[1..]| && q[1..][b] == x;
          assert q[b + 1] == x && q[0].0 < x.0;
          assert x in p;
          var a :| 0 <= a < |p| && p[a] == x;
          assert a != 0;
          assert p[1..][a - 1] == x;
        }
      }
      ListingUnique(p[1..], q[1..]);
    }
  }

  /** Every key of the assignment is a known delivery and every value a known drone. */
  ghost predicate Known(drones: seq<Drone>, deliveries: seq<Delivery>, a: map<nat, nat>) {
    forall id :: id in a ==> id in DeliveryIds(deliveries) && a[id] in DroneIds(drones)
  }

  /** Every entry names a known delivery. */
  ghost predicate IdsKnown(deliveries: seq<Delivery>, pairs: seq<Pair>) {
    forall x :: x in pairs ==> x.0 in DeliveryIds(deliveries)
  }

  /** The deliveries the entries give to drone `g`, in the order listed. */
  ghost function AssignedTo(deliveries: seq<Delivery>, pairs: seq<Pair>, g: nat): seq<Delivery>
    requires IdsKnown(deliveries, pairs)
    decreases |pairs|
  {
    if pairs == [] then []
    else
      var last := pairs[|pairs| - 1];
      AssignedTo(deliveries, pairs[..|pairs| - 1], g) + (if last.1 == g then [DeliveryById(deliveries, last.0)] else [])
  }

  lemma KnownListing(drones: seq<Drone>, deliveries: seq<Delivery>, a: map<nat, nat>, pairs: seq<Pair>)
    requires Known(drones, deliveries, a) && Enumerates(pairs, a)
    ensures IdsKnown(deliveries, pairs) && Carriers(pairs) == a.Values
    ensures forall i :: 0 <= i < |pairs| ==> pairs[i].1 in DroneIds(drones)
  {
    forall i | 0 <= i < |pairs| ensures pairs[i].0 in a && a[pairs[i].0] == pairs[i].1 {
      assert pairs[i] in pairs;
    }
    forall g | g in a.Values ensures g in Carriers(pairs) {
      var id :| id in a && a[id] == g;
      assert (id, g) in pairs;
    }
  }

  /** Drone `g` can lift everything the entries give it. */
  ghost predicate Fits(drones: seq<Drone>, deliveries: seq<Delivery>, pairs: seq<Pair>, g: nat)
    requires IdsKnown(deliveries, pairs) && g in DroneIds(drones)
  {
    Load(AssignedTo(deliveries, pairs, g)) <= DroneById(drones, g).maxWeight
  }

  /** Drone `g`, flying what the entries give it in the order listed from its
      start at time 0, reaches every delivery inside its window, both ends
      included. */
  ghost predicate OnTime(m: MathLib, drones: seq<Drone>, deliveries: seq<Delivery>, pairs: seq<Pair>, g: nat)
    requires PositiveSpeeds(drones) && IdsKnown(deliveries, pairs) && g in DroneIds(drones)
  {
    MeetsWindows(m, DroneById(drones, g), AssignedTo(deliveries, pairs, g))
  }

  /** The capacity constraint: the deliveries assigned to each drone weigh
      no more than it can carry. */
  ghost predicate CapacityOk(drones: seq<Drone>, deliveries: seq<Delivery>, a: map<nat, nat>)
    requires Known(drones, deliveries, a)
  {
    KnownListing(drones, deliveries, a, SortedEntries(a));
    forall g :: g in a.Values ==> Fits(drones, deliveries, SortedEntries(a), g)
  }

  /** The time-window constraint: each drone flies its deliveries in
      ascending delivery id and meets every window. */
  ghost predicate TimeOk(m: MathLib, drones: seq<Drone>, deliveries: seq<Delivery>, a: map<nat, nat>)
    requires PositiveSpeeds(drones) && Known(drones, deliveries, a)
  {
    KnownListing(drones, deliveries, a, SortedEntries(a));
    forall g :: g in a.Values ==> OnTime(m, drones, deliveries, SortedEntries(a), g)
  }

  /** `isConsistent`: both constraints hold. */
  ghost predicate Consistent(m: MathLib, drones: seq<Drone>, deliveries: seq<Delivery>, a: map<nat, nat>)
    requires PositiveSpeeds(drones) && Known(drones, deliveries, a)
  {
    CapacityOk(drones, deliveries, a) && TimeOk(m, drones, deliveries, a)
  }

  /** `Object.entries(assignment)` is the ascending listing. */
  method Listing(drones: seq<Drone>, deliveries: seq<Delivery>, a: map<nat, nat>) returns (pairs: seq<Pair>)
    requires Known(drones, deliveries, a)
    ensures pairs == SortedEntries(a)
    ensures IdsKnown(deliveries, pairs) && Carriers(pairs) == a.Values && Carriers(pairs) <= DroneIds(drones)
  {
    pairs := Csp.Entries(a);
    assert Increasing(pairs);
    ListingUnique(pairs, SortedEntries(a));
    KnownListing(drones, deliveries, a, pairs);
  }

  lemma {:induction false} AssignedToNone(deliveries: seq<Delivery>, pairs: seq<Pair>, g: nat)
    requires IdsKnown(deliveries, pairs) && g !in Carriers(pairs)
    ensures AssignedTo(deliveries, pairs, g) == []
    decreases |pairs|
  {
    if pairs != [] {
      var prev := pairs[..|pairs| - 1];
      assert forall i :: 0 <= i < |prev| ==> prev[i] == pairs[i];
      AssignedToNone(deliveries, prev, g);
    }
  }

  /** The summing loop of the capacity closure: each entry adds its
      delivery's weight to its drone's load, starting from 0. */
  method SumLoads(deliveries: seq<Delivery>, pairs: seq<Pair>) returns (loads: map<nat, real>)
    requires IdsKnown(deliveries, pairs)
    ensures loads.Keys == Carriers(pairs)
    ensures forall g :: g in loads ==> loads[g] == Load(AssignedTo(deliveries, pairs, g))
  {
    loads := map[];
    for i := 0 to |pairs|
      invariant loads.Keys == Carriers(pairs[..i])
      invariant forall g :: g in loads ==> loads[g] == Load(AssignedTo(deliveries, pairs[..i], g))
    {
      var (deliveryId, droneId) := pairs[i];
      var delivery := DeliveryById(deliveries, deliveryId);
      if droneId !in loads {
        AssignedToNone(deliveries, pairs[..i], droneId);
      }
      loads := loads[droneId := (if droneId in loads then loads[droneId] else 0.0) + delivery.weight];
      LoadStep(deliveries, pairs, i);
    }
    assert pairs[..|pairs|] == pairs;
  }

  /** The comparison loop of the capacity closure: every load against its
      drone's capacity, stopping at the first that is exceeded. */
  method LoadsFit(drones: seq<Drone>, loads: map<nat, real>, order: seq<nat>) returns (ok: bool)
    requires forall j :: 0 <= j < |order| ==> order[j] in loads && order[j] in DroneIds(drones)
    ensures ok <==> forall j :: 0 <= j < |order| ==> loads[order[j]] <= DroneById(drones, order[j]).maxWeight
  {
    for k := 0 to |order|
      invariant forall j :: 0 <= j < k ==> loads[order[j]] <= DroneById(drones, order[j]).maxWeight
    {
      var g := order[k];
      var drone := DroneById(drones, g);
      if !(loads[g] <= drone.maxWeight) {
        return false;
      }
    }
    return true;
  }

  /** The capacity closure: the loads summed per drone in entry order, then
      compared with the capacities in ascending drone id. */
  method CheckCapacity(drones: seq<Drone>, deliveries: seq<Delivery>, a: map<nat, nat>) returns (ok: bool)
    requires Known(drones, deliveries, a)
    ensures ok == CapacityOk(drones, deliveries, a)
  {
    var pairs := Listing(drones, deliveries, a);
    var loads := SumLoads(deliveries, pairs);
    KeyOrderFacts(drones, loads);
    var order := KeyOrder(drones, loads);
    ok := LoadsFit(drones, loads, order);
    if ok {
      forall g | g in a.Values ensures Fits(drones, deliveries, pairs, g) {
        var j :| 0 <= j < |order| && order[j] == g;
      }
    } else {
      ghost var j :| 0 <= j < |order| && !(loads[order[j]] <= DroneById(drones, order[j]).maxWeight);
      assert !Fits(drones, deliveries, pairs, order[j]);
    }
  }

  /** One more entry adds its weight to its drone's running load. */
  lemma LoadStep(deliveries: seq<Delivery>, pairs: seq<Pair>, i: nat)
    requires IdsKnown(deliveries, pairs) && i < |pairs|
    ensures Carriers(pairs[..i + 1]) == Carriers(pairs[..i]) + {pairs[i].1}
    ensures forall g :: g != pairs[i].1 ==> AssignedTo(deliveries, pairs[..i + 1], g) == AssignedTo(deliveries, pairs[..i], g)
    ensures Load(AssignedTo(deliveries, pairs[..i + 1], pairs[i].1)) ==
              Load(AssignedTo(deliveries, pairs[..i], pairs[i].1)) + DeliveryById(deliveries, pairs[i].0).weight
  {
    var p := pairs[..i + 1];
    assert p[..i] == pairs[..i];
    var ds := AssignedTo(deliveries, pairs[..i], pairs[i].1);
    var d := DeliveryById(deliveries, pairs[i].0);
    assert (ds + [d])[..|ds|] == ds;
  }

  /** Grouping the listing by drone and looking the ids up gives each
      drone's assigned deliveries. */
  lemma {:induction false} GroupedDeliveries(deliveries: seq<Delivery>, pairs: seq<Pair>, g: nat)
    requires IdsKnown(deliveries, pairs)
    ensures forall k :: 0 <= k < |Bucket(pairs, g)| ==> Bucket(pairs, g)[k] in DeliveryIds(deliveries)
    ensures Lookup(deliveries, Bucket(pairs, g)) == AssignedTo(deliveries, pairs, g)
    decreases |pairs|
  {
    if pairs != [] {
      var prev := pairs[..|pairs| - 1];
      var last := pairs[|pairs| - 1];
      GroupedDeliveries(deliveries, prev, g);
      if last.1 == g {
        LookupSnoc(deliveries, Bucket(prev, g), last.0);
      }
    }
  }

  lemma {:induction false} LookupSnoc(deliveries: seq<Delivery>, ids: seq<nat>, x: nat)
    requires forall k :: 0 <= k < |ids| ==> ids[k] in DeliveryIds(deliveries)
    requires x in DeliveryIds(deliveries)
    ensures Lookup(deliveries, ids + [x]) == Lookup(deliveries, ids) + [DeliveryById(deliveries, x)]
    decreases |ids|
  {
    if ids != [] {
      assert (ids + [x])[1..] == ids[1..] + [x];
      LookupSnoc(deliveries, ids[1..], x);
    }
  }

  /** The flying loop of the time-window closure: every drone's list of
      delivery ids flown in turn, stopping at the first missed window. */
  method SchedulesOnTime(m: MathLib, drones: seq<Drone>, deliveries: seq<Delivery>,
                         schedules: map<nat, seq<nat>>, order: seq<nat>) returns (ok: bool)
    requires PositiveSpeeds(drones) && RoutesKnown(drones, deliveries, schedules)
    requires forall j :: 0 <= j < |order| ==> order[j] in schedules
    ensures ok <==> forall j :: 0 <= j < |order| ==>
                      MeetsWindows(m, DroneById(drones, order[j]), Lookup(deliveries, schedules[order[j]]))
  {
    for k := 0 to |order|
      invariant forall j :: 0 <= j < k ==> MeetsWindows(m, DroneById(drones, order[j]), Lookup(deliveries, schedules[order[j]]))
    {
      var g := order[k];
      var drone := DroneById(drones, g);
      var fine := CheckWindows(m, drone, Lookup(deliveries, schedules[g]));
      if !fine {
        return false;
      }
    }
    return true;
  }

  /** The time-window closure: the entries grouped into per-drone lists of
      delivery ids, then every drone's list flown, in ascending drone id. */
  method CheckTimeWindows(m: MathLib, drones: seq<Drone>, deliveries: seq<Delivery>, a: map<nat, nat>) returns (ok: bool)
    requires PositiveSpeeds(drones) && Known(drones, deliveries, a)
    ensures ok == TimeOk(m, drones, deliveries, a)
  {
    var pairs := Listing(drones, deliveries, a);
    var schedules, _ := GroupRoutes(pairs);
    forall g, k | g in schedules && 0 <= k < |schedules[g]| ensures schedules[g][k] in DeliveryIds(deliveries) {
      GroupedDeliveries(deliveries, pairs, g);
    }
    KeyOrderFacts(drones, schedules);
    var order := KeyOrder(drones, schedules);
    ok := SchedulesOnTime(m, drones, deliveries, schedules, order);
    if ok {
      forall g | g in a.Values ensures OnTime(m, drones, deliveries, pairs, g) {
        var j :| 0 <= j < |order| && order[j] == g;
        GroupedDeliveries(deliveries, pairs, g);
      }
    } else {
      ghost var j :| 0 <= j < |order| && !MeetsWindows(m, DroneById(drones, order[j]), Lookup(deliveries, schedules[order[j]]));
      GroupedDeliveries(deliveries, pairs, order[j]);
      assert !OnTime(m, drones, deliveries, pairs, order[j]);
    }
  }

  /** `isConsistent`: `constraints.every(...)`, capacity first. */
  method IsConsistent(m: MathLib, drones: seq<Drone>, deliveries: seq<Delivery>, a: map<nat, nat>) returns (ok: bool)
    requires PositiveSpeeds(drones) && Known(drones, deliveries, a)
    ensures ok == Consistent(m, drones, deliveries, a)
  {
    ok := CheckCapacity(drones, deliveries, a);
    if ok {
      ok := CheckTimeWindows(m, drones, deliveries, a);
    }
  }

  /** The listing without the entry for key `k`. */
  function Without(pairs: seq<Pair>, k: nat): (r: seq<Pair>)
    ensures forall x :: x in r ==> x in pairs
    decreases |pairs|
  {
    if pairs == [] then []
    else Without(pairs[..|pairs| - 1], k) + (if pairs[|pairs| - 1].0 == k then [] else [pairs[|pairs| - 1]])
  }

  lemma {:induction false} WithoutFacts(pairs: seq<Pair>, k: nat)
    requires Increasing(pairs)
    ensures Increasing(Without(pairs, k))
    ensures forall x :: x in Without(pairs, k) <==> x in pairs && x.0 != k
    decreases |pairs|
  {
    if pairs != [] {
      var prev := pairs[..|pairs| - 1];
      var last := pairs[|pairs| - 1];
      WithoutFacts(prev, k);
      var w := Without(prev, k);
      forall i | 0 <= i < |w| ensures w[i].0 < last.0 {
        assert w[i] in w;
        var j :| 0 <= j < |prev| && prev[j] == w[i];
      }
      assert pairs == prev + [last];
      var r := w + (if last.0 == k then [] else [last]);
      assert Without(pairs, k) == r;
      forall i, j | 0 <= i < j < |r| ensures r[i].0 < r[j].0 {
        if j < |w| {
          assert r[i] == w[i] && r[j] == w[j];
        }
      }
    }
  }

  /** One more entry appends its delivery to its own drone's list only. */
  lemma AssignedSnoc(deliveries: seq<Delivery>, pairs: seq<Pair>, x: Pair, g: nat)
    requires IdsKnown(deliveries, pairs + [x])
    ensures IdsKnown(deliveries, pairs)
    ensures AssignedTo(deliveries, pairs + [x], g) ==
              AssignedTo(deliveries, pairs, g) + (if x.1 == g then [DeliveryById(deliveries, x.0)] else [])
  {
    assert (pairs + [x])[..|pairs|] == pairs;
  }

  lemma LoadSnoc(ds: seq<Delivery>, d: Delivery)
    ensures Load(ds + [d]) == Load(ds) + d.weight
  {
    assert (ds + [d])[..|ds|] == ds;
  }

  /** With no negative weights, dropping an entry never adds load. */
  lemma {:induction false} LoadWithout(deliveries: seq<Delivery>, pairs: seq<Pair>, k: nat, g: nat)
    requires IdsKnown(deliveries, pairs)
    requires forall i :: 0 <= i < |deliveries| ==> deliveries[i].weight >= 0.0
    ensures IdsKnown(deliveries, Without(pairs, k))
    ensures Load(AssignedTo(deliveries, Without(pairs, k), g)) <= Load(AssignedTo(deliveries, pairs, g))
    decreases |pairs|
  {
    if pairs != [] {
      var prev := pairs[..|pairs| - 1];
      var last := pairs[|pairs| - 1];
      assert pairs == prev + [last];
      AssignedSnoc(deliveries, prev, last, g);
      LoadWithout(deliveries, prev, k, g);
      var wp := Without(prev, k);
      var before := AssignedTo(deliveries, prev, g);
      var after := AssignedTo(deliveries, wp, g);
      var d := DeliveryById(deliveries, last.0);
      LoadSnoc(before, d);
      assert d.weight >= 0.0;
      if last.0 != k {
        assert Without(pairs, k) == wp + [last];
        AssignedSnoc(deliveries, wp, last, g);
        LoadSnoc(after, d);
        if last.1 != g {
          assert AssignedTo(deliveries, Without(pairs, k), g) == after + [];
          assert after + [] == after;
          assert AssignedTo(deliveries, pairs, g) == before + [];
          assert before + [] == before;
        }
      } else {
        assert Without(pairs, k) == wp;
        if last.1 != g {
          assert AssignedTo(deliveries, pairs, g) == before + [];
          assert before + [] == before;
        }
      }
    }
  }

  /** Deleting an assignment entry keeps the capacity constraint: the
      remaining drones carry the same or less (weights are not negative). */
  lemma CapacityAfterDelete(drones: seq<Drone>, deliveries: seq<Delivery>, a: map<nat, nat>, k: nat)
    requires Known(drones, deliveries, a) && CapacityOk(drones, deliveries, a)
    requires forall i :: 0 <= i < |deliveries| ==> deliveries[i].weight >= 0.0
    ensures Known(drones, deliveries, a - {k}) && CapacityOk(drones, deliveries, a - {k})
  {
    var b := a - {k};
    var pairs := SortedEntries(a);
    KnownListing(drones, deliveries, a, pairs);
    WithoutFacts(pairs, k);
    var w := Without(pairs, k);
    forall x ensures x in w <==> x in SortedEntries(b) {
      assert x in w <==> x.0 in a && a[x.0] == x.1 && x.0 != k;
    }
    ListingUnique(w, SortedEntries(b));
    KnownListing(drones, deliveries, b, SortedEntries(b));
    forall g | g in b.Values
      ensures Fits(drones, deliveries, SortedEntries(b), g)
    {
      var id :| id in b && b[id] == g;
      assert g in a.Values;
      LoadWithout(deliveries, pairs, k, g);
    }
  }

  /** Every value is drawn from its variable's domain. */
  ghost predicate FromDomains(domains: map<nat, seq<nat>>, a: map<nat, nat>) {
    forall id :: id in a ==> id in domains && a[id] in domains[id]
  }

  /** The keys are exactly the listed variables. */
  ghost predicate Covers(a: map<nat, nat>, vars: seq<nat>) {
    forall id :: id in a <==> id in vars
  }

  /** The class: the instance, the variables and their domains fixed at
      construction, and the assignment the search shares between its
      recursive calls (a local of `backtrackSearch` captured by `backtrack`,
      held here as a field). */
  class CSPAlgorithm {
    const math: MathLib
    const drones: seq<Drone>
    const deliveries: seq<Delivery>
    const noFlyZones: seq<Zone>
    const variables: seq<nat>
    const domains: map<nat, seq<nat>>
    var assignment: map<nat, nat>

    /** What the search relies on: positive speeds, unique ids (the
        `find(...)` lookups), and the variables and domains as built. */
    ghost predicate Valid() {
      && PositiveSpeeds(drones) && UniqueDroneIds(drones) && UniqueDeliveryIds(deliveries)
      && variables == IdsOf(deliveries)
      && (forall k :: 0 <= k < |variables| ==> variables[k] in DeliveryIds(deliveries))
      && DomainsSound(drones, deliveries, variables, domains)
    }

    constructor (math: MathLib, drones: seq<Drone>, deliveries: seq<Delivery>, noFlyZones: seq<Zone>)
      requires PositiveSpeeds(drones) && UniqueDroneIds(drones) && UniqueDeliveryIds(deliveries)
      ensures this.math == math && this.drones == drones && this.deliveries == deliveries && this.noFlyZones == noFlyZones
      ensures variables == IdsOf(deliveries) && domains == DomainsOf(drones, deliveries, variables)
      ensures Valid() && assignment == map[]
    {
      this.math := math;
      this.drones := drones;
      this.deliveries := deliveries;
      this.noFlyZones := noFlyZones;
      var variables := IdsOf(deliveries);
      assert forall k :: 0 <= k < |variables| ==> variables[k] in DeliveryIds(deliveries) by {
        forall k | 0 <= k < |variables| ensures variables[k] in DeliveryIds(deliveries) {
          assert variables[k] == deliveries[k].id;
        }
      }
      var domains := InitializeDomains(drones, deliveries, variables);
      assert DomainsSound(drones, deliveries, variables, domains) by {
        forall id | id in domains ensures id in DeliveryIds(deliveries) {
          var m :| 0 <= m < |variables| && variables[m] == id;
        }
        forall id, g | id in domains && g in domains[id] ensures g in DroneIds(drones) {
          assert id in variables && domains[id] == Capable(drones, DeliveryById(deliveries, id).weight);
          var k :| 0 <= k < |drones| && drones[k].id == g && drones[k].maxWeight >= DeliveryById(deliveries, id).weight;
          assert drones[k].id in DroneIds(drones);
        }
      }
      this.variables := variables;
      this.domains := domains;
      this.assignment := map[];
    }

    /** An assignment drawn from the domains names known deliveries and drones. */
    lemma DomainsKnown(a: map<nat, nat>)
      requires Valid() && FromDomains(domains, a)
      ensures Known(drones, deliveries, a)
    {
      forall id | id in a ensures id in DeliveryIds(deliveries) && a[id] in DroneIds(drones) {
        assert id in domains && a[id] in domains[id];
      }
    }

    /** The choices `backtrack(index)` can still complete from `a`: past the
        last variable, `a` is consistent; otherwise some value of the next
        variable's domain is admitted. This is the tree the search walks,
        value by value. */
    ghost predicate Extendable(a: map<nat, nat>, index: nat)
      requires PositiveSpeeds(drones) && index <= |variables|
      decreases |variables| - index, 1
    {
      if index == |variables| then
        Known(drones, deliveries, a) && Consistent(math, drones, deliveries, a)
      else
        variables[index] in domains && exists v :: v in domains[variables[index]] && Admits(a, index, v)
    }

    /** Giving the next variable the value `v` is consistent and can be completed. */
    ghost predicate Admits(a: map<nat, nat>, index: nat, v: nat)
      requires PositiveSpeeds(drones) && index < |variables|
      decreases |variables| - index, 0
    {
      var b := a[variables[index] := v];
      Known(drones, deliveries, b) && Consistent(math, drones, deliveries, b) && Extendable(b, index + 1)
    }

    /** One more value rejected extends the rejected prefix; a separate
        lemma keeps the unfolding of `Admits` out of the loop's proof. */
    lemma Rejected(a: map<nat, nat>, index: nat, values: seq<nat>, i: nat)
      requires PositiveSpeeds(drones) && index < |variables| && i < |values|
      requires forall j :: 0 <= j < i ==> !Admits(a, index, values[j])
      requires !Admits(a, index, values[i])
      ensures forall j :: 0 <= j < i + 1 ==> !Admits(a, index, values[j])
    {
    }

    /** An admitted value of the next variable's domain completes the assignment. */
    lemma AdmittedExtends(a: map<nat, nat>, index: nat, v: nat)
      requires PositiveSpeeds(drones) && index < |variables| && variables[index] in domains
      requires v in domains[variables[index]] && Admits(a, index, v)
      ensures Extendable(a, index)
    {
    }

    /** When every value of the next variable's domain is among the
        `rejected` ones, none of which is admitted, the assignment cannot be
        completed. */
    lemma NoneAdmitted(a: map<nat, nat>, index: nat)
      requires PositiveSpeeds(drones) && index < |variables| && variables[index] in domains
      requires forall j :: 0 <= j < |domains[variables[index]]| ==> !Admits(a, index, domains[variables[index]][j])
      ensures !Extendable(a, index)
    {
      forall v | v in domains[variables[index]] ensures !Admits(a, index, v) {
        var j :| 0 <= j < |domains[variables[index]]| && domains[variables[index]][j] == v;
      }
    }

    /** `backtrack(index)`: variables before `index` are assigned; on
        success the assignment is complete, drawn from the domains,
        consistent, and extends the one found; on failure every value tried
        has been deleted again and the assignment is as found. It succeeds
        exactly when the assignment found can be completed value by value. */
    method Backtrack(index: nat) returns (ok: bool)
      requires Valid() && index <= |variables|
      requires Covers(assignment, variables[..index]) && FromDomains(domains, assignment)
      modifies this
      ensures ok ==> Covers(assignment, variables) && FromDomains(domains, assignment)
      ensures ok ==> Known(drones, deliveries, assignment) && Consistent(math, drones, deliveries, assignment)
      ensures ok ==> forall id :: id in old(assignment) ==> id in assignment && assignment[id] == old(assignment)[id]
      ensures !ok ==> assignment == old(assignment)
      ensures ok <==> Extendable(old(assignment), index)
      decreases |variables| - index, 2
    {
      if index == |variables| {
        DomainsKnown(assignment);
        assert variables[..index] == variables;
        ok := IsConsistent(math, drones, deliveries, assignment);
        return;
      }
      ok := TryDomain(index);
    }

    /** The value loop of `backtrack(index)`: the values of the next
        variable's domain in order, until one of them leads to a complete
        assignment. */
    method TryDomain(index: nat) returns (ok: bool)
      requires Valid() && index < |variables|
      requires Covers(assignment, variables[..index]) && FromDomains(domains, assignment)
      modifies this
      ensures ok ==> Covers(assignment, variables) && FromDomains(domains, assignment)
      ensures ok ==> Known(drones, deliveries, assignment) && Consistent(math, drones, deliveries, assignment)
      ensures ok ==> forall id :: id in old(assignment) ==> id in assignment && assignment[id] == old(assignment)[id]
      ensures !ok ==> assignment == old(assignment)
      ensures ok <==> Extendable(old(assignment), index)
      decreases |variables| - index, 1
    {
      ghost var before := assignment;
      var values := domains[variables[index]];
      for i := 0 to |values|
        invariant assignment == before
        invariant forall j :: 0 <= j < i ==> !Admits(before, index, values[j])
      {
        var found := TryValue(index, values[i]);
        if found {
          AdmittedExtends(before, index, values[i]);
          return true;
        }
        Rejected(before, index, values, i);
      }
      NoneAdmitted(before, index);
      return false;
    }

    /** One pass of the value loop of `backtrack(index)`: assign `value`,
        recurse when the assignment is consistent, and delete the value
        again when that fails. */
    method TryValue(index: nat, value: nat) returns (found: bool)
      requires Valid() && index < |variables|
      requires Covers(assignment, variables[..index]) && FromDomains(domains, assignment)
      requires variables[index] in domains && value in domains[variables[index]]
      modifies this
      ensures found ==> Covers(assignment, variables) && FromDomains(domains, assignment)
      ensures found ==> Known(drones, deliveries, assignment) && Consistent(math, drones, deliveries, assignment)
      ensures found ==> forall id :: id in old(assignment) ==> id in assignment && assignment[id] == old(assignment)[id]
      ensures !found ==> assignment == old(assignment)
      ensures found <==> Admits(old(assignment), index, value)
      decreases |variables| - index, 0
    {
      ghost var before := assignment;
      var variable := variables[index];
      VariablesDistinct();
      NextVariable(variables, domains, before, index, value);
      assignment := assignment[variable := value];
      DomainsKnown(assignment);
      var consistent := IsConsistent(math, drones, deliveries, assignment);
      found := false;
      if consistent {
        found := Backtrack(index + 1);
      }
      if !found {
        assignment := assignment - {variable};
      }
    }

    /** Delivery ids are unique, so no variable is listed twice. */
    lemma VariablesDistinct()
      requires Valid()
      ensures NoDuplicates(variables)
    {
      forall i, j | 0 <= i < j < |variables| ensures variables[i] != variables[j] {
        assert variables[i] == deliveries[i].id && variables[j] == deliveries[j].id;
      }
    }

    /** `backtrackSearch`: an empty assignment, the search from the first
        variable, and the routes of the assignment found, or nothing. */
    method BacktrackSearch() returns (result: Option<RouteResult>)
      requires Valid()
      modifies this
      ensures result.None? ==> assignment == map[]
      ensures result.None? <==> !Extendable(map[], 0)
      ensures result.Some? ==> Covers(assignment, variables) && FromDomains(domains, assignment)
      ensures result.Some? ==> Known(drones, deliveries, assignment) && Consistent(math, drones, deliveries, assignment)
      ensures result.Some? ==> result.value.completed == |variables|
      ensures result.Some? ==> Csp.Grouped(result.value.routes, assignment) && Csp.Ascending(result.value.routes)
      ensures result.Some? ==> RoutesKnown(drones, deliveries, result.value.routes)
      ensures result.Some? ==>
                result.value.totalDistance == RoutesDistance(math, drones, deliveries, result.value.routes, KeyOrder(drones, result.value.routes))
      ensures result.Some? ==>
                result.value.energy == RoutesEnergy(math, drones, deliveries, result.value.routes, KeyOrder(drones, result.value.routes))
    {
      assignment := map[];
      var found := Backtrack(0);
      if found {
        var r := ConvertToRoutes(math, drones, deliveries, assignment);
        CompletedIsVariables(assignment);
        return Some(r);
      }
      return None;
    }

    /** A complete assignment has one key per variable. */
    lemma CompletedIsVariables(a: map<nat, nat>)
      requires Valid() && Covers(a, variables)
      ensures |a.Keys| == |variables|
    {
      VariablesDistinct();
      CoveredCount(a, variables);
    }
  }

  lemma CoveredCount(a: map<nat, nat>, vars: seq<nat>)
    requires NoDuplicates(vars) && Covers(a, vars)
    ensures |a.Keys| == |vars|
  {
    Csp.DistinctCard(vars);
    assert a.Keys == Csp.Elements(vars);
  }

  /** Routes grouped from a known assignment, none of them empty, name
      known drones and deliveries. */
  lemma GroupedKnown(drones: seq<Drone>, deliveries: seq<Delivery>, a: map<nat, nat>, routes: map<nat, seq<nat>>)
    requires Known(drones, deliveries, a) && Csp.Grouped(routes, a)
    requires forall g :: g in routes ==> routes[g] != []
    ensures RoutesKnown(drones, deliveries, routes)
  {
    forall g | g in routes ensures g in DroneIds(drones) {
      var id := routes[g][0];
      assert id in routes[g];
      assert id in a && a[id] == g;
    }
    forall g, k | g in routes && 0 <= k < |routes[g]| ensures routes[g][k] in DeliveryIds(deliveries) {
      assert routes[g][k] in routes[g];
    }
  }

  /** The next variable is still unassigned: giving it a value from its
      domain covers one more variable, and deleting that value again
      restores the assignment. */
  lemma NextVariable(vars: seq<nat>, domains: map<nat, seq<nat>>, a: map<nat, nat>, index: nat, g: nat)
    requires NoDuplicates(vars) && index < |vars|
    requires Covers(a, vars[..index]) && FromDomains(domains, a)
    requires vars[index] in domains && g in domains[vars[index]]
    ensures vars[index] !in a
    ensures Covers(a[vars[index] := g], vars[..index + 1])
    ensures FromDomains(domains, a[vars[index] := g])
    ensures a[vars[index] := g] - {vars[index]} == a
  {
    assert vars[..index + 1] == vars[..index] + [vars[index]];
  }

  /** `convertToRoutes`: the entries grouped into per-drone routes in
      ascending delivery id, the routes replayed in ascending drone id, and
      one completed delivery per entry. */
  method ConvertToRoutes(m: MathLib, drones: seq<Drone>, deliveries: seq<Delivery>, a: map<nat, nat>)
    returns (result: RouteResult)
    requires Known(drones, deliveries, a)
    ensures result.completed == |a.Keys|
    ensures Csp.Grouped(result.routes, a) && Csp.Ascending(result.routes)
    ensures RoutesKnown(drones, deliveries, result.routes)
    ensures result.totalDistance == RoutesDistance(m, drones, deliveries, result.routes, KeyOrder(drones, result.routes))
    ensures result.energy == RoutesEnergy(m, drones, deliveries, result.routes, KeyOrder(drones, result.routes))
  {
    var pairs := Csp.Entries(a);
    var routes, completed := GroupRoutes(pairs);
    Csp.RoutesMatch(a, pairs, routes);
    forall g | g in routes ensures routes[g] != [] && forall i, j :: 0 <= i < j < |routes[g]| ==> routes[g][i] < routes[g][j] {
      var i :| 0 <= i < |pairs| && pairs[i].1 == g;
      assert pairs[i] in pairs;
      BucketMembership(pairs, g, pairs[i].0);
      Csp.BucketIncreasing(pairs, g);
    }
    GroupedKnown(drones, deliveries, a, routes);
    var totalDistance, energy := RouteTotals(m, drones, deliveries, routes);
    result := RouteResult(routes, totalDistance, completed, energy);
  }
}
