/** The page's CSP solver (`cspAlgorithm`): deliveries outside every zone at
    the start of their window, highest priority first, become variables whose
    domains are the drones that can lift them and reach them from their start
    at time 0. A backtracking search picks the most constrained variable,
    tries its consistent drones, and restores its four tables exactly when a
    branch fails. */
module Csp {
  import opened Types
  import opened Zones
  import opened RouteCheck
  import opened StableSort
  import opened Metrics
  import Greedy

  /** `deliveries.filter(d => !isInNoFlyZone(d.pos, d.time_window[0]))`. */
  function Unblocked(m: MathLib, zones: seq<Zone>, ds: seq<Delivery>): (r: seq<Delivery>)
    ensures forall d :: d in r <==> d in ds && !InAnyZone(m, zones, d.pos, d.earliest)
    ensures |r| <= |ds| && multiset(r) <= multiset(ds)
    decreases |ds|
  {
    if ds == [] then []
    else
      var last := ds[|ds| - 1];
      var prev := ds[..|ds| - 1];
      assert ds == prev + [last];
      Unblocked(m, zones, prev) + (if InAnyZone(m, zones, last.pos, last.earliest) then [] else [last])
  }

  /** One more request is appended to the filtered list exactly when its point is clear. */
  lemma UnblockedSnoc(m: MathLib, zones: seq<Zone>, ds: seq<Delivery>, d: Delivery)
    ensures Unblocked(m, zones, ds + [d]) == Unblocked(m, zones, ds) + if InAnyZone(m, zones, d.pos, d.earliest) then [] else [d]
  {
    assert (ds + [d])[..|ds|] == ds;
  }

  /** Associativity as a separate lemma: stated inline, the step sends
      the proof of `UnblockedAppend` past the resource limit. */
  lemma Regroup<T>(x: seq<T>, y: seq<T>, z: seq<T>)
    ensures (x + y) + z == x + (y + z)
  {
  }

  /** The filter keeps the order of the requests: filtering a concatenation
      is concatenating the filtered parts, and one request is kept exactly
      when its point is clear. */
  lemma {:induction false} UnblockedAppend(m: MathLib, zones: seq<Zone>, a: seq<Delivery>, b: seq<Delivery>)
    ensures Unblocked(m, zones, a + b) == Unblocked(m, zones, a) + Unblocked(m, zones, b)
    ensures |b| == 1 ==> Unblocked(m, zones, b) == if InAnyZone(m, zones, b[0].pos, b[0].earliest) then [] else b
    decreases |b|
  {
    if b == [] {
      assert a + b == a;
    } else {
      var prev := b[..|b| - 1];
      var last := b[|b| - 1];
      assert b == prev + [last];
      assert a + b == (a + prev) + [last];
      var kept := if InAnyZone(m, zones, last.pos, last.earliest) then [] else [last];
      var front, rest := Unblocked(m, zones, a), Unblocked(m, zones, prev);
      UnblockedSnoc(m, zones, a + prev, last);
      UnblockedSnoc(m, zones, prev, last);
      UnblockedAppend(m, zones, a, prev);
      assert Unblocked(m, zones, a + b) == (front + rest) + kept;
      assert Unblocked(m, zones, b) == rest + kept;
      Regroup(front, rest, kept);
      if |b| == 1 {
        assert prev == [];
      }
    }
  }

  /** `validDeliveries.slice(0, 30)` in the second scenario, all of them otherwise. */
  function Limited(ds: seq<Delivery>, scenario2: bool): (r: seq<Delivery>)
    ensures |r| <= |ds| && r == ds[..|r|]
    ensures scenario2 ==> |r| == if |ds| < 30 then |ds| else 30
    ensures !scenario2 ==> r == ds
  {
    if scenario2 && |ds| > 30 then ds[..30] else ds
  }

  /** The drone-side filter of a domain: the drone can lift the parcel and
      the straight route from its start, flown at time 0, passes the check. */
  predicate Eligible(m: MathLib, zones: seq<Zone>, drone: Drone, d: Delivery)
    requires drone.speed != 0.0
  {
    !(drone.maxWeight < d.weight) && RouteValid(m, zones, drone.startPos, d.pos, 0.0, drone.speed)
  }

  /** `drones.filter(Eligible).map(drone => drone.id)`. */
  function EligibleIds(m: MathLib, zones: seq<Zone>, drones: seq<Drone>, d: Delivery): (ids: seq<nat>)
    requires PositiveSpeeds(drones)
    ensures forall g :: g in ids <==> exists i :: 0 <= i < |drones| && drones[i].id == g && Eligible(m, zones, drones[i], d)
    decreases |drones|
  {
    if drones == [] then []
    else
      var prev := drones[..|drones| - 1];
      var last := drones[|drones| - 1];
      assert forall i :: 0 <= i < |prev| ==> prev[i] == drones[i];
      EligibleIds(m, zones, prev, d) + (if Eligible(m, zones, last, d) then [last.id] else [])
  }

  /** Distance from drone `g`'s start to `p` (`drones.find(d => d.id === g)!`). */
  function StartDistance(m: MathLib, drones: seq<Drone>, p: Point, g: nat): real {
    if g in DroneIds(drones) then Distance(m, DroneById(drones, g).startPos, p) else 0.0
  }

  /** The comparator `(a, b) => distA - distB` as a sort key. */
  function NearestFirst(m: MathLib, drones: seq<Drone>, p: Point): nat -> real {
    (g: nat) => StartDistance(m, drones, p, g)
  }

  /** The domain of one delivery: its eligible drones, nearest start first
      (a stable sort, so equal distances keep the fleet's order). */
  function Domain(m: MathLib, zones: seq<Zone>, drones: seq<Drone>, d: Delivery): seq<nat>
    requires PositiveSpeeds(drones)
  {
    SortBy(EligibleIds(m, zones, drones, d), NearestFirst(m, drones, d.pos))
  }

  /** A domain holds exactly the drones that can lift the parcel and reach it
      from their start at time 0, ordered by distance from that start. */
  lemma DomainFacts(m: MathLib, zones: seq<Zone>, drones: seq<Drone>, d: Delivery)
    requires PositiveSpeeds(drones)
    ensures forall g :: g in Domain(m, zones, drones, d) <==>
              exists i :: 0 <= i < |drones| && drones[i].id == g && Eligible(m, zones, drones[i], d)
    ensures SortedBy(Domain(m, zones, drones, d), NearestFirst(m, drones, d.pos))
  {
    var ids := EligibleIds(m, zones, drones, d);
    SortByFacts(ids, NearestFirst(m, drones, d.pos));
    forall g ensures g in Domain(m, zones, drones, d) <==> g in ids {
      assert g in Domain(m, zones, drones, d) <==> g in multiset(Domain(m, zones, drones, d));
      assert g in ids <==> g in multiset(ids);
    }
  }

  /** Every domain the solver builds, keyed by delivery id. */
  ghost function DomainsOf(m: MathLib, zones: seq<Zone>, drones: seq<Drone>, ds: seq<Delivery>, variables: seq<nat>): map<nat, seq<nat>>
    requires PositiveSpeeds(drones)
    requires forall k :: 0 <= k < |variables| ==> variables[k] in DeliveryIds(ds)
  {
    map id | id in variables :: Domain(m, zones, drones, DeliveryById(ds, id))
  }

  /** The `variables.forEach` loop that fills `domains`. */
  method BuildDomains(m: MathLib, zones: seq<Zone>, drones: seq<Drone>, ds: seq<Delivery>, variables: seq<nat>)
    returns (domains: map<nat, seq<nat>>)
    requires PositiveSpeeds(drones)
    requires forall k :: 0 <= k < |variables| ==> variables[k] in DeliveryIds(ds)
    ensures domains == DomainsOf(m, zones, drones, ds, variables)
  {
    domains := map[];
    for k := 0 to |variables|
      invariant domains == DomainsOf(m, zones, drones, ds, variables[..k])
    {
      var id := variables[k];
      var delivery := DeliveryById(ds, id);
      domains := domains[id := Domain(m, zones, drones, delivery)];
      assert variables[..k + 1] == variables[..k] + [id];
    }
    assert variables[..|variables|] == variables;
  }

  /** `variables.filter(id => domains[id].length > 0)`. */
  function Solvable(variables: seq<nat>, domains: map<nat, seq<nat>>): (r: seq<nat>)
    requires forall k :: 0 <= k < |variables| ==> variables[k] in domains
    ensures forall id :: id in r <==> id in variables && domains[id] != []
    ensures NoDuplicates(variables) ==> NoDuplicates(r)
    decreases |variables|
  {
    if variables == [] then []
    else
      var prev := variables[..|variables| - 1];
      var last := variables[|variables| - 1];
      assert variables == prev + [last];
      var r := Solvable(prev, domains) + (if domains[last] != [] then [last] else []);
      assert NoDuplicates(variables) ==> last !in prev;
      r
  }

  /** What the search works on: the instance and the domains it built. */
  datatype Problem = Problem(m: MathLib, zones: seq<Zone>, drones: seq<Drone>, deliveries: seq<Delivery>,
                             domains: map<nat, seq<nat>>)

  /** Every variable is a delivery and every domain value a drone; speeds
      are positive and ids unique, so every `find(...)!` succeeds. */
  ghost predicate WellFormed(p: Problem) {
    && PositiveSpeeds(p.drones) && UniqueDroneIds(p.drones)
    && (forall id :: id in p.domains ==> id in DeliveryIds(p.deliveries))
    && (forall id, g :: id in p.domains && g in p.domains[id] ==> g in DroneIds(p.drones))
  }

  /** The four dictionaries the search mutates, as one value:
      `assignment`, `droneLoads`, `droneTimes` and `dronePositions`. */
  datatype Tables = Tables(assignment: map<nat, nat>, loads: map<nat, real>, times: map<nat, real>, positions: map<nat, Point>)

  /** Drone `g` has a load, a clock and a position. */
  predicate Has(t: Tables, g: nat) {
    g in t.loads && g in t.times && g in t.positions
  }

  lemma SpeedOf(drones: seq<Drone>, g: nat)
    requires PositiveSpeeds(drones) && g in DroneIds(drones)
    ensures DroneById(drones, g).speed > 0.0
  {
  }

  /** `isConsistent`: the parcel fits, the drone arrives no later than the
      end of the window, and the point is outside every active zone then. */
  predicate Consistent(p: Problem, t: Tables, d: Delivery, g: nat)
    requires WellFormed(p) && g in DroneIds(p.drones)
  {
    SpeedOf(p.drones, g);
    Has(t, g) &&
    var drone := DroneById(p.drones, g);
    var arrival := t.times[g] + Distance(p.m, t.positions[g], d.pos) / drone.speed;
    && t.loads[g] + d.weight <= drone.maxWeight
    && arrival <= d.latest
    && !InAnyZone(p.m, p.zones, d.pos, arrival)
  }

  /** The try block: record the choice and move drone `g`'s tables on. */
  function Apply(p: Problem, t: Tables, d: Delivery, g: nat): Tables
    requires WellFormed(p) && g in DroneIds(p.drones) && Has(t, g)
  {
    SpeedOf(p.drones, g);
    var drone := DroneById(p.drones, g);
    Tables(t.assignment[d.id := g],
           t.loads[g := t.loads[g] + d.weight],
           t.times[g := t.times[g] + Distance(p.m, t.positions[g], d.pos) / drone.speed],
           t.positions[g := d.pos])
  }

  /** Replaying a sequence of choices (delivery id, drone id) from `t`: each
      must be a domain value consistent with the tables at that point;
      `None` as soon as one is not. */
  ghost function Run(p: Problem, t: Tables, trace: seq<Pair>): Option<Tables>
    requires WellFormed(p)
    decreases |trace|
  {
    if trace == [] then Some(t)
    else
      var (id, g) := trace[0];
      if id in p.domains && g in p.domains[id] && Consistent(p, t, DeliveryById(p.deliveries, id), g)
      then
        Run(p, Apply(p, t, DeliveryById(p.deliveries, id), g), trace[1..])
      else None
  }

  /** The delivery ids of a trace, in order. */
  function Chosen(trace: seq<Pair>): (ids: seq<nat>)
    ensures |ids| == |trace| && forall k :: 0 <= k < |trace| ==> ids[k] == trace[k].0
  {
    if trace == [] then [] else [trace[0].0] + Chosen(trace[1..])
  }

  /** `unassigned.filter(id => id !== deliveryId)`. */
  function Remove(u: seq<nat>, x: nat): (r: seq<nat>)
    ensures forall y :: y in r <==> y in u && y != x
    ensures |r| <= |u| && (x in u ==> |r| < |u|)
    decreases |u|
  {
    if u == [] then []
    else
      var prev := u[..|u| - 1];
      var last := u[|u| - 1];
      assert u == prev + [last];
      assert x in u ==> x == last || x in prev;
      Remove(prev, x) + (if last != x then [last] else [])
  }

  /** Removing `x` takes every copy of it out and leaves the rest. */
  lemma {:induction false} RemoveCount(u: seq<nat>, x: nat)
    ensures multiset(Remove(u, x)) == multiset(u)[x := 0]
    decreases |u|
  {
    if u != [] {
      var prev := u[..|u| - 1];
      var last := u[|u| - 1];
      assert u == prev + [last];
      RemoveCount(prev, x);
      assert multiset(u) == multiset(prev) + multiset{last};
    }
  }

  /** A value that occurs once is counted once. */
  lemma {:induction false} CountOfDistinct<T>(u: seq<T>, x: T)
    requires NoDuplicates(u) && x in u
    ensures multiset(u)[x] == 1
    decreases |u|
  {
    var prev := u[..|u| - 1];
    var last := u[|u| - 1];
    assert u == prev + [last];
    assert multiset(u) == multiset(prev) + multiset{last};
    if last == x {
      assert x !in prev;
      assert x !in multiset(prev);
    } else {
      assert NoDuplicates(prev);
      CountOfDistinct(prev, x);
    }
  }

  /** `domains[id].filter(droneId => isConsistent(id, droneId))`. */
  function ConsistentDrones(p: Problem, t: Tables, d: Delivery, ids: seq<nat>): (r: seq<nat>)
    requires WellFormed(p)
    requires forall k :: 0 <= k < |ids| ==> ids[k] in DroneIds(p.drones)
    ensures |r| <= |ids|
    decreases |ids|
  {
    if ids == [] then []
    else
      var prev := ids[..|ids| - 1];
      var last := ids[|ids| - 1];
      assert ids == prev + [last];
      ConsistentDrones(p, t, d, prev) + (if Consistent(p, t, d, last) then [last] else [])
  }

  /** The filter keeps exactly the drones consistent with the tables. */
  lemma {:induction false} ConsistentDronesFacts(p: Problem, t: Tables, d: Delivery, ids: seq<nat>)
    requires WellFormed(p)
    requires forall k :: 0 <= k < |ids| ==> ids[k] in DroneIds(p.drones)
    ensures forall g :: g in ConsistentDrones(p, t, d, ids) <==> g in ids && Consistent(p, t, d, g)
    decreases |ids|
  {
    if ids != [] {
      var prev := ids[..|ids| - 1];
      var last := ids[|ids| - 1];
      assert ids == prev + [last];
      ConsistentDronesFacts(p, t, d, prev);
    }
  }

  /** The values of variable `id` consistent with the tables. */
  function Options(p: Problem, t: Tables, id: nat): seq<nat>
    requires WellFormed(p) && id in p.domains
  {
    var dom := p.domains[id];
    assert forall k :: 0 <= k < |dom| ==> dom[k] in DroneIds(p.drones) by {
      forall k | 0 <= k < |dom| ensures dom[k] in DroneIds(p.drones) {
        assert dom[k] in dom;
      }
    }
    ConsistentDrones(p, t, DeliveryById(p.deliveries, id), dom)
  }

  lemma OptionsFacts(p: Problem, t: Tables, id: nat)
    requires WellFormed(p) && id in p.domains
    ensures forall g :: g in Options(p, t, id) <==> g in p.domains[id] && Consistent(p, t, DeliveryById(p.deliveries, id), g)
  {
    var dom := p.domains[id];
    forall k | 0 <= k < |dom| ensures dom[k] in DroneIds(p.drones) {
      assert dom[k] in dom;
    }
    ConsistentDronesFacts(p, t, DeliveryById(p.deliveries, id), dom);
  }

  /** Number of consistent values, the most-constrained-variable measure. */
  function Freedom(p: Problem, t: Tables, id: nat): nat
    requires WellFormed(p) && id in p.domains
  {
    |Options(p, t, id)|
  }

  /** The freedom of each variable of `u`, in order. */
  function Freedoms(p: Problem, t: Tables, u: seq<nat>): (f: seq<nat>)
    requires WellFormed(p)
    requires forall k :: 0 <= k < |u| ==> u[k] in p.domains
    ensures |f| == |u| && forall k :: 0 <= k < |u| ==> f[k] == Freedom(p, t, u[k])
  {
    seq(|u|, k requires 0 <= k < |u| => Freedom(p, t, u[k]))
  }

  /** The `reduce` of `selectVariable` on the variables' freedoms: `b` is the
      best index among the first `k`, and a later variable replaces it only
      when it has strictly fewer consistent values. */
  function FirstMin(s: seq<nat>, b: nat, k: nat): (r: nat)
    requires b < k <= |s|
    requires forall j :: 0 <= j < k ==> s[b] <= s[j]
    requires forall j :: 0 <= j < b ==> s[b] < s[j]
    ensures r < |s|
    ensures forall j :: 0 <= j < |s| ==> s[r] <= s[j]
    ensures forall j :: 0 <= j < r ==> s[r] < s[j]
    decreases |s| - k
  {
    if k == |s| then b
    else FirstMin(s, if s[k] < s[b] then k else b, k + 1)
  }

  /** `selectVariable`: the first variable with the fewest consistent values. */
  function SelectVariable(p: Problem, t: Tables, u: seq<nat>): (r: nat)
    requires WellFormed(p) && u != []
    requires forall k :: 0 <= k < |u| ==> u[k] in p.domains
    ensures r in u
  {
    var f := Freedoms(p, t, u);
    var i := FirstMin(f, 0, 1);
    u[i]
  }

  /** The chosen variable has the fewest consistent values, and no earlier
      variable has as few. Kept apart from `SelectVariable` so that the
      search's proofs do not carry these quantifiers. */
  lemma SelectVariableFacts(p: Problem, t: Tables, u: seq<nat>)
    requires WellFormed(p) && u != []
    requires forall k :: 0 <= k < |u| ==> u[k] in p.domains
    ensures forall k :: 0 <= k < |u| ==> Freedom(p, t, SelectVariable(p, t, u)) <= Freedom(p, t, u[k])
    ensures exists i :: 0 <= i < |u| && u[i] == SelectVariable(p, t, u) &&
              forall j :: 0 <= j < i ==> Freedom(p, t, SelectVariable(p, t, u)) < Freedom(p, t, u[j])
  {
    var f := Freedoms(p, t, u);
    var i := FirstMin(f, 0, 1);
    assert SelectVariable(p, t, u) == u[i];
  }

  /** `remainingUnassigned.filter(otherId => domains[otherId].includes(g)).length`. */
  function Impact(domains: map<nat, seq<nat>>, remaining: seq<nat>, g: nat): nat
    decreases |remaining|
  {
    if remaining == [] then 0
    else
      var last := remaining[|remaining| - 1];
      Impact(domains, remaining[..|remaining| - 1], g) + (if last in domains && g in domains[last] then 1 else 0)
  }

  /** The comparator `impactB - impactA`: larger impact first. */
  function LargestImpactFirst(domains: map<nat, seq<nat>>, remaining: seq<nat>): nat -> real {
    (g: nat) => -(Impact(domains, remaining, g) as real)
  }

  /** `sortedDrones`: the consistent values, the one appearing in most other
      domains first (equal impacts keep the domain's order). */
  function ValueOrder(p: Problem, t: Tables, id: nat, remaining: seq<nat>): seq<nat>
    requires WellFormed(p) && id in p.domains
  {
    SortBy(Options(p, t, id), LargestImpactFirst(p.domains, remaining))
  }

  /** The values tried are exactly the consistent domain values, by non-increasing impact. */
  lemma ValueOrderFacts(p: Problem, t: Tables, id: nat, remaining: seq<nat>)
    requires WellFormed(p) && id in p.domains
    ensures forall g :: g in ValueOrder(p, t, id, remaining) <==>
              g in p.domains[id] && Consistent(p, t, DeliveryById(p.deliveries, id), g)
    ensures forall i, j :: 0 <= i < j < |ValueOrder(p, t, id, remaining)| ==>
              Impact(p.domains, remaining, ValueOrder(p, t, id, remaining)[i]) >=
              Impact(p.domains, remaining, ValueOrder(p, t, id, remaining)[j])
  {
    var opts := Options(p, t, id);
    OptionsFacts(p, t, id);
    var key := LargestImpactFirst(p.domains, remaining);
    var s := ValueOrder(p, t, id, remaining);
    SortByFacts(opts, key);
    forall g ensures g in s <==> g in opts {
      assert g in s <==> g in multiset(s);
      assert g in opts <==> g in multiset(opts);
    }
    forall i, j | 0 <= i < j < |s| ensures Impact(p.domains, remaining, s[i]) >= Impact(p.domains, remaining, s[j]) {
      assert key(s[i]) <= key(s[j]);
    }
  }

  /** Every value tried is a domain value consistent with the tables. */
  lemma ValueOrderConsistent(p: Problem, t: Tables, id: nat, remaining: seq<nat>)
    requires WellFormed(p) && id in p.domains
    ensures forall g :: g in ValueOrder(p, t, id, remaining) ==>
              g in p.domains[id] && Has(t, g) && Consistent(p, t, DeliveryById(p.deliveries, id), g)
  {
    ValueOrderFacts(p, t, id, remaining);
  }

  /** Every value tried is a domain value the drone tables know. */
  lemma ValueOrderHas(p: Problem, t: Tables, id: nat, remaining: seq<nat>)
    requires WellFormed(p) && id in p.domains
    ensures forall g :: g in ValueOrder(p, t, id, remaining) ==> g in p.domains[id] && Has(t, g)
  {
    ValueOrderFacts(p, t, id, remaining);
  }

  /** Removing a value keeps a list free of duplicates. */
  lemma {:induction false} RemoveDistinct(u: seq<nat>, x: nat)
    requires NoDuplicates(u)
    ensures NoDuplicates(Remove(u, x))
    decreases |u|
  {
    if u != [] {
      var prev := u[..|u| - 1];
      var last := u[|u| - 1];
      assert u == prev + [last];
      assert NoDuplicates(prev) && last !in prev;
      RemoveDistinct(prev, x);
    }
  }

  /** The tables every run starts from: no assignment, every drone empty at
      its start at time 0. */
  ghost predicate AtStart(p: Problem, t: Tables) {
    && t.assignment == map[]
    && forall g :: g in DroneIds(p.drones) ==>
         && g in t.loads && t.loads[g] == 0.0
         && g in t.times && t.times[g] == 0.0
         && g in t.positions && t.positions[g] == DroneById(p.drones, g).startPos
  }

  /** What a call of `backtrack` comes to: whether it succeeded, the
      choices it made (delivery id, drone id), the budget left after it, and
      the four tables it leaves. */
  datatype Outcome = Outcome(found: bool, trace: seq<Pair>, left: nat, tables: Tables)

  /** The budget left once a call of `backtrack` has used its unit. */
  function Spend(b: nat): nat
    requires b > 0
  {
    b - 1
  }

  /** The search `backtrack(u)` performs from tables `t` with `b` calls of
      budget left: no budget fails at once; otherwise one unit is used, an
      empty `u` succeeds, and otherwise the most constrained variable is
      given the first of its ordered values whose search succeeds. A failure
      leaves the tables as they were. */
  ghost function Search(p: Problem, t: Tables, u: seq<nat>, b: nat): Outcome
    requires WellFormed(p) && forall id :: id in u ==> id in p.domains
    decreases |u|, 1
  {
    if b == 0 then Outcome(false, [], 0, t)
    else if u == [] then Outcome(true, [], Spend(b), t)
    else
      var id := SelectVariable(p, t, u);
      var rest := Remove(u, id);
      ValueOrderHas(p, t, id, rest);
      Values(p, t, u, id, rest, ValueOrder(p, t, id, rest), 0, Spend(b))
  }

  /** The value loop of `backtrack(u)` for variable `id`, from the `i`-th
      of its ordered values on: each is applied and the other variables
      searched; the first success is kept, and a failure passes on only what
      is left of the budget. */
  ghost function Values(p: Problem, t: Tables, u: seq<nat>, id: nat, rest: seq<nat>, order: seq<nat>, i: nat, b: nat): Outcome
    requires WellFormed(p) && forall x :: x in u ==> x in p.domains
    requires id in u && rest == Remove(u, id) && i <= |order|
    requires forall g :: g in order ==> g in p.domains[id] && Has(t, g)
    decreases |u|, 0, |order| - i
  {
    if i == |order| then Outcome(false, [], b, t)
    else
      var g := order[i];
      assert g in order;
      var o := Search(p, Apply(p, t, DeliveryById(p.deliveries, id), g), rest, b);
      if o.found then Outcome(true, [(id, g)] + o.trace, o.left, o.tables)
      else Values(p, t, u, id, rest, order, i + 1, o.left)
  }

  /** One step of `Search` with budget left and variables to assign, as a
      lemma so that callers need not unfold `Search` among their own facts. */
  lemma SearchUnfolds(p: Problem, t: Tables, u: seq<nat>, b: nat, id: nat, rest: seq<nat>, order: seq<nat>)
    requires WellFormed(p) && (forall x :: x in u ==> x in p.domains) && b > 0 && u != []
    requires id == SelectVariable(p, t, u) && rest == Remove(u, id) && order == ValueOrder(p, t, id, rest)
    requires forall g :: g in order ==> g in p.domains[id] && Has(t, g)
    ensures Search(p, t, u, b) == Values(p, t, u, id, rest, order, 0, Spend(b))
  {
  }

  /** What a search reports is true of it: a success is a replay of legal
      choices from `t` to the tables it leaves, choosing every variable of
      `u` once; a failure leaves `t` as it was. */
  ghost predicate Honest(p: Problem, t: Tables, u: seq<nat>, o: Outcome)
    requires WellFormed(p)
  {
    && (!o.found ==> o.tables == t)
    && (o.found ==> Run(p, t, o.trace) == Some(o.tables) && multiset(Chosen(o.trace)) == multiset(u))
  }

  /** Every outcome of the search is honest. */
  lemma {:induction false} SearchSound(p: Problem, t: Tables, u: seq<nat>, b: nat)
    requires WellFormed(p) && (forall id :: id in u ==> id in p.domains) && NoDuplicates(u)
    ensures Honest(p, t, u, Search(p, t, u, b))
    decreases |u|, 1
  {
    if b > 0 && u == [] {
      assert Run(p, t, []) == Some(t);
      assert Chosen([]) == [];
    } else if b > 0 {
      var id := SelectVariable(p, t, u);
      var rest := Remove(u, id);
      var order := ValueOrder(p, t, id, rest);
      ValueOrderConsistent(p, t, id, rest);
      SearchUnfolds(p, t, u, b, id, rest, order);
      ValuesSound(p, t, u, id, rest, order, 0, Spend(b));
    }
  }

  /** `SearchSound` for the value loop, from the `i`-th value on. */
  lemma {:induction false} ValuesSound(p: Problem, t: Tables, u: seq<nat>, id: nat, rest: seq<nat>, order: seq<nat>, i: nat, b: nat)
    requires WellFormed(p) && (forall x :: x in u ==> x in p.domains) && NoDuplicates(u)
    requires id in u && rest == Remove(u, id) && i <= |order|
    requires forall g :: g in order ==> g in p.domains[id] && Has(t, g)
    requires forall g :: g in order ==> Consistent(p, t, DeliveryById(p.deliveries, id), g)
    ensures Honest(p, t, u, Values(p, t, u, id, rest, order, i, b))
    decreases |u|, 0, |order| - i
  {
    if i < |order| {
      var g := order[i];
      assert g in order;
      var t' := Apply(p, t, DeliveryById(p.deliveries, id), g);
      RemoveDistinct(u, id);
      SearchSound(p, t', rest, b);
      var o := Search(p, t', rest, b);
      if o.found {
        Extend(p, t, u, id, g, o.trace, o.tables);
      } else {
        ValuesSound(p, t, u, id, rest, order, i + 1, o.left);
      }
    }
  }

  /** Every search uses up budget: a call with budget `b` leaves at most `b`,
      and less when it had any, so the time limit bounds the whole search. */
  lemma {:induction false} SearchSpends(p: Problem, t: Tables, u: seq<nat>, b: nat)
    requires WellFormed(p) && forall id :: id in u ==> id in p.domains
    ensures Search(p, t, u, b).left <= b && (b > 0 ==> Search(p, t, u, b).left < b)
    decreases |u|, 1
  {
    if b > 0 && u != [] {
      var id := SelectVariable(p, t, u);
      var rest := Remove(u, id);
      var order := ValueOrder(p, t, id, rest);
      ValueOrderHas(p, t, id, rest);
      SearchUnfolds(p, t, u, b, id, rest, order);
      ValuesSpends(p, t, u, id, rest, order, 0, Spend(b));
    }
  }

  /** `SearchSpends` for the value loop: it never gives budget back. */
  lemma {:induction false} ValuesSpends(p: Problem, t: Tables, u: seq<nat>, id: nat, rest: seq<nat>, order: seq<nat>, i: nat, b: nat)
    requires WellFormed(p) && forall x :: x in u ==> x in p.domains
    requires id in u && rest == Remove(u, id) && i <= |order|
    requires forall g :: g in order ==> g in p.domains[id] && Has(t, g)
    ensures Values(p, t, u, id, rest, order, i, b).left <= b
    decreases |u|, 0, |order| - i
  {
    if i < |order| {
      var g := order[i];
      assert g in order;
      var t' := Apply(p, t, DeliveryById(p.deliveries, id), g);
      SearchSpends(p, t', rest, b);
      var o := Search(p, t', rest, b);
      if !o.found {
        ValuesSpends(p, t, u, id, rest, order, i + 1, o.left);
      }
    }
  }

  /** The closure state of one `cspAlgorithm` run: the problem it captured,
      its four dictionaries and what is left of its time budget. */
  class CspSearch {
    const p: Problem
    var assignment: map<nat, nat>
    var loads: map<nat, real>
    var times: map<nat, real>
    var positions: map<nat, Point>
    /** Stands for the 10-second wall-clock limit: every call of `Backtrack`
        uses one unit, and a call that finds none left fails at once. */
    var budget: nat

    function State(): Tables
      reads this
    {
      Tables(assignment, loads, times, positions)
    }

    ghost predicate Valid()
      reads this
    {
      WellFormed(p)
    }

    /** The `drones.forEach` that puts every drone at its start, empty, at time 0. */
    constructor (p: Problem, budget: nat)
      requires WellFormed(p)
      ensures Valid() && this.p == p && this.budget == budget
      ensures AtStart(p, State())
    {
      var ls: map<nat, real>, ts: map<nat, real>, ps: map<nat, Point> := map[], map[], map[];
      for i := 0 to |p.drones|
        invariant forall g :: g in ls ==> ls[g] == 0.0
        invariant forall g :: g in ts ==> ts[g] == 0.0
        invariant forall j :: 0 <= j < i ==> p.drones[j].id in ls && p.drones[j].id in ts && p.drones[j].id in ps
        invariant forall j :: 0 <= j < i ==> ps[p.drones[j].id] == p.drones[j].startPos
      {
        var drone := p.drones[i];
        ps := ps[drone.id := drone.startPos];
        ts := ts[drone.id := 0.0];
        ls := ls[drone.id := 0.0];
      }
      forall g | g in DroneIds(p.drones) ensures g in ls && g in ts && g in ps && ps[g] == DroneById(p.drones, g).startPos {
        var k := DroneIndex(p.drones, g);
        assert ps[p.drones[k].id] == p.drones[k].startPos;
      }
      this.p := p;
      this.budget := budget;
      assignment := map[];
      loads, times, positions := ls, ts, ps;
    }

    /** `backtrack`, entered with tables `t` and budget `b`: the call is
        the reference search from `t` with budget `b`, down to the choices
        it makes, the budget it leaves and the tables it leaves; on failure
        those are `t` again. */
    method Backtrack(unassigned: seq<nat>, ghost t: Tables, ghost b: nat) returns (ok: bool, ghost trace: seq<Pair>)
      requires Valid() && State() == t && budget == b
      requires forall id :: id in unassigned ==> id in p.domains && id !in assignment
      modifies this
      decreases |unassigned|, 3
      ensures Valid() && (!ok ==> State() == t)
      ensures Search(p, t, unassigned, b) == Outcome(ok, trace, budget, State())
    {
      if budget == 0 {
        return false, [];  // the time limit is exceeded
      }
      budget := budget - 1;
      if unassigned == [] {
        return true, [];
      }
      ok, trace := Branch(unassigned, t, b);
    }

    /** The rest of `backtrack` once a unit of budget is spent and variables
        remain: pick the variable, order its values and try them. */
    method Branch(unassigned: seq<nat>, ghost t: Tables, ghost b: nat) returns (ok: bool, ghost trace: seq<Pair>)
      requires Valid() && State() == t && b > 0 && budget == Spend(b) && unassigned != []
      requires forall id :: id in unassigned ==> id in p.domains && id !in assignment
      modifies this
      decreases |unassigned|, 2
      ensures Valid() && (!ok ==> State() == t)
      ensures Search(p, t, unassigned, b) == Outcome(ok, trace, budget, State())
    {
      var deliveryId := SelectVariable(p, State(), unassigned);
      var remaining := Remove(unassigned, deliveryId);
      var sortedDrones := ValueOrder(p, State(), deliveryId, remaining);
      ValueOrderHas(p, t, deliveryId, remaining);
      SearchUnfolds(p, t, unassigned, b, deliveryId, remaining, sortedDrones);
      ok, trace := TryDrones(unassigned, deliveryId, remaining, sortedDrones, t, Spend(b));
    }

    /** The value loop of `backtrack`: the ordered drones in turn, until the
        search under one of them succeeds. */
    method TryDrones(ghost unassigned: seq<nat>, deliveryId: nat, remaining: seq<nat>, sortedDrones: seq<nat>,
                     ghost t: Tables, ghost b: nat)
      returns (ok: bool, ghost trace: seq<Pair>)
      requires Valid() && State() == t && budget == b
      requires deliveryId in unassigned && remaining == Remove(unassigned, deliveryId)
      requires forall id :: id in unassigned ==> id in p.domains && id !in assignment
      requires forall g :: g in sortedDrones ==> g in p.domains[deliveryId] && Has(t, g)
      modifies this
      decreases |unassigned|, 1
      ensures Valid() && (!ok ==> State() == t)
      ensures Values(p, t, unassigned, deliveryId, remaining, sortedDrones, 0, b) == Outcome(ok, trace, budget, State())
    {
      for i := 0 to |sortedDrones|
        invariant Valid() && State() == t
        invariant Values(p, t, unassigned, deliveryId, remaining, sortedDrones, 0, b) ==
                  Values(p, t, unassigned, deliveryId, remaining, sortedDrones, i, budget)
      {
        var found, rest := Attempt(unassigned, deliveryId, remaining, sortedDrones, i, t, budget);
        if found {
          return true, rest;
        }
      }
      return false, [];
    }

    /** One pass of the value loop of `backtrack`: try the `i`-th ordered
        drone, recurse on the other variables, and undo the try when that
        fails. A success is the value loop's outcome from `i` on; a failure
        leaves the tables as they were and the loop to go on from `i + 1`
        with the budget that is left. */
    method Attempt(ghost unassigned: seq<nat>, deliveryId: nat, remaining: seq<nat>, sortedDrones: seq<nat>, i: nat,
                   ghost t: Tables, ghost b: nat)
      returns (found: bool, ghost trace: seq<Pair>)
      requires Valid() && State() == t && budget == b
      requires deliveryId in unassigned && remaining == Remove(unassigned, deliveryId)
      requires forall id :: id in unassigned ==> id in p.domains && id !in assignment
      requires forall g :: g in sortedDrones ==> g in p.domains[deliveryId] && Has(t, g)
      requires i < |sortedDrones|
      modifies this
      decreases |unassigned|, 0
      ensures Valid() && (!found ==> State() == t)
      ensures found ==> Values(p, t, unassigned, deliveryId, remaining, sortedDrones, i, b) == Outcome(true, trace, budget, State())
      ensures !found ==> Values(p, t, unassigned, deliveryId, remaining, sortedDrones, i, b) ==
                         Values(p, t, unassigned, deliveryId, remaining, sortedDrones, i + 1, budget)
    {
      var droneId := sortedDrones[i];
      assert droneId in sortedDrones;
      var delivery := DeliveryById(p.deliveries, deliveryId);
      var oldLoad, oldTime, oldPos := loads[droneId], times[droneId], positions[droneId];
      Try(delivery, droneId);
      ghost var rest;
      found, rest := Backtrack(remaining, Apply(p, t, delivery, droneId), b);
      if found {
        trace := [(deliveryId, droneId)] + rest;
        return;
      }
      Undo(t, delivery, droneId, oldLoad, oldTime, oldPos);
      trace := [];
    }

    /** The restore after a failed recursive call: drop the assignment and put
        back the drone's saved load, time and position, which gives back the
        tables exactly as they were before the try. */
    method Undo(ghost before: Tables, delivery: Delivery, droneId: nat, oldLoad: real, oldTime: real, oldPos: Point)
      requires Valid() && droneId in DroneIds(p.drones) && Has(before, droneId)
      requires delivery.id !in before.assignment
      requires State() == Apply(p, before, delivery, droneId)
      requires oldLoad == before.loads[droneId] && oldTime == before.times[droneId] && oldPos == before.positions[droneId]
      modifies this
      ensures Valid() && State() == before && budget == old(budget)
    {
      UndoApply(p, before, delivery, droneId);
      assignment := assignment - {delivery.id};
      loads := loads[droneId := oldLoad];
      times := times[droneId := oldTime];
      positions := positions[droneId := oldPos];
    }

    /** The try block: assign, then move the drone's load, clock and position on. */
    method Try(delivery: Delivery, droneId: nat)
      requires Valid() && droneId in DroneIds(p.drones) && Has(State(), droneId)
      modifies this
      ensures Valid() && State() == Apply(p, old(State()), delivery, droneId) && budget == old(budget)
    {
      SpeedOf(p.drones, droneId);
      var oldLoad, oldTime, oldPos := loads[droneId], times[droneId], positions[droneId];
      assignment := assignment[delivery.id := droneId];
      loads := loads[droneId := oldLoad + delivery.weight];
      var travelTime := Distance(p.m, oldPos, delivery.pos) / DroneById(p.drones, droneId).speed;
      times := times[droneId := oldTime + travelTime];
      positions := positions[droneId := delivery.pos];
    }
  }

  /** Undoing a choice: removing the assignment entry and putting back the
      drone's three saved values gives back the tables before the choice. */
  lemma UndoApply(p: Problem, t: Tables, d: Delivery, g: nat)
    requires WellFormed(p) && g in DroneIds(p.drones) && Has(t, g) && d.id !in t.assignment
    ensures var a := Apply(p, t, d, g);
      Tables(a.assignment - {d.id}, a.loads[g := t.loads[g]], a.times[g := t.times[g]], a.positions[g := t.positions[g]]) == t
  {
    var a := Apply(p, t, d, g);
    assert a.assignment - {d.id} == t.assignment;
    assert a.loads[g := t.loads[g]] == t.loads;
    assert a.times[g := t.times[g]] == t.times;
    assert a.positions[g := t.positions[g]] == t.positions;
  }

  /** A successful choice followed by a successful rest is a successful run
      of the whole, and it covers `unassigned`. */
  lemma Extend(p: Problem, t: Tables, unassigned: seq<nat>, id: nat, g: nat, rest: seq<Pair>, t': Tables)
    requires WellFormed(p) && id in p.domains && g in p.domains[id]
    requires Consistent(p, t, DeliveryById(p.deliveries, id), g)
    requires Run(p, Apply(p, t, DeliveryById(p.deliveries, id), g), rest) == Some(t')
    requires NoDuplicates(unassigned) && id in unassigned
    requires multiset(Chosen(rest)) == multiset(Remove(unassigned, id))
    ensures Run(p, t, [(id, g)] + rest) == Some(t')
    ensures multiset(Chosen([(id, g)] + rest)) == multiset(unassigned)
  {
    var trace := [(id, g)] + rest;
    assert trace[0] == (id, g) && trace[1..] == rest;
    assert Chosen(trace) == [id] + Chosen(rest);
    RemoveCount(unassigned, id);
    CountOfDistinct(unassigned, id);
    assert multiset(unassigned) == multiset(unassigned)[id := 0] + multiset{id};
  }

  /** What the search keeps true of its tables: every assigned delivery is
      a variable whose drone is drawn from its domain, and that drone's load
      is within its capacity. */
  ghost predicate Sound(p: Problem, t: Tables)
    requires WellFormed(p)
  {
    forall id :: id in t.assignment ==>
      && id in p.domains && t.assignment[id] in p.domains[id]
      && t.assignment[id] in t.loads
      && t.loads[t.assignment[id]] <= DroneById(p.drones, t.assignment[id]).maxWeight
  }

  /** One consistent choice keeps the tables sound. */
  lemma ApplySound(p: Problem, t: Tables, id: nat, g: nat)
    requires WellFormed(p) && Sound(p, t) && id in p.domains && g in p.domains[id]
    requires Consistent(p, t, DeliveryById(p.deliveries, id), g)
    ensures Sound(p, Apply(p, t, DeliveryById(p.deliveries, id), g))
  {
    var d := DeliveryById(p.deliveries, id);
    var a := Apply(p, t, d, g);
    forall x | x in a.assignment
      ensures a.assignment[x] in a.loads && a.loads[a.assignment[x]] <= DroneById(p.drones, a.assignment[x]).maxWeight
    {
      if x != id && a.assignment[x] != g {
        assert a.assignment[x] == t.assignment[x];
      }
    }
  }

  /** A legal run keeps the tables sound, whatever its length. */
  lemma {:induction false} RunSound(p: Problem, t: Tables, trace: seq<Pair>, t': Tables)
    requires WellFormed(p) && Sound(p, t) && Run(p, t, trace) == Some(t')
    ensures Sound(p, t')
    decreases |trace|
  {
    if trace != [] {
      var (id, g) := trace[0];
      ApplySound(p, t, id, g);
      RunSound(p, Apply(p, t, DeliveryById(p.deliveries, id), g), trace[1..], t');
    }
  }

  /** A legal run assigns exactly the deliveries it chooses, on top of those
      assigned before. */
  lemma {:induction false} RunKeys(p: Problem, t: Tables, trace: seq<Pair>, t': Tables)
    requires WellFormed(p) && Run(p, t, trace) == Some(t')
    ensures forall id :: id in t'.assignment <==> id in t.assignment || id in Chosen(trace)
    decreases |trace|
  {
    if trace != [] {
      var (id, g) := trace[0];
      RunKeys(p, Apply(p, t, DeliveryById(p.deliveries, id), g), trace[1..], t');
      assert Chosen(trace) == [id] + Chosen(trace[1..]);
    }
  }

  /** The least element of a non-empty set of naturals. */
  ghost function Least(s: set<nat>): (k: nat)
    requires s != {}
    ensures k in s && forall x :: x in s ==> k <= x
    decreases |s|
  {
    var y :| y in s;
    assert forall x :: x in s ==> x == y || x in s - {y};
    if s == {y} then y
    else
      var k := Least(s - {y});
      if y < k then y else k
  }

  /** `Object.entries(assignment)`: the entries in ascending order of their
      integer keys, as JavaScript enumerates them. */
  method Entries(assignment: map<nat, nat>) returns (pairs: seq<Pair>)
    ensures forall i, j :: 0 <= i < j < |pairs| ==> pairs[i].0 < pairs[j].0
    ensures forall id, g :: (id, g) in pairs <==> id in assignment && assignment[id] == g
    ensures |pairs| == |assignment.Keys|
  {
    pairs := [];
    var left := assignment.Keys;
    while left != {}
      invariant left <= assignment.Keys
      invariant |pairs| + |left| == |assignment.Keys|
      invariant forall i, j :: 0 <= i < j < |pairs| ==> pairs[i].0 < pairs[j].0
      invariant forall i :: 0 <= i < |pairs| ==>
                  pairs[i].0 in assignment && assignment[pairs[i].0] == pairs[i].1 && pairs[i].0 !in left
      invariant forall i, x :: 0 <= i < |pairs| && x in left ==> pairs[i].0 < x
      invariant forall id :: id in assignment && id !in left ==> (id, assignment[id]) in pairs
      decreases |left|
    {
      ghost var least := Least(left);
      var k :| k in left && forall x :: x in left ==> k <= x;
      pairs := pairs + [(k, assignment[k])];
      left := left - {k};
    }
  }

  /** A drone's route lists its deliveries in ascending id order when the
      entries come in ascending key order. */
  lemma {:induction false} BucketIncreasing(pairs: seq<Pair>, g: nat)
    requires forall i, j :: 0 <= i < j < |pairs| ==> pairs[i].0 < pairs[j].0
    ensures forall i, j :: 0 <= i < j < |Bucket(pairs, g)| ==> Bucket(pairs, g)[i] < Bucket(pairs, g)[j]
    decreases |pairs|
  {
    if pairs != [] {
      var prev := pairs[..|pairs| - 1];
      var last := pairs[|pairs| - 1];
      BucketIncreasing(prev, g);
      var b := Bucket(prev, g);
      forall i | 0 <= i < |b| ensures b[i] < last.0 {
        BucketMembership(prev, g, b[i]);
        assert b[i] in b;
        var k :| 0 <= k < |prev| && prev[k] == (b[i], g);
        assert pairs[k] == prev[k];
      }
    }
  }

  /** A value occurring at two positions is counted at least twice. */
  lemma CountedTwice<T>(s: seq<T>, i: nat, j: nat)
    requires i < j < |s| && s[i] == s[j]
    ensures multiset(s)[s[i]] >= 2
  {
    assert s == s[..i] + [s[i]] + s[i + 1..j] + [s[j]] + s[j + 1..];
  }

  /** Taking some of the deliveries of a list with unique ids (a filter, a
      permutation, a prefix) keeps the ids unique. */
  lemma UniqueSub(s: seq<Delivery>, t: seq<Delivery>)
    requires multiset(s) <= multiset(t) && UniqueDeliveryIds(t)
    ensures UniqueDeliveryIds(s)
  {
    forall i, j | 0 <= i < j < |s| ensures s[i].id != s[j].id {
      assert s[i] in multiset(t) && s[j] in multiset(t);
      var a :| 0 <= a < |t| && t[a] == s[i];
      var b :| 0 <= b < |t| && t[b] == s[j];
      if s[i] == s[j] {
        CountedTwice(s, i, j);
        assert NoDuplicates(t) by {
          forall x, y | 0 <= x < y < |t| ensures t[x] != t[y] {
            assert t[x].id != t[y].id;
          }
        }
        CountOfDistinct(t, t[a]);
      } else {
        assert a != b;
        assert t[a].id != t[b].id by {
          if a < b { } else { }
        }
      }
    }
  }

  /** The deliveries the solver works on keep the input's unique ids. */
  lemma LimitedUnique(m: MathLib, zones: seq<Zone>, deliveries: seq<Delivery>, scenario2: bool)
    requires UniqueDeliveryIds(deliveries)
    ensures UniqueDeliveryIds(Limited(Greedy.ByPriority(Unblocked(m, zones, deliveries)), scenario2))
  {
    var valid := Greedy.ByPriority(Unblocked(m, zones, deliveries));
    var limited := Limited(valid, scenario2);
    Greedy.ByPriorityFacts(Unblocked(m, zones, deliveries));
    assert valid == limited + valid[|limited|..];
    UniqueSub(limited, deliveries);
  }

  /** The distinct values of a list. */
  function Elements(s: seq<nat>): set<nat> {
    set x | x in s
  }

  /** A list without repeats has as many distinct values as entries. */
  lemma {:induction false} DistinctCard(s: seq<nat>)
    requires NoDuplicates(s)
    ensures |Elements(s)| == |s|
    decreases |s|
  {
    if s != [] {
      var prev := s[..|s| - 1];
      var last := s[|s| - 1];
      assert s == prev + [last];
      assert NoDuplicates(prev) && last !in prev;
      DistinctCard(prev);
      assert Elements(s) == Elements(prev) + {last};
    } else {
      assert Elements(s) == {};
    }
  }

  /** The problem the solver builds satisfies what the search relies on. */
  lemma BuiltWellFormed(m: MathLib, zones: seq<Zone>, drones: seq<Drone>, limited: seq<Delivery>)
    requires PositiveSpeeds(drones) && UniqueDroneIds(drones)
    ensures forall k :: 0 <= k < |IdsOf(limited)| ==> IdsOf(limited)[k] in DeliveryIds(limited)
    ensures WellFormed(Problem(m, zones, drones, limited, DomainsOf(m, zones, drones, limited, IdsOf(limited))))
  {
    var variables := IdsOf(limited);
    assert forall k :: 0 <= k < |variables| ==> variables[k] == limited[k].id;
    var domains := DomainsOf(m, zones, drones, limited, variables);
    forall id | id in domains ensures id in DeliveryIds(limited) {
      var k :| 0 <= k < |variables| && variables[k] == id;
    }
    forall id, g | id in domains && g in domains[id] ensures g in DroneIds(drones) {
      DomainFacts(m, zones, drones, DeliveryById(limited, id));
    }
  }

  /** A successful search from empty tables assigns exactly the solvable
      variables, each once. */
  lemma ChosenKeys(p: Problem, start: Tables, trace: seq<Pair>, final: Tables, solvable: seq<nat>)
    requires WellFormed(p) && start.assignment == map[] && Run(p, start, trace) == Some(final)
    requires multiset(Chosen(trace)) == multiset(solvable) && NoDuplicates(solvable)
    ensures final.assignment.Keys == Elements(solvable) && |final.assignment.Keys| == |solvable|
  {
    RunKeys(p, start, trace, final);
    forall id ensures id in final.assignment <==> id in solvable {
      assert id in Chosen(trace) <==> id in multiset(Chosen(trace));
      assert id in solvable <==> id in multiset(solvable);
    }
    DistinctCard(solvable);
  }

  /** Drone `g`'s route holds exactly the deliveries assigned to `g`. */
  ghost predicate Grouped(routes: map<nat, seq<nat>>, assignment: map<nat, nat>) {
    forall g, id :: g in routes && id in routes[g] <==> id in assignment && assignment[id] == g
  }

  /** Every route lists its delivery ids in ascending order. */
  ghost predicate Ascending(routes: map<nat, seq<nat>>) {
    forall g :: g in routes ==> forall i, j :: 0 <= i < j < |routes[g]| ==> routes[g][i] < routes[g][j]
  }

  /** Drone `g`'s route, grouped from the entries of an assignment, holds
      exactly the deliveries assigned to `g`. */
  lemma RoutesMatch(assignment: map<nat, nat>, pairs: seq<Pair>, routes: map<nat, seq<nat>>)
    requires forall id, g :: (id, g) in pairs <==> id in assignment && assignment[id] == g
    requires routes.Keys == Carriers(pairs) && forall g :: g in routes ==> routes[g] == Bucket(pairs, g)
    ensures Grouped(routes, assignment)
  {
    forall g, id ensures g in routes && id in routes[g] <==> id in assignment && assignment[id] == g {
      BucketMembership(pairs, g, id);
      if id in assignment && assignment[id] == g {
        var i :| 0 <= i < |pairs| && pairs[i] == (id, g);
        assert g in Carriers(pairs);
      }
    }
  }

  /** Routes whose entries belong to a sound assignment are known to the instance. */
  lemma RoutesOfSound(p: Problem, t: Tables, routes: map<nat, seq<nat>>)
    requires WellFormed(p) && Sound(p, t)
    requires Grouped(routes, t.assignment)
    requires forall g :: g in routes ==> routes[g] != []
    ensures RoutesKnown(p.drones, p.deliveries, routes)
  {
    forall g | g in routes ensures g in DroneIds(p.drones) {
      var id := routes[g][0];
      assert id in routes[g];
      assert id in p.domains && g in p.domains[id];
    }
    forall g, k | g in routes && 0 <= k < |routes[g]| ensures routes[g][k] in DeliveryIds(p.deliveries) {
      assert routes[g][k] in routes[g];
    }
  }

  /** The grouping and totalling after a search: `Object.entries(assignment)`
      grouped into routes, then the routes replayed in drone-id order. */
  method Report(p: Problem, assignment: map<nat, nat>, ghost t: Tables) returns (result: RouteResult)
    requires WellFormed(p) && Sound(p, t) && t.assignment == assignment
    ensures result.completed == |assignment.Keys|
    ensures Grouped(result.routes, assignment) && Ascending(result.routes)
    ensures RoutesKnown(p.drones, p.deliveries, result.routes)
    ensures result.totalDistance == RoutesDistance(p.m, p.drones, p.deliveries, result.routes, KeyOrder(p.drones, result.routes))
    ensures result.energy == RoutesEnergy(p.m, p.drones, p.deliveries, result.routes, KeyOrder(p.drones, result.routes))
  {
    var pairs := Entries(assignment);
    var routes, completed := GroupRoutes(pairs);
    RoutesMatch(assignment, pairs, routes);
    forall g | g in routes ensures routes[g] != [] && forall i, j :: 0 <= i < j < |routes[g]| ==> routes[g][i] < routes[g][j] {
      var i :| 0 <= i < |pairs| && pairs[i].1 == g;
      assert pairs[i] in pairs;
      BucketMembership(pairs, g, pairs[i].0);
      BucketIncreasing(pairs, g);
    }
    RoutesOfSound(p, t, routes);
    var totalDistance, energy := RouteTotals(p.m, p.drones, p.deliveries, routes);
    result := RouteResult(routes, totalDistance, completed, energy);
  }

  /** The set-up of `cspAlgorithm`: the deliveries outside every zone at
      the start of their window, highest priority first, cut to 30 in the
      second scenario, become the variables; their domains are built, and
      the variables with a non-empty domain are kept, in order. */
  method Prepare(m: MathLib, zones: seq<Zone>, drones: seq<Drone>, deliveries: seq<Delivery>, scenario2: bool)
    returns (problem: Problem, solvable: seq<nat>)
    requires PositiveSpeeds(drones) && UniqueDroneIds(drones) && UniqueDeliveryIds(deliveries)
    ensures problem.m == m && problem.zones == zones && problem.drones == drones
    ensures problem.deliveries == Limited(Greedy.ByPriority(Unblocked(m, zones, deliveries)), scenario2)
    ensures problem.domains == DomainsOf(m, zones, drones, problem.deliveries, IdsOf(problem.deliveries))
    ensures WellFormed(problem) && NoDuplicates(solvable)
    ensures forall id :: id in solvable <==> id in problem.domains && problem.domains[id] != []
    ensures forall k :: 0 <= k < |solvable| ==> solvable[k] in problem.domains
  {
    var valid := Greedy.ByPriority(Unblocked(m, zones, deliveries));
    var limited := Limited(valid, scenario2);
    var variables := IdsOf(limited);
    BuiltWellFormed(m, zones, drones, limited);
    var domains := BuildDomains(m, zones, drones, limited, variables);
    problem := Problem(m, zones, drones, limited, domains);
    LimitedUnique(m, zones, deliveries, scenario2);
    solvable := Solvable(variables, domains);
    forall k | 0 <= k < |solvable| ensures solvable[k] in domains {
      assert solvable[k] in solvable;
    }
  }

  /** No key of an empty map is enumerated. */
  lemma {:induction false} PresentNone(ids: seq<nat>)
    ensures Present<seq<nat>>(ids, map[]) == []
  {
    if ids != [] {
      PresentNone(ids[1..]);
    }
  }

  /** The empty result: no routes, so nothing to total. */
  lemma NoRoutes(m: MathLib, drones: seq<Drone>, deliveries: seq<Delivery>)
    ensures RoutesKnown(drones, deliveries, map[])
    ensures RoutesDistance(m, drones, deliveries, map[], KeyOrder<seq<nat>>(drones, map[])) == 0.0
    ensures RoutesEnergy(m, drones, deliveries, map[], KeyOrder<seq<nat>>(drones, map[])) == 0.0
  {
    PresentNone(SortBy(DroneIdsOf(drones), NatKey));
  }

  /** The search and the report of `cspAlgorithm`: the routes are reported
      when the search succeeds or leaves something assigned; a failed search
      restores every table, so it leaves nothing. */
  method Solve(problem: Problem, solvable: seq<nat>, budget: nat)
    returns (result: RouteResult, ghost start: Tables, ghost final: Tables, ghost trace: seq<Pair>)
    requires WellFormed(problem) && NoDuplicates(solvable) && solvable != []
    requires forall id :: id in solvable ==> id in problem.domains
    ensures AtStart(problem, start) && Sound(problem, final)
    ensures result.completed != 0 <==> Search(problem, start, solvable, budget).found
    ensures result.completed != 0 ==> trace == Search(problem, start, solvable, budget).trace &&
                                      final == Search(problem, start, solvable, budget).tables
    ensures result.completed == 0 ==> result == RouteResult(map[], 0.0, 0, 0.0)
    ensures result.completed != 0 ==>
              && Run(problem, start, trace) == Some(final)
              && multiset(Chosen(trace)) == multiset(solvable)
              && result.completed == |solvable|
    ensures result.completed != 0 ==> Grouped(result.routes, final.assignment)
    ensures Ascending(result.routes)
    ensures RoutesKnown(problem.drones, problem.deliveries, result.routes)
    ensures result.totalDistance ==
              RoutesDistance(problem.m, problem.drones, problem.deliveries, result.routes, KeyOrder(problem.drones, result.routes))
    ensures result.energy ==
              RoutesEnergy(problem.m, problem.drones, problem.deliveries, result.routes, KeyOrder(problem.drones, result.routes))
  {
    var search := new CspSearch(problem, budget);
    start := search.State();
    var ok;
    ok, trace := search.Backtrack(solvable, start, budget);
    final := search.State();
    SearchSound(problem, start, solvable, budget);
    if ok || |search.assignment| > 0 {
      assert ok;
      ChosenKeys(problem, start, trace, final, solvable);
      RunSound(problem, start, trace, final);
      result := Report(problem, search.assignment, final);
    } else {
      result := RouteResult(map[], 0.0, 0, 0.0);
      NoRoutes(problem.m, problem.drones, problem.deliveries);
    }
  }

  /** `cspAlgorithm`. The time limit is `budget` calls of `Backtrack`. The
      ghost outputs name what the result is made of: the problem handed to
      the search, its solvable variables, the tables the search starts from
      and ends with, and the legal choices leading from one to the other. */
  method CspAlgorithm(m: MathLib, zones: seq<Zone>, drones: seq<Drone>, deliveries: seq<Delivery>,
                      scenario2: bool, budget: nat)
    returns (result: RouteResult, problem: Problem, solvable: seq<nat>,
             ghost start: Tables, ghost final: Tables, ghost trace: seq<Pair>)
    requires PositiveSpeeds(drones) && UniqueDroneIds(drones) && UniqueDeliveryIds(deliveries)
    ensures problem.m == m && problem.zones == zones && problem.drones == drones
    ensures problem.deliveries == Limited(Greedy.ByPriority(Unblocked(m, zones, deliveries)), scenario2)
    ensures problem.domains == DomainsOf(m, zones, drones, problem.deliveries, IdsOf(problem.deliveries))
    ensures WellFormed(problem)
    ensures forall id :: id in solvable <==> id in problem.domains && problem.domains[id] != []
    ensures solvable == [] ==> result.completed == 0
    ensures solvable != [] ==> (result.completed != 0 <==> Search(problem, start, solvable, budget).found)
    ensures result.completed != 0 ==> trace == Search(problem, start, solvable, budget).trace &&
                                      final == Search(problem, start, solvable, budget).tables
    ensures result.completed == 0 ==> result == RouteResult(map[], 0.0, 0, 0.0)
    ensures result.completed != 0 ==>
              && AtStart(problem, start) && Sound(problem, final)
              && Run(problem, start, trace) == Some(final)
              && multiset(Chosen(trace)) == multiset(solvable)
              && result.completed == |solvable|
    ensures result.completed != 0 ==> Grouped(result.routes, final.assignment)
    ensures Ascending(result.routes)
    ensures RoutesKnown(drones, problem.deliveries, result.routes)
    ensures result.totalDistance == RoutesDistance(m, drones, problem.deliveries, result.routes, KeyOrder(drones, result.routes))
    ensures result.energy == RoutesEnergy(m, drones, problem.deliveries, result.routes, KeyOrder(drones, result.routes))
  {
    problem, solvable := Prepare(m, zones, drones, deliveries, scenario2);
    var empty := Tables(map[], map[], map[], map[]);
    start, final, trace := empty, empty, [];
    if solvable == [] {
      result := RouteResult(map[], 0.0, 0, 0.0);
      NoRoutes(m, drones, problem.deliveries);
      return;
    }
    result, start, final, trace := Solve(problem, solvable, budget);
  }
}
