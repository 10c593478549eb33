/** The standalone `GeneticAlgorithm` class: a chromosome gives every
    delivery, in input order, a drone id. Fitness rewards priorities and
    charges flown distance, energy and every broken capacity or time
    window; tournament selection, a crossover gated by a rate, per-gene
    mutation and a configurable share of elites make each generation, and
    the fittest chromosome of the last one is reported as routes. */
module LibGenetic {
  import opened Types
  import opened Schedule
  import opened Metrics
  import Genetic
  import LibCsp

  /** The options object of the constructor; an absent field is `None`. */
  datatype Options = Options(
    populationSize: Option<nat>,
    generations: Option<nat>,
    mutationRate: Option<real>,
    crossoverRate: Option<real>,
    elitismRate: Option<real>)

  /** `option || fallback` for a count: an absent or zero option gives the
      fallback, so a configured count is never zero when its default is not. */
  function CountOr(option: Option<nat>, fallback: nat): (v: nat)
    ensures option.Some? && option.value != 0 ==> v == option.value
    ensures option.None? || option.value == 0 ==> v == fallback
    ensures fallback != 0 ==> v != 0
  {
    if option.Some? && option.value != 0 then option.value else fallback
  }

  /** `option || fallback` for a rate. */
  function RateOr(option: Option<real>, fallback: real): (v: real)
    ensures option.Some? && option.value != 0.0 ==> v == option.value
    ensures option.None? || option.value == 0.0 ==> v == fallback
    ensures fallback != 0.0 ==> v != 0.0
  {
    if option.Some? && option.value != 0.0 then option.value else fallback
  }

  const TournamentSize: nat := 3

  // ------------------------------------------------------------ fitness

  /** The running state of the first pass of `calculateFitness`: the load
      per drone id, the fitness and the penalty points. */
  datatype Tally = Tally(loads: map<nat, real>, fitness: real, violations: nat)

  /** `droneLoads[droneId] || 0`. */
  function LoadIn(loads: map<nat, real>, g: nat): real {
    if g in loads then loads[g] else 0.0
  }

  /** One gene of the first pass: a delivery that would overload its drone
      costs 100 points; otherwise its weight joins the drone's load and its
      priority earns 10 points a level. */
  function Charge(t: Tally, drone: Drone, d: Delivery): Tally {
    var current := LoadIn(t.loads, drone.id);
    if current + d.weight > drone.maxWeight then Tally(t.loads, t.fitness, t.violations + 100)
    else Tally(t.loads[drone.id := current + d.weight], t.fitness + (d.priority as real) * 10.0, t.violations)
  }

  /** The second-pass deduction for a route: for every leg, half its length
      plus a hundredth of its length times the weight delivered. */
  function Deduction(m: MathLib, start: Point, ds: seq<Delivery>): real
    decreases |ds|
  {
    if ds == [] then 0.0
    else
      var prev := ds[..|ds| - 1];
      var leg := Distance(m, EndPos(start, prev), ds[|ds| - 1].pos);
      Deduction(m, start, prev) + leg * 0.5 + leg * ds[|ds| - 1].weight * 0.01
  }

  /** The deliveries of a route reached outside their window, flying from the
      drone's start at time 0. */
  function Misses(m: MathLib, drone: Drone, ds: seq<Delivery>): nat
    requires drone.speed != 0.0
    decreases |ds|
  {
    if ds == [] then 0
    else
      var d := ds[|ds| - 1];
      var arrival := EndTime(m, drone, ds);
      Misses(m, drone, ds[..|ds| - 1]) + (if arrival < d.earliest || arrival > d.latest then 1 else 0)
  }

  /** A route's deduction is half its length plus a tenth of the energy the
      result reports for it. */
  lemma {:induction false} DeductionIsPathCost(m: MathLib, start: Point, ds: seq<Delivery>)
    ensures Deduction(m, start, ds) == PathLength(m, start, ds) * 0.5 + PathEnergy(m, start, ds) / 10.0
    decreases |ds|
  {
    if ds != [] {
      var prev := ds[..|ds| - 1];
      DeductionIsPathCost(m, start, prev);
      var leg := Distance(m, EndPos(start, prev), ds[|ds| - 1].pos);
      assert leg * ds[|ds| - 1].weight * 0.01 == LegEnergy(leg, ds[|ds| - 1].weight) / 10.0;
    }
  }

  /** A route misses no window exactly when it meets them all. */
  lemma {:induction false} NoMissesMeetsWindows(m: MathLib, drone: Drone, ds: seq<Delivery>)
    requires drone.speed != 0.0
    ensures Misses(m, drone, ds) == 0 <==> MeetsWindows(m, drone, ds)
    decreases |ds|
  {
    if ds != [] {
      var prev := ds[..|ds| - 1];
      var d := ds[|ds| - 1];
      NoMissesMeetsWindows(m, drone, prev);
      assert ds == prev + [d];
      WindowsExtend(m, drone, prev, d);
    }
  }

  /** The second pass over one route, as `calculateFitness` flies it:
      position and clock advance leg by leg from the start at time 0; each
      leg deducts its distance and energy terms, and each arrival outside
      its window adds 50 points. */
  method FlyRoute(m: MathLib, drone: Drone, ds: seq<Delivery>, fitness: real, violations: nat)
    returns (fitness': real, violations': nat)
    requires drone.speed > 0.0
    ensures fitness' == fitness - Deduction(m, drone.startPos, ds)
    ensures violations' == violations + 50 * Misses(m, drone, ds)
  {
    var currentPos := drone.startPos;
    var currentTime := 0.0;
    fitness', violations' := fitness, violations;
    for j := 0 to |ds|
      invariant currentPos == EndPos(drone.startPos, ds[..j])
      invariant currentTime == EndTime(m, drone, ds[..j])
      invariant fitness' == fitness - Deduction(m, drone.startPos, ds[..j])
      invariant violations' == violations + 50 * Misses(m, drone, ds[..j])
    {
      var delivery := ds[j];
      var distance := Distance(m, currentPos, delivery.pos);
      var travelTime := distance / drone.speed;
      currentTime := currentTime + travelTime;
      currentPos := delivery.pos;
      fitness' := fitness' - distance * 0.5;
      if currentTime < delivery.earliest || currentTime > delivery.latest {
        violations' := violations' + 50;
      }
      fitness' := fitness' - distance * delivery.weight * 0.01;
      assert ds[..j + 1][..j] == ds[..j];
    }
    assert ds[..|ds|] == ds;
  }

  // ---------------------------------------------------------- selection

  /** The contestant of round `j` of a tournament whose draws start at `c`:
      `Math.floor(Math.random() * population.length)`. */
  function Contestant(n: nat, rand: Genetic.Draws, c: nat, j: nat): (k: nat)
    requires Genetic.ValidDraws(rand) && n > 0
    ensures k < n
  {
    Pick(rand(c + j), n)
  }

  /** The winner after `rounds` rounds: the first contestant, replaced by
      each later one that scores strictly higher. */
  function Winner(scores: seq<real>, rand: Genetic.Draws, c: nat, rounds: nat): (w: nat)
    requires Genetic.ValidDraws(rand) && scores != [] && rounds > 0
    ensures w < |scores|
    decreases rounds
  {
    if rounds == 1 then Contestant(|scores|, rand, c, 0)
    else
      var best := Winner(scores, rand, c, rounds - 1);
      var competitor := Contestant(|scores|, rand, c, rounds - 1);
      if scores[competitor] > scores[best] then competitor else best
  }

  /** The winner is one of the contestants, none scores above it, and every
      contestant drawn before it scores below it (ties go to the earlier). */
  lemma {:induction false} WinnerFacts(scores: seq<real>, rand: Genetic.Draws, c: nat, rounds: nat)
    requires Genetic.ValidDraws(rand) && scores != [] && rounds > 0
    ensures var w := Winner(scores, rand, c, rounds);
      exists j :: 0 <= j < rounds && w == Contestant(|scores|, rand, c, j) &&
        forall i :: 0 <= i < j ==> scores[Contestant(|scores|, rand, c, i)] < scores[w]
    ensures forall j :: 0 <= j < rounds ==> scores[Contestant(|scores|, rand, c, j)] <= scores[Winner(scores, rand, c, rounds)]
    decreases rounds
  {
    var w := Winner(scores, rand, c, rounds);
    if rounds == 1 {
      assert w == Contestant(|scores|, rand, c, 0);
    } else {
      WinnerFacts(scores, rand, c, rounds - 1);
      var best := Winner(scores, rand, c, rounds - 1);
      var competitor := Contestant(|scores|, rand, c, rounds - 1);
      if scores[competitor] > scores[best] {
        assert forall i :: 0 <= i < rounds - 1 ==> scores[Contestant(|scores|, rand, c, i)] < scores[competitor];
        assert w == Contestant(|scores|, rand, c, rounds - 1);
      } else {
        var j :| 0 <= j < rounds - 1 && best == Contestant(|scores|, rand, c, j) &&
          forall i :: 0 <= i < j ==> scores[Contestant(|scores|, rand, c, i)] < scores[best];
        assert w == Contestant(|scores|, rand, c, j);
      }
    }
  }

  /** One tournament of `selection`: `TournamentSize` draws, the strictly
      better competitor replacing the best so far. */
  method Tournament(scores: seq<real>, rand: Genetic.Draws, c: nat) returns (best: nat)
    requires Genetic.ValidDraws(rand) && scores != []
    ensures best == Winner(scores, rand, c, TournamentSize)
  {
    best := Pick(rand(c), |scores|);
    for j := 1 to TournamentSize
      invariant best == Winner(scores, rand, c, j)
    {
      var competitor := Pick(rand(c + j), |scores|);
      if scores[competitor] > scores[best] {
        best := competitor;
      }
    }
  }

  /** `selection`: one tournament per member of the population, each
      copying its winner; tournament `i` uses draws `c + 3i` onwards. */
  method Selection(population: seq<seq<nat>>, scores: seq<real>, rand: Genetic.Draws, c: nat)
    returns (selected: seq<seq<nat>>, c': nat)
    requires Genetic.ValidDraws(rand) && |scores| == |population|
    ensures |selected| == |population| && c' == c + TournamentSize * |population|
    ensures forall i :: 0 <= i < |selected| ==>
              selected[i] == population[Winner(scores, rand, c + TournamentSize * i, TournamentSize)]
  {
    selected, c' := [], c;
    for i := 0 to |population|
      invariant |selected| == i && c' == c + TournamentSize * i
      invariant forall k :: 0 <= k < i ==>
                  selected[k] == population[Winner(scores, rand, c + TournamentSize * k, TournamentSize)]
    {
      var best := Tournament(scores, rand, c');
      selected, c' := selected + [population[best]], c' + TournamentSize;
    }
  }

  // ------------------------------------------------------------ the class

  class GeneticAlgorithm {
    const math: MathLib
    const drones: seq<Drone>
    const deliveries: seq<Delivery>
    const noFlyZones: seq<Zone>
    const populationSize: nat
    const generations: nat
    const mutationRate: real
    const crossoverRate: real
    const elitismRate: real

    /** Speeds are positive (arrival times divide by them), drone ids are
        distinct (routes are keyed by id); the population is never empty
        and there is at least one generation. */
    ghost predicate Valid() {
      PositiveSpeeds(drones) && FreshIds(drones) && populationSize > 0 && generations > 0
    }

    /** The options fill in the parameters, `||` replacing a missing or zero
        option by its default. */
    constructor (math: MathLib, drones: seq<Drone>, deliveries: seq<Delivery>, noFlyZones: seq<Zone>, options: Options)
      requires PositiveSpeeds(drones) && UniqueDroneIds(drones)
      ensures this.math == math && this.drones == drones && this.deliveries == deliveries && this.noFlyZones == noFlyZones
      ensures populationSize == CountOr(options.populationSize, 50)
      ensures generations == CountOr(options.generations, 100)
      ensures mutationRate == RateOr(options.mutationRate, 0.1)
      ensures crossoverRate == RateOr(options.crossoverRate, 0.8)
      ensures elitismRate == RateOr(options.elitismRate, 0.2)
      ensures Valid()
    {
      this.math := math;
      this.drones := drones;
      this.deliveries := deliveries;
      this.noFlyZones := noFlyZones;
      this.populationSize := CountOr(options.populationSize, 50);
      this.generations := CountOr(options.generations, 100);
      this.mutationRate := RateOr(options.mutationRate, 0.1);
      this.crossoverRate := RateOr(options.crossoverRate, 0.8);
      this.elitismRate := RateOr(options.elitismRate, 0.2);
      UniqueIdsFresh(drones);
    }

    /** Every gene names a drone of the fleet (`drones.find(...)` succeeds). */
    predicate Flyable(ch: seq<nat>) {
      |ch| == |deliveries| && forall i :: 0 <= i < |ch| ==> ch[i] in DroneIds(drones)
    }

    /** `droneRoutes[g]` after the first `n` genes: the deliveries whose
        gene is `g`, in gene order. */
    function RouteOf(ch: seq<nat>, n: nat, g: nat): seq<Delivery>
      requires n <= |ch| == |deliveries|
    {
      if n == 0 then []
      else RouteOf(ch, n - 1, g) + (if ch[n - 1] == g then [deliveries[n - 1]] else [])
    }

    /** The genes among the first `n`. */
    function GenesOf(ch: seq<nat>, n: nat): set<nat>
      requires n <= |ch|
    {
      set i | 0 <= i < n :: ch[i]
    }

    /** `droneRoutes` after the first `n` genes: each gene appends its
        delivery to its drone's entry, opened empty on first use. */
    function Routes(ch: seq<nat>, n: nat): map<nat, seq<Delivery>>
      requires n <= |ch| == |deliveries|
    {
      if n == 0 then map[]
      else
        var routes := Routes(ch, n - 1);
        var g := ch[n - 1];
        routes[g := (if g in routes then routes[g] else []) + [deliveries[n - 1]]]
    }

    /** The routes have an entry exactly for the genes used, holding the
        deliveries of that gene in gene order; an unused drone's route is empty. */
    lemma {:induction false} RoutesFacts(ch: seq<nat>, n: nat)
      requires n <= |ch| == |deliveries|
      ensures forall g :: g in Routes(ch, n) <==> g in GenesOf(ch, n)
      ensures forall g :: g in Routes(ch, n) ==> Routes(ch, n)[g] == RouteOf(ch, n, g)
      ensures forall g :: g !in GenesOf(ch, n) ==> RouteOf(ch, n, g) == []
    {
      if n > 0 {
        RoutesFacts(ch, n - 1);
        var g := ch[n - 1];
        assert GenesOf(ch, n) == GenesOf(ch, n - 1) + {g};
        forall h | h != g
          ensures RouteOf(ch, n, h) == RouteOf(ch, n - 1, h)
        {
          assert RouteOf(ch, n - 1, h) + [] == RouteOf(ch, n - 1, h);
        }
      }
    }

    /** The first pass over the first `n` genes. */
    function Charged(ch: seq<nat>, n: nat): Tally
      requires Flyable(ch) && n <= |ch|
    {
      if n == 0 then Tally(map[], 0.0, 0)
      else Charge(Charged(ch, n - 1), DroneById(drones, ch[n - 1]), deliveries[n - 1])
    }

    /** The drones with a route, in the ascending order `Object.entries` lists them. */
    function Order(ch: seq<nat>): seq<nat>
      requires Flyable(ch)
    {
      KeyOrder(drones, Routes(ch, |ch|))
    }

    /** The second-pass deductions of the routes of the drones in `order`. */
    function Deductions(ch: seq<nat>, order: seq<nat>): real
      requires Flyable(ch) && forall k :: 0 <= k < |order| ==> order[k] in DroneIds(drones)
      decreases |order|
    {
      if order == [] then 0.0
      else
        var g := order[|order| - 1];
        Deductions(ch, order[..|order| - 1]) + Deduction(math, DroneById(drones, g).startPos, RouteOf(ch, |ch|, g))
    }

    /** The missed windows of the routes of the drones in `order`. */
    function MissCount(ch: seq<nat>, order: seq<nat>): nat
      requires Valid() && Flyable(ch) && forall k :: 0 <= k < |order| ==> order[k] in DroneIds(drones)
      decreases |order|
    {
      if order == [] then 0
      else
        var g := order[|order| - 1];
        MissCount(ch, order[..|order| - 1]) + Misses(math, DroneById(drones, g), RouteOf(ch, |ch|, g))
    }

    /** All penalty points of a chromosome: 100 per overload, 50 per missed window. */
    function Violations(ch: seq<nat>): nat
      requires Valid() && Flyable(ch)
    {
      OrderKnown(ch);
      Charged(ch, |ch|).violations + 50 * MissCount(ch, Order(ch))
    }

    /** `calculateFitness`: bonuses less deductions less penalty points,
        floored at 0. */
    function Fitness(ch: seq<nat>): (f: real)
      requires Valid() && Flyable(ch)
      ensures f >= 0.0
    {
      OrderKnown(ch);
      Max(0.0, Charged(ch, |ch|).fitness - Deductions(ch, Order(ch)) - Violations(ch) as real)
    }

    /** The first pass of `calculateFitness`: each gene's delivery joins its
        drone's route (even when it overloads the drone), then is charged. */
    method ChargeGenes(chromosome: seq<nat>) returns (droneRoutes: map<nat, seq<Delivery>>, tally: Tally)
      requires Flyable(chromosome)
      ensures droneRoutes == Routes(chromosome, |chromosome|)
      ensures tally == Charged(chromosome, |chromosome|)
    {
      droneRoutes := map[];
      var droneLoads: map<nat, real> := map[];
      var fitness := 0.0;
      var violations := 0;
      for index := 0 to |chromosome|
        invariant droneRoutes == Routes(chromosome, index)
        invariant Tally(droneLoads, fitness, violations) == Charged(chromosome, index)
      {
        var droneId := chromosome[index];
        var delivery := deliveries[index];
        if droneId !in droneRoutes {
          droneRoutes := droneRoutes[droneId := []];
        }
        droneRoutes := droneRoutes[droneId := droneRoutes[droneId] + [delivery]];
        var currentLoad := if droneId in droneLoads then droneLoads[droneId] else 0.0;
        var drone := DroneById(drones, droneId);
        if currentLoad + delivery.weight > drone.maxWeight {
          violations := violations + 100;
        } else {
          droneLoads := droneLoads[droneId := currentLoad + delivery.weight];
          fitness := fitness + (delivery.priority as real) * 10.0;
        }
      }
      tally := Tally(droneLoads, fitness, violations);
    }

    /** The second pass of `calculateFitness` over the drones of `order`,
        each flying the route the chromosome gives it. */
    method FlyRoutes(chromosome: seq<nat>, droneRoutes: map<nat, seq<Delivery>>, order: seq<nat>, fitness: real, violations: nat)
      returns (fitness': real, violations': nat)
      requires Valid() && Flyable(chromosome)
      requires forall k :: 0 <= k < |order| ==> order[k] in DroneIds(drones) && order[k] in droneRoutes
      requires forall g :: g in droneRoutes ==> droneRoutes[g] == RouteOf(chromosome, |chromosome|, g)
      ensures fitness' == fitness - Deductions(chromosome, order)
      ensures violations' == violations + 50 * MissCount(chromosome, order)
    {
      fitness', violations' := fitness, violations;
      for k := 0 to |order|
        invariant fitness' == fitness - Deductions(chromosome, order[..k])
        invariant violations' == violations + 50 * MissCount(chromosome, order[..k])
      {
        var droneId := order[k];
        var drone := DroneById(drones, droneId);
        assert order[..k + 1][..k] == order[..k];
        fitness', violations' := FlyRoute(math, drone, droneRoutes[droneId], fitness', violations');
      }
      assert order[..|order|] == order;
    }

    /** `calculateFitness`: the first pass over the genes, the second over
        the routes in ascending drone id, and the score floored at 0. */
    method CalculateFitness(chromosome: seq<nat>) returns (fitness: real)
      requires Valid() && Flyable(chromosome)
      ensures fitness == Fitness(chromosome)
    {
      var droneRoutes, tally := ChargeGenes(chromosome);
      OrderKnown(chromosome);
      RoutesFacts(chromosome, |chromosome|);
      var order := KeyOrder(drones, droneRoutes);
      var violations;
      fitness, violations := FlyRoutes(chromosome, droneRoutes, order, tally.fitness, tally.violations);
      fitness := Max(0.0, fitness - violations as real);
    }

    /** The load kept for every drone of the fleet is the load of the route
        the first `n` genes give it. */
    ghost predicate LoadsMatch(ch: seq<nat>, n: nat, loads: map<nat, real>)
      requires n <= |ch| == |deliveries|
    {
      forall g {:trigger LoadIn(loads, g)} :: g in DroneIds(drones) ==> LoadIn(loads, g) == Load(RouteOf(ch, n, g))
    }

    /** Drone `g` stays within its capacity along the route the first `n`
        genes give it. */
    ghost predicate Within(ch: seq<nat>, n: nat, g: nat)
      requires n <= |ch| == |deliveries| && g in DroneIds(drones)
    {
      WithinCapacity(DroneById(drones, g), RouteOf(ch, n, g))
    }

    /** Every drone of the fleet stays within its capacity. */
    ghost predicate AllWithin(ch: seq<nat>, n: nat)
      requires n <= |ch| == |deliveries|
    {
      forall g {:trigger Within(ch, n, g)} :: g in DroneIds(drones) ==> Within(ch, n, g)
    }

    /** One more gene changes only its own drone's route. */
    lemma AllWithinStep(ch: seq<nat>, n: nat)
      requires 0 < n <= |ch| == |deliveries| && ch[n - 1] in DroneIds(drones)
      ensures AllWithin(ch, n) <==> AllWithin(ch, n - 1) && Within(ch, n, ch[n - 1])
    {
      var g := ch[n - 1];
      var prev := RouteOf(ch, n - 1, g);
      assert RouteOf(ch, n, g) == prev + [deliveries[n - 1]];
      assert (prev + [deliveries[n - 1]])[..|prev|] == prev;
      CapacityExtend(DroneById(drones, g), prev, deliveries[n - 1]);
      forall h | h in DroneIds(drones) && h != g
        ensures Within(ch, n, h) == Within(ch, n - 1, h)
      {
        assert RouteOf(ch, n - 1, h) + [] == RouteOf(ch, n - 1, h);
      }
      if AllWithin(ch, n) {
        forall h | h in DroneIds(drones)
          ensures Within(ch, n - 1, h)
        {
          assert Within(ch, n, h);
        }
      }
      if AllWithin(ch, n - 1) && Within(ch, n, g) {
        forall h | h in DroneIds(drones)
          ensures Within(ch, n, h)
        {
          if h != g {
            assert Within(ch, n - 1, h);
          }
        }
      }
    }

    /** While nothing is overloaded, one more gene adds its weight to its
        own drone's load only. */
    lemma LoadsStep(ch: seq<nat>, n: nat, loads: map<nat, real>)
      requires 0 < n <= |ch| == |deliveries| && LoadsMatch(ch, n - 1, loads)
      ensures LoadsMatch(ch, n, loads[ch[n - 1] := LoadIn(loads, ch[n - 1]) + deliveries[n - 1].weight])
    {
      var g := ch[n - 1];
      var prev := RouteOf(ch, n - 1, g);
      assert RouteOf(ch, n, g) == prev + [deliveries[n - 1]];
      assert (prev + [deliveries[n - 1]])[..|prev|] == prev;
      var loads' := loads[g := LoadIn(loads, g) + deliveries[n - 1].weight];
      forall h | h in DroneIds(drones)
        ensures LoadIn(loads', h) == Load(RouteOf(ch, n, h))
      {
        assert LoadIn(loads, h) == Load(RouteOf(ch, n - 1, h));
        if h != g {
          assert RouteOf(ch, n - 1, h) + [] == RouteOf(ch, n - 1, h);
        }
      }
    }

    /** While nothing is overloaded yet, the next gene is charged exactly
        when it overloads its drone, and otherwise keeps the loads in step. */
    lemma ChargeStep(ch: seq<nat>, n: nat)
      requires Flyable(ch) && 0 < n <= |ch|
      requires Charged(ch, n - 1).violations == 0 && LoadsMatch(ch, n - 1, Charged(ch, n - 1).loads)
      requires WithinCapacity(DroneById(drones, ch[n - 1]), RouteOf(ch, n - 1, ch[n - 1]))
      ensures Charged(ch, n).violations == 0 <==> WithinCapacity(DroneById(drones, ch[n - 1]), RouteOf(ch, n, ch[n - 1]))
      ensures Charged(ch, n).violations == 0 ==> LoadsMatch(ch, n, Charged(ch, n).loads)
    {
      var t := Charged(ch, n - 1);
      var g := ch[n - 1];
      var d := deliveries[n - 1];
      var drone := DroneById(drones, g);
      var prev := RouteOf(ch, n - 1, g);
      assert LoadIn(t.loads, g) == Load(prev);
      assert RouteOf(ch, n, g) == prev + [d];
      CapacityExtend(drone, prev, d);
      if Load(prev) + d.weight <= drone.maxWeight {
        LoadsStep(ch, n, t.loads);
      }
    }

    /** Once a gene is charged, every later first pass keeps a charge. */
    lemma ChargesStay(ch: seq<nat>, n: nat)
      requires Flyable(ch) && 0 < n <= |ch|
      ensures Charged(ch, n).violations >= Charged(ch, n - 1).violations
    {
    }

    /** The loads of the first pass stay in step with the routes for one more gene. */
    lemma LoadsInStep(ch: seq<nat>, n: nat)
      requires Flyable(ch) && 0 < n <= |ch|
      requires Charged(ch, n - 1).violations == 0 ==> LoadsMatch(ch, n - 1, Charged(ch, n - 1).loads)
      requires Charged(ch, n - 1).violations == 0 ==> Within(ch, n - 1, ch[n - 1])
      ensures Charged(ch, n).violations == 0 ==> LoadsMatch(ch, n, Charged(ch, n).loads)
      ensures Charged(ch, n).violations == 0 <==> Charged(ch, n - 1).violations == 0 && Within(ch, n, ch[n - 1])
    {
      ChargesStay(ch, n);
      if Charged(ch, n - 1).violations == 0 {
        ChargeStep(ch, n);
      }
    }

    /** The first pass charges nothing exactly when no drone is ever
        overloaded; the loads it keeps are then the routes' loads. */
    lemma {:induction false} ChargedCapacity(ch: seq<nat>, n: nat)
      requires Flyable(ch) && n <= |ch|
      ensures Charged(ch, n).violations == 0 <==> AllWithin(ch, n)
      ensures Charged(ch, n).violations == 0 ==> LoadsMatch(ch, n, Charged(ch, n).loads)
    {
      if n > 0 {
        ChargedCapacity(ch, n - 1);
        AllWithinStep(ch, n);
        var g := ch[n - 1];
        assert AllWithin(ch, n - 1) ==> Within(ch, n - 1, g);
        LoadsInStep(ch, n);
        Chain(Charged(ch, n - 1).violations == 0, AllWithin(ch, n - 1),
              Charged(ch, n).violations == 0, AllWithin(ch, n), Within(ch, n, g));
      }
    }

    /** Two steps that add the same condition keep an equivalence. */
    static lemma Chain(before: bool, allBefore: bool, after: bool, allAfter: bool, step: bool)
      requires before <==> allBefore
      requires allAfter <==> allBefore && step
      requires after <==> before && step
      ensures after <==> allAfter
    {
    }

    /** Drone `g` reaches every delivery of its route inside the window. */
    ghost predicate Timely(ch: seq<nat>, g: nat)
      requires Valid() && Flyable(ch) && g in DroneIds(drones)
    {
      MeetsWindows(math, DroneById(drones, g), RouteOf(ch, |ch|, g))
    }

    /** The second pass adds no window penalty exactly when every drone of
        `order` is on time. */
    lemma {:induction false} MissCountZero(ch: seq<nat>, order: seq<nat>)
      requires Valid() && Flyable(ch) && forall k :: 0 <= k < |order| ==> order[k] in DroneIds(drones)
      ensures MissCount(ch, order) == 0 <==> forall k :: 0 <= k < |order| ==> Timely(ch, order[k])
      decreases |order|
    {
      if order != [] {
        var prev := order[..|order| - 1];
        var g := order[|order| - 1];
        assert forall k :: 0 <= k < |prev| ==> prev[k] == order[k];
        MissCountZero(ch, prev);
        NoMissesMeetsWindows(math, DroneById(drones, g), RouteOf(ch, |ch|, g));
        assert MissCount(ch, order) == MissCount(ch, prev) + Misses(math, DroneById(drones, g), RouteOf(ch, |ch|, g));
        ghost var allBefore := forall k :: 0 <= k < |prev| ==> Timely(ch, prev[k]);
        ghost var allAfter := forall k :: 0 <= k < |order| ==> Timely(ch, order[k]);
        assert allAfter <==> allBefore && Timely(ch, g);
        Chain(MissCount(ch, prev) == 0, allBefore, MissCount(ch, order) == 0, allAfter, Timely(ch, g));
      }
    }

    /** A chromosome scores no penalty point exactly when every drone of the
        fleet stays within its capacity all along its route and reaches
        every delivery inside its window. */
    lemma PenaltyFree(ch: seq<nat>)
      requires Valid() && Flyable(ch)
      ensures Violations(ch) == 0 <==>
                AllWithin(ch, |ch|) && forall g :: g in DroneIds(drones) ==> Timely(ch, g)
    {
      ChargedCapacity(ch, |ch|);
      OrderKnown(ch);
      var order := Order(ch);
      MissCountZero(ch, order);
      RoutesFacts(ch, |ch|);
      if MissCount(ch, order) == 0 {
        forall g | g in DroneIds(drones)
          ensures Timely(ch, g)
        {
          if g in GenesOf(ch, |ch|) {
            var k :| 0 <= k < |order| && order[k] == g;
          }
        }
      }
    }

    lemma OrderKnown(ch: seq<nat>)
      requires Flyable(ch)
      ensures forall k :: 0 <= k < |Order(ch)| ==> Order(ch)[k] in DroneIds(drones)
      ensures forall g :: g in Order(ch) <==> g in GenesOf(ch, |ch|)
    {
      var routes := Routes(ch, |ch|);
      RoutesFacts(ch, |ch|);
      assert routes.Keys <= DroneIds(drones);
      KeyOrderFacts(drones, routes);
    }

    // ------------------------------------------------------- chromosomes

    /** `drones.filter(drone => drone.max_weight >= delivery.weight)`, as ids,
        for delivery `i`. */
    function ValidDrones(i: nat): seq<nat>
      requires i < |deliveries|
    {
      LibCsp.Capable(drones, deliveries[i].weight)
    }

    /** A gene the operators can give delivery `i`: a drone able to lift it,
        or the first drone of the fleet when none can. */
    predicate Admissible(i: nat, g: nat)
      requires i < |deliveries|
    {
      g in ValidDrones(i) || (ValidDrones(i) == [] && drones != [] && g == drones[0].id)
    }

    /** One admissible gene per delivery. */
    predicate Chromosome(ch: seq<nat>) {
      |ch| == |deliveries| && forall i :: 0 <= i < |ch| ==> Admissible(i, ch[i])
    }

    /** `createRandomChromosome` reads `this.drones[0].id` for a delivery no
        drone can lift: it throws unless there is a drone or no delivery. */
    predicate Equipped() {
      deliveries == [] || drones != []
    }

    /** Every admissible gene names a drone of the fleet. */
    lemma ChromosomeFlyable(ch: seq<nat>)
      requires Chromosome(ch)
      ensures Flyable(ch)
    {
      forall i | 0 <= i < |ch|
        ensures ch[i] in DroneIds(drones)
      {
        if ch[i] in ValidDrones(i) {
          var k :| 0 <= k < |drones| && drones[k].id == ch[i] && drones[k].maxWeight >= deliveries[i].weight;
        }
      }
    }

    /** The gene drawn for delivery `i`: one draw picks uniformly among the
        drones able to lift it; with none, the first drone's id, drawing
        nothing. */
    function RandomGene(i: nat, rand: Genetic.Draws, c: nat): (res: (nat, nat))
      requires i < |deliveries| && Genetic.ValidDraws(rand) && (ValidDrones(i) != [] || drones != [])
      ensures Admissible(i, res.0)
      ensures res.1 == if ValidDrones(i) == [] then c else c + 1
    {
      var ids := ValidDrones(i);
      if ids == [] then (drones[0].id, c)
      else (ids[Pick(rand(c), |ids|)], c + 1)
    }

    /** `createRandomChromosome` from delivery `k` on: the genes in delivery
        order and the cursor after their draws. */
    function RandomChromosome(rand: Genetic.Draws, c: nat, k: nat): (res: (seq<nat>, nat))
      requires Genetic.ValidDraws(rand) && Equipped() && k <= |deliveries|
      ensures |res.0| == |deliveries| - k
      ensures forall i :: 0 <= i < |res.0| ==> Admissible(k + i, res.0[i])
      decreases |deliveries| - k
    {
      if k == |deliveries| then ([], c)
      else
        var (g, c1) := RandomGene(k, rand, c);
        var (rest, c2) := RandomChromosome(rand, c1, k + 1);
        assert forall i :: 0 <= i < |[g] + rest| ==> Admissible(k + i, ([g] + rest)[i]) by {
          forall i | 0 < i < |[g] + rest|
            ensures Admissible(k + i, ([g] + rest)[i])
          {
            assert ([g] + rest)[i] == rest[i - 1];
            assert Admissible(k + 1 + (i - 1), rest[i - 1]);
          }
        }
        ([g] + rest, c2)
    }

    /** `crossover`: when the first draw exceeds the crossover rate the
        parents come back as they are; otherwise a second draw cuts both and
        the children swap tails. */
    function Cross(p1: seq<nat>, p2: seq<nat>, rand: Genetic.Draws, c: nat): (res: ((seq<nat>, seq<nat>), nat))
      requires Genetic.ValidDraws(rand)
    {
      if rand(c) > crossoverRate then ((p1, p2), c + 1)
      else (Genetic.Crossover(p1, p2, rand(c + 1)), c + 2)
    }

    /** Children of equal-length parents keep the length, and position by
        position one child carries one parent's gene and the other the
        other's, swapped at one cut point; past the rate gate they are the
        parents themselves. */
    lemma CrossFacts(p1: seq<nat>, p2: seq<nat>, rand: Genetic.Draws, c: nat)
      requires Genetic.ValidDraws(rand) && |p1| == |p2|
      ensures var ((c1, c2), c') := Cross(p1, p2, rand, c);
        && |c1| == |p1| && |c2| == |p1|
        && (forall i :: 0 <= i < |p1| ==> (c1[i] == p1[i] && c2[i] == p2[i]) || (c1[i] == p2[i] && c2[i] == p1[i]))
        && (rand(c) > crossoverRate ==> c1 == p1 && c2 == p2 && c' == c + 1)
        && (rand(c) <= crossoverRate ==> c' == c + 2)
        && (rand(c) <= crossoverRate ==>
              exists cut :: 0 <= cut <= |p1| && (p1 != [] ==> cut < |p1|)
                && c1 == p1[..cut] + p2[cut..] && c2 == p2[..cut] + p1[cut..])
    {
      if rand(c) <= crossoverRate {
        Genetic.CrossoverFacts(p1, p2, rand(c + 1));
      }
    }

    /** What mutation may leave at position `j` of `ch`: the gene itself or
        a drone able to lift the delivery. */
    predicate Mutant(ch: seq<nat>, j: nat, g: nat)
      requires j < |ch| == |deliveries|
    {
      g == ch[j] || g in ValidDrones(j)
    }

    /** `mutate` from gene `k` on: each gene draws once; under the mutation
        rate a second draw picks among the drones able to lift the delivery
        when there are any, and otherwise the gene stays. */
    function Mutate(ch: seq<nat>, rand: Genetic.Draws, c: nat, k: nat): (res: (seq<nat>, nat))
      requires Genetic.ValidDraws(rand) && |ch| == |deliveries| && k <= |ch|
      ensures |res.0| == |ch| - k
      ensures forall i :: 0 <= i < |res.0| ==> Mutant(ch, k + i, res.0[i])
      decreases |ch| - k
    {
      if k == |ch| then ([], c)
      else
        var (g, c1) :=
          if rand(c) < mutationRate && ValidDrones(k) != [] then RandomGene(k, rand, c + 1)
          else (ch[k], c + 1);
        var (rest, c2) := Mutate(ch, rand, c1, k + 1);
        assert Mutant(ch, k, g);
        assert forall i :: 0 < i < |[g] + rest| ==> ([g] + rest)[i] == rest[i - 1] && k + i == (k + 1) + (i - 1);
        ([g] + rest, c2)
    }

    /** Mutation keeps a chromosome a chromosome. */
    lemma MutateChromosome(ch: seq<nat>, rand: Genetic.Draws, c: nat)
      requires Genetic.ValidDraws(rand) && Chromosome(ch)
      ensures Chromosome(Mutate(ch, rand, c, 0).0)
    {
      var m := Mutate(ch, rand, c, 0).0;
      forall i | 0 <= i < |m|
        ensures Admissible(i, m[i])
      {
        assert Mutant(ch, 0 + i, m[i]);
      }
    }

    /** Crossover of two chromosomes gives two chromosomes. */
    lemma CrossChromosomes(p1: seq<nat>, p2: seq<nat>, rand: Genetic.Draws, c: nat)
      requires Genetic.ValidDraws(rand) && Chromosome(p1) && Chromosome(p2)
      ensures Chromosome(Cross(p1, p2, rand, c).0.0) && Chromosome(Cross(p1, p2, rand, c).0.1)
    {
      CrossFacts(p1, p2, rand, c);
    }

    // ------------------------------------------------------- generations

    /** A generation: `populationSize` chromosomes. */
    predicate Population(pop: seq<seq<nat>>) {
      |pop| == populationSize && forall i :: 0 <= i < |pop| ==> Chromosome(pop[i])
    }

    /** Every member of `pop` can be scored. */
    ghost predicate Scorable(pop: seq<seq<nat>>) {
      Valid() && forall i :: 0 <= i < |pop| ==> Flyable(pop[i])
    }

    lemma PopulationScorable(pop: seq<seq<nat>>)
      requires Valid() && Population(pop)
      ensures Scorable(pop)
    {
      forall i | 0 <= i < |pop|
        ensures Flyable(pop[i])
      {
        ChromosomeFlyable(pop[i]);
      }
    }

    /** `population.map(chromosome => this.calculateFitness(chromosome))`. */
    function Fitnesses(pop: seq<seq<nat>>): (scores: seq<real>)
      requires Scorable(pop)
      ensures |scores| == |pop|
    {
      seq(|pop|, i requires 0 <= i < |pop| => Fitness(pop[i]))
    }

    /** The scoring loop. */
    method Scores(pop: seq<seq<nat>>) returns (scores: seq<real>)
      requires Scorable(pop)
      ensures scores == Fitnesses(pop)
      ensures forall i :: 0 <= i < |scores| ==> scores[i] >= 0.0
    {
      scores := [];
      for i := 0 to |pop|
        invariant scores == Fitnesses(pop)[..i]
      {
        var f := CalculateFitness(pop[i]);
        assert Fitnesses(pop)[..i + 1] == Fitnesses(pop)[..i] + [f];
        scores := scores + [f];
      }
    }

    /** `Math.floor(this.populationSize * this.elitismRate)`. */
    function EliteCount(): int {
      Floor(populationSize as real * elitismRate)
    }

    /** How many chromosomes the elitism loop copies: none for a negative count. */
    function Elites(): (e: nat)
      ensures e as int == if EliteCount() < 0 then 0 else EliteCount()
    {
      if EliteCount() < 0 then 0 else EliteCount()
    }

    /** The elitism loop: `newPopulation.push([...population[sortedIndices[i]]])`
        for `i < eliteCount`. */
    method CopyElites(pop: seq<seq<nat>>, ranking: seq<nat>) returns (elites: seq<seq<nat>>)
      requires |ranking| == |pop| && (forall r :: 0 <= r < |ranking| ==> ranking[r] < |pop|)
      requires EliteCount() <= |pop|
      ensures |elites| == Elites() && forall j :: 0 <= j < |elites| ==> elites[j] == pop[ranking[j]]
    {
      elites := [];
      var eliteCount := EliteCount();
      var i := 0;
      while i < eliteCount
        invariant 0 <= i == |elites| && i <= Elites()
        invariant forall j :: 0 <= j < i ==> elites[j] == pop[ranking[j]]
      {
        elites := elites + [pop[ranking[i]]];
        i := i + 1;
      }
    }

    /** Gene by gene, `ch` descends from `pop`: each gene is the same
        position's gene of some member, or a drone able to lift the delivery. */
    ghost predicate Offspring(pop: seq<seq<nat>>, ch: seq<nat>) {
      && |ch| == |deliveries|
      && forall k :: 0 <= k < |ch| ==>
           ch[k] in ValidDrones(k) || exists j :: 0 <= j < |pop| && k < |pop[j]| && ch[k] == pop[j][k]
    }

    /** Gene by gene, `ch` is made of the same position's genes of members of `pop`. */
    ghost predicate Crossbred(pop: seq<seq<nat>>, ch: seq<nat>) {
      && |ch| == |deliveries|
      && forall k :: 0 <= k < |ch| ==> exists j :: 0 <= j < |pop| && k < |pop[j]| && ch[k] == pop[j][k]
    }

    /** Every selected chromosome is a member of `pop`. */
    ghost predicate Drawn(pop: seq<seq<nat>>, selected: seq<seq<nat>>) {
      forall i :: 0 <= i < |selected| ==> selected[i] in pop
    }

    /** One pass of the breeding loop: two parents drawn from `selected`,
        their crossover, the first child mutated and, when `room` says a
        second one fits, the second child mutated too; and the cursor after. */
    function Brood(selected: seq<seq<nat>>, room: bool, rand: Genetic.Draws, c: nat): (res: (seq<seq<nat>>, nat))
      requires Genetic.ValidDraws(rand) && selected != [] && forall i :: 0 <= i < |selected| ==> Chromosome(selected[i])
    {
      var parent1 := selected[Pick(rand(c), |selected|)];
      var parent2 := selected[Pick(rand(c + 1), |selected|)];
      var ((child1, child2), c1) := Cross(parent1, parent2, rand, c + 2);
      CrossChromosomes(parent1, parent2, rand, c + 2);
      var (mutant1, c2) := Mutate(child1, rand, c1, 0);
      if room then
        var (mutant2, c3) := Mutate(child2, rand, c2, 0);
        ([mutant1, mutant2], c3)
      else ([mutant1], c2)
    }

    /** A mutated crossbreed descends from `pop`. */
    lemma MutatedOffspring(pop: seq<seq<nat>>, child: seq<nat>, rand: Genetic.Draws, c: nat)
      requires Genetic.ValidDraws(rand) && Chromosome(child) && Crossbred(pop, child)
      ensures Chromosome(Mutate(child, rand, c, 0).0) && Offspring(pop, Mutate(child, rand, c, 0).0)
    {
      MutateChromosome(child, rand, c);
      var m := Mutate(child, rand, c, 0).0;
      forall k | 0 <= k < |m|
        ensures m[k] in ValidDrones(k) || exists j :: 0 <= j < |pop| && k < |pop[j]| && m[k] == pop[j][k]
      {
        assert Mutant(child, 0 + k, m[k]);
      }
    }

    /** The crossover children of two members of `pop` are crossbreeds of it. */
    lemma CrossCrossbred(pop: seq<seq<nat>>, p1: seq<nat>, p2: seq<nat>, rand: Genetic.Draws, c: nat)
      requires Genetic.ValidDraws(rand) && p1 in pop && p2 in pop && Chromosome(p1) && Chromosome(p2)
      ensures Crossbred(pop, Cross(p1, p2, rand, c).0.0) && Crossbred(pop, Cross(p1, p2, rand, c).0.1)
    {
      CrossFacts(p1, p2, rand, c);
      var (x1, x2) := Cross(p1, p2, rand, c).0;
      var a :| 0 <= a < |pop| && pop[a] == p1;
      var b :| 0 <= b < |pop| && pop[b] == p2;
      forall k | 0 <= k < |x1|
        ensures (exists j :: 0 <= j < |pop| && k < |pop[j]| && x1[k] == pop[j][k])
             && (exists j :: 0 <= j < |pop| && k < |pop[j]| && x2[k] == pop[j][k])
      {
        if x1[k] == p1[k] {
          assert x1[k] == pop[a][k] && x2[k] == pop[b][k];
        } else {
          assert x1[k] == pop[b][k] && x2[k] == pop[a][k];
        }
      }
    }

    /** A brood is one or two chromosomes descending from `pop`. */
    lemma BroodFacts(pop: seq<seq<nat>>, selected: seq<seq<nat>>, room: bool, rand: Genetic.Draws, c: nat)
      requires Genetic.ValidDraws(rand) && selected != [] && forall i :: 0 <= i < |selected| ==> Chromosome(selected[i])
      requires Drawn(pop, selected)
      ensures var kids := Brood(selected, room, rand, c).0;
        && |kids| == (if room then 2 else 1)
        && forall j :: 0 <= j < |kids| ==> Chromosome(kids[j]) && Offspring(pop, kids[j])
    {
      var parent1 := selected[Pick(rand(c), |selected|)];
      var parent2 := selected[Pick(rand(c + 1), |selected|)];
      CrossChromosomes(parent1, parent2, rand, c + 2);
      CrossCrossbred(pop, parent1, parent2, rand, c + 2);
      var ((child1, child2), c1) := Cross(parent1, parent2, rand, c + 2);
      var (mutant1, c2) := Mutate(child1, rand, c1, 0);
      MutatedOffspring(pop, child1, rand, c1);
      MutatedOffspring(pop, child2, rand, c2);
    }

    /** A generation under construction: the elites first, then offspring
        of `pop`, every member a chromosome. */
    ghost predicate Growing(pop: seq<seq<nat>>, elites: seq<seq<nat>>, next: seq<seq<nat>>) {
      && |elites| <= |next| <= populationSize && next[..|elites|] == elites
      && (forall j :: 0 <= j < |next| ==> Chromosome(next[j]))
      && (forall j :: |elites| <= j < |next| ==> Offspring(pop, next[j]))
    }

    /** Pushing chromosomes that descend from `pop` keeps a generation under construction. */
    lemma GrowingAppend(pop: seq<seq<nat>>, elites: seq<seq<nat>>, next: seq<seq<nat>>, kids: seq<seq<nat>>)
      requires Growing(pop, elites, next) && |next| + |kids| <= populationSize
      requires forall j :: 0 <= j < |kids| ==> Chromosome(kids[j]) && Offspring(pop, kids[j])
      ensures Growing(pop, elites, next + kids)
    {
      assert (next + kids)[..|elites|] == next[..|elites|];
      forall j | 0 <= j < |next + kids|
        ensures Chromosome((next + kids)[j])
        ensures j >= |elites| ==> Offspring(pop, (next + kids)[j])
      {
        if j >= |next| {
          assert (next + kids)[j] == kids[j - |next|];
        }
      }
    }

    /** The breeding loop: `while (newPopulation.length < this.populationSize)`. */
    method Fill(pop: seq<seq<nat>>, selected: seq<seq<nat>>, elites: seq<seq<nat>>, rand: Genetic.Draws, c: nat)
      returns (next: seq<seq<nat>>, c': nat)
      requires Genetic.ValidDraws(rand) && selected != [] && forall i :: 0 <= i < |selected| ==> Chromosome(selected[i])
      requires Drawn(pop, selected)
      requires |elites| <= populationSize && forall j :: 0 <= j < |elites| ==> Chromosome(elites[j])
      ensures Growing(pop, elites, next) && |next| == populationSize
    {
      next, c' := elites, c;
      assert next[..|elites|] == elites;
      while |next| < populationSize
        invariant Growing(pop, elites, next)
        decreases populationSize - |next|
      {
        var room := |next| + 1 < populationSize;
        var (kids, c1) := Brood(selected, room, rand, c');
        BroodFacts(pop, selected, room, rand, c');
        GrowingAppend(pop, elites, next, kids);
        next, c' := next + kids, c1;
      }
    }

    /** A generation that starts with the best chromosome of the previous
        one is at least as fit. */
    lemma BestKept(pop: seq<seq<nat>>, next: seq<seq<nat>>)
      requires Scorable(pop) && Scorable(next) && pop != [] && next != []
      requires next[0] == pop[Genetic.Ranking(Fitnesses(pop))[0]]
      ensures Genetic.MaxOf(Fitnesses(next)) >= Genetic.MaxOf(Fitnesses(pop))
    {
      Genetic.TopRanked(Fitnesses(pop));
      assert Fitnesses(next)[0] == Fitnesses(pop)[Genetic.Ranking(Fitnesses(pop))[0]];
    }

    /** One pass of the evolution loop: score and rank the generation (a
        stable sort, fittest first), copy the elites, run the tournaments,
        then breed until the generation is full. */
    method NextGeneration(pop: seq<seq<nat>>, rand: Genetic.Draws, c: nat) returns (next: seq<seq<nat>>, c': nat)
      requires Valid() && Genetic.ValidDraws(rand) && Population(pop) && Scorable(pop)
      requires EliteCount() <= populationSize
      ensures Population(next) && Scorable(next)
      ensures forall i :: 0 <= i < Elites() ==> next[i] == pop[Genetic.Ranking(Fitnesses(pop))[i]]
      ensures forall i :: Elites() <= i < |next| ==> Offspring(pop, next[i])
      ensures Elites() > 0 ==> Genetic.MaxOf(Fitnesses(next)) >= Genetic.MaxOf(Fitnesses(pop))
    {
      var scores := Scores(pop);
      var ranking := Genetic.Ranking(scores);
      var elites := CopyElites(pop, ranking);
      var selected, c1 := Selection(pop, scores, rand, c);
      assert Drawn(pop, selected);
      next, c' := Fill(pop, selected, elites, rand, c1);
      assert forall j :: 0 <= j < |elites| ==> next[j] == next[..|elites|][j];
      PopulationScorable(next);
      if Elites() > 0 {
        BestKept(pop, next);
      }
    }

    /** `Array.from({ length: this.populationSize }, () => this.createRandomChromosome())`. */
    method InitialPopulation(rand: Genetic.Draws, c: nat) returns (pop: seq<seq<nat>>, c': nat)
      requires Genetic.ValidDraws(rand) && Equipped()
      ensures Population(pop)
    {
      pop, c' := [], c;
      for i := 0 to populationSize
        invariant |pop| == i && forall j :: 0 <= j < i ==> Chromosome(pop[j])
      {
        var (ch, c1) := RandomChromosome(rand, c', 0);
        assert forall k :: 0 <= k < |ch| ==> Admissible(0 + k, ch[k]);
        pop, c' := pop + [ch], c1;
      }
    }

    /** What `convertToRoutes` reports for a chromosome: every delivery
        counted, grouped into the route of its gene's drone, and the routes
        flown in ascending drone id for the totals. */
    ghost predicate Reports(chromosome: seq<nat>, result: RouteResult)
      requires |chromosome| == |deliveries|
    {
      && result.completed == |deliveries|
      && Genetic.RoutesOf(deliveries, chromosome, result.routes)
      && RoutesKnown(drones, deliveries, result.routes)
      && result.totalDistance == RoutesDistance(math, drones, deliveries, result.routes, KeyOrder(drones, result.routes))
      && result.energy == RoutesEnergy(math, drones, deliveries, result.routes, KeyOrder(drones, result.routes))
    }

    /** `convertToRoutes`. */
    method ConvertToRoutes(chromosome: seq<nat>) returns (result: RouteResult)
      requires Flyable(chromosome)
      ensures Reports(chromosome, result)
    {
      result := Genetic.ReportBest(Genetic.Instance(math, noFlyZones, drones, deliveries), chromosome);
    }

    /** `evolve`. The first population is drawn, `generations` passes breed
        it, and the first chromosome of the largest fitness of the last one
        is reported. It throws, giving `None`, when a delivery needs the
        first drone of an empty fleet or when the elite count exceeds the
        population (`sortedIndices[i]` runs off the end). When elites are
        kept, the best fitness never drops. */
    method Evolve(rand: Genetic.Draws)
      returns (result: Option<RouteResult>, ghost first: seq<seq<nat>>, ghost final: seq<seq<nat>>, ghost bestIndex: nat)
      requires Valid() && Genetic.ValidDraws(rand)
      ensures result.None? <==> !Equipped() || EliteCount() > populationSize
      ensures result.Some? ==>
                && Population(first) && Population(final) && Scorable(first) && Scorable(final)
                && bestIndex == Genetic.FirstFittest(Fitnesses(final))
                && Reports(final[bestIndex], result.value)
      ensures result.Some? && Elites() > 0 ==> Genetic.MaxOf(Fitnesses(final)) >= Genetic.MaxOf(Fitnesses(first))
    {
      if !Equipped() || EliteCount() > populationSize {
        return None, [], [], 0;
      }
      var population, c := InitialPopulation(rand, 0);
      PopulationScorable(population);
      first := population;
      for generation := 0 to generations
        invariant Population(population) && Scorable(population)
        invariant Elites() > 0 ==> Genetic.MaxOf(Fitnesses(population)) >= Genetic.MaxOf(Fitnesses(first))
      {
        population, c := NextGeneration(population, rand, c);
      }
      var finalFitnessScores := Scores(population);
      var best := Genetic.FirstFittest(finalFitnessScores);
      final, bestIndex := population, best;
      var report := ConvertToRoutes(population[best]);
      result := Some(report);
    }
  }
}
