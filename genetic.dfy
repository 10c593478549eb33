/** The page's genetic solver (`geneticAlgorithm`): a chromosome gives every
    delivery outside the zones at the start of its window a drone id; a
    population of 50 evolves for 100 generations by elitism, single-point
    crossover of parents from the better half and per-gene mutation; the
    fittest chromosome is reported as routes. */
module Genetic {
  import opened Types
  import opened RouteCheck
  import opened StableSort
  import opened Metrics
  import Csp
  import Greedy

  const PopulationSize: nat := 50
  const Generations: nat := 100
  const MutationRate: real := 0.1

  /** `Math.random()`: a supplied stream of draws, each in [0, 1), read
      from a cursor that every call moves on by one. */
  type Draws = nat -> real

  ghost predicate ValidDraws(rand: Draws) {
    forall i :: 0.0 <= rand(i) < 1.0
  }

  /** What the closures of `geneticAlgorithm` see: the fleet and the
      deliveries that passed the zone filter, in input order. */
  datatype Instance = Instance(m: MathLib, zones: seq<Zone>, drones: seq<Drone>, valid: seq<Delivery>)

  predicate Ready(inst: Instance) {
    PositiveSpeeds(inst.drones) && UniqueDroneIds(inst.drones)
  }

  /** `drones.filter(capacity and start route).map(d => d.id)` for delivery `i`. */
  function Candidates(inst: Instance, i: nat): seq<nat>
    requires Ready(inst) && i < |inst.valid|
  {
    Csp.EligibleIds(inst.m, inst.zones, inst.drones, inst.valid[i])
  }

  /** A gene the operators can produce for delivery `i`: an eligible drone,
      or the fallback id 1 when no drone is eligible. */
  predicate Admissible(inst: Instance, i: nat, g: nat)
    requires Ready(inst) && i < |inst.valid|
  {
    g in Candidates(inst, i) || (Candidates(inst, i) == [] && g == 1)
  }

  /** One gene per delivery, each admissible. */
  predicate AdmissibleChromosome(inst: Instance, ch: seq<nat>)
    requires Ready(inst)
  {
    |ch| == |inst.valid| && forall i :: 0 <= i < |ch| ==> Admissible(inst, i, ch[i])
  }

  /** The gene drawn for delivery `i`: a uniformly indexed eligible drone,
      drawing once, or the fallback 1 without drawing. */
  function RandomGene(inst: Instance, i: nat, rand: Draws, c: nat): (res: (nat, nat))
    requires Ready(inst) && i < |inst.valid| && ValidDraws(rand)
    ensures Admissible(inst, i, res.0)
    ensures res.1 == if Candidates(inst, i) == [] then c else c + 1
  {
    var ids := Candidates(inst, i);
    if ids == [] then (1, c)
    else
      var k := Pick(rand(c), |ids|);
      (ids[k], c + 1)
  }

  /** `createRandomChromosome`: the genes of deliveries `k..` in order,
      and the cursor after their draws. */
  function RandomChromosome(inst: Instance, rand: Draws, c: nat, k: nat): (res: (seq<nat>, nat))
    requires Ready(inst) && ValidDraws(rand) && k <= |inst.valid|
    ensures |res.0| == |inst.valid| - k
    ensures forall i :: 0 <= i < |res.0| ==> Admissible(inst, k + i, res.0[i])
    decreases |inst.valid| - k
  {
    if k == |inst.valid| then ([], c)
    else
      var (g, c1) := RandomGene(inst, k, rand, c);
      var (rest, c2) := RandomChromosome(inst, rand, c1, k + 1);
      ConsAdmissible(inst, k, g, rest);
      ([g] + rest, c2)
  }

  /** An admissible gene for delivery `k` before admissible genes for the
      deliveries after it. */
  lemma ConsAdmissible(inst: Instance, k: nat, g: nat, rest: seq<nat>)
    requires Ready(inst) && k < |inst.valid| && Admissible(inst, k, g) && k + 1 + |rest| <= |inst.valid|
    requires forall i :: 0 <= i < |rest| ==> Admissible(inst, k + 1 + i, rest[i])
    ensures forall i :: 0 <= i < |[g] + rest| ==> Admissible(inst, k + i, ([g] + rest)[i])
  {
    forall i | 0 < i < |[g] + rest|
      ensures Admissible(inst, k + i, ([g] + rest)[i])
    {
      assert ([g] + rest)[i] == rest[i - 1];
      assert Admissible(inst, k + 1 + (i - 1), rest[i - 1]);
    }
  }

  /** `parent.slice(0, n)` and `parent.slice(n)`: JavaScript clamps the bound. */
  function Before(s: seq<nat>, n: nat): seq<nat> {
    if n <= |s| then s[..n] else s
  }

  function From(s: seq<nat>, n: nat): seq<nat> {
    if n <= |s| then s[n..] else []
  }

  /** `Math.floor(Math.random() * parent1.length)`: 0 for an empty parent. */
  function Cut(p1: seq<nat>, r: real): (cut: nat)
    requires 0.0 <= r < 1.0
    ensures cut <= |p1| && (p1 != [] ==> cut < |p1|)
  {
    if p1 == [] then 0 else Pick(r, |p1|)
  }

  /** `crossover`: one cut point drawn over the first parent's length; each
      child takes one parent's genes before it and the other's from it. */
  function Crossover(p1: seq<nat>, p2: seq<nat>, r: real): (children: (seq<nat>, seq<nat>))
    requires 0.0 <= r < 1.0
  {
    var cut := Cut(p1, r);
    (Before(p1, cut) + From(p2, cut), Before(p2, cut) + From(p1, cut))
  }

  /** Children of equal-length parents have that length, and at every
      position one child has the first parent's gene and the other the
      second's; the swap happens at a single cut point, below the length
      when the parents are not empty. */
  lemma CrossoverFacts(p1: seq<nat>, p2: seq<nat>, r: real)
    requires 0.0 <= r < 1.0 && |p1| == |p2|
    ensures var (c1, c2) := Crossover(p1, p2, r);
      && |c1| == |p1| && |c2| == |p1|
      && (forall i :: 0 <= i < |p1| ==>
            (c1[i] == p1[i] && c2[i] == p2[i]) || (c1[i] == p2[i] && c2[i] == p1[i]))
      && exists cut :: 0 <= cut <= |p1| && (p1 != [] ==> cut < |p1|)
           && c1 == p1[..cut] + p2[cut..] && c2 == p2[..cut] + p1[cut..]
  {
    var cut := Cut(p1, r);
    var (c1, c2) := Crossover(p1, p2, r);
    assert cut <= |p1|;
    assert c1 == p1[..cut] + p2[cut..] && c2 == p2[..cut] + p1[cut..];
    forall i | 0 <= i < |p1|
      ensures (c1[i] == p1[i] && c2[i] == p2[i]) || (c1[i] == p2[i] && c2[i] == p1[i])
    {
      if i < cut {
        assert c1[i] == p1[..cut][i] && c2[i] == p2[..cut][i];
      } else {
        assert c1[i] == p2[cut..][i - cut] && c2[i] == p1[cut..][i - cut];
      }
    }
  }

  /** `mutate` from gene `k` on: each gene draws once; under the mutation
      rate it is redrawn among the eligible drones (a second draw) when
      there are any, and kept otherwise. */
  function Mutate(inst: Instance, ch: seq<nat>, rand: Draws, c: nat, k: nat): (res: (seq<nat>, nat))
    requires Ready(inst) && ValidDraws(rand) && |ch| == |inst.valid| && k <= |ch|
    ensures |res.0| == |ch| - k
    ensures forall i :: 0 <= i < |res.0| ==> res.0[i] == ch[k + i] || res.0[i] in Candidates(inst, k + i)
    decreases |ch| - k
  {
    if k == |ch| then ([], c)
    else
      var (g, c1) :=
        if rand(c) < MutationRate && Candidates(inst, k) != []
        then RandomGene(inst, k, rand, c + 1)
        else (ch[k], c + 1);
      var (rest, c2) := Mutate(inst, ch, rand, c1, k + 1);
      ([g] + rest, c2)
  }

  /** Mutation keeps a chromosome admissible. */
  lemma MutateAdmissible(inst: Instance, ch: seq<nat>, rand: Draws, c: nat)
    requires Ready(inst) && ValidDraws(rand) && AdmissibleChromosome(inst, ch)
    ensures AdmissibleChromosome(inst, Mutate(inst, ch, rand, c, 0).0)
  {
    var m := Mutate(inst, ch, rand, c, 0).0;
    forall i | 0 <= i < |m| ensures Admissible(inst, i, m[i]) {
      assert m[i] == ch[0 + i] || m[i] in Candidates(inst, 0 + i);
    }
  }

  /** Crossover of admissible parents gives admissible children. */
  lemma CrossoverAdmissible(inst: Instance, p1: seq<nat>, p2: seq<nat>, r: real)
    requires Ready(inst) && 0.0 <= r < 1.0
    requires AdmissibleChromosome(inst, p1) && AdmissibleChromosome(inst, p2)
    ensures AdmissibleChromosome(inst, Crossover(p1, p2, r).0)
    ensures AdmissibleChromosome(inst, Crossover(p1, p2, r).1)
  {
    CrossoverFacts(p1, p2, r);
    var (c1, c2) := Crossover(p1, p2, r);
    forall i | 0 <= i < |c1| ensures Admissible(inst, i, c1[i]) && Admissible(inst, i, c2[i]) {
      assert Admissible(inst, i, p1[i]) && Admissible(inst, i, p2[i]);
    }
  }

  /** Every gene names a drone of the fleet (`drones.find(...)!` succeeds). */
  predicate Flyable(inst: Instance, ch: seq<nat>) {
    forall i :: 0 <= i < |ch| ==> ch[i] in DroneIds(inst.drones)
  }

  /** The running totals of `calculateFitness`: each drone's position, load
      and clock (the three dictionaries keyed by drone id, held here at the
      drone's place in the fleet, ids being unique), the fitness and the
      penalty points. */
  datatype Accounts = Accounts(states: seq<Greedy.DroneState>, fitness: real, violations: nat)

  /** Every drone at its start, empty, at time 0; nothing scored yet. */
  function StartAccounts(drones: seq<Drone>): (a: Accounts)
    ensures |a.states| == |drones|
  {
    Accounts(seq(|drones|, k requires 0 <= k < |drones| => Greedy.DroneState(drones[k].startPos, 0.0, 0.0)), 0.0, 0)
  }

  /** Whether drone `drone` in state `s` takes `d` without penalty: within
      capacity, along a valid route, and by the end of the window. */
  predicate Clean(inst: Instance, drone: Drone, s: Greedy.DroneState, d: Delivery)
    requires drone.speed > 0.0
  {
    && !(s.load + d.weight > drone.maxWeight)
    && RouteValid(inst.m, inst.zones, s.pos, d.pos, s.time, drone.speed)
    && !(s.time + Distance(inst.m, s.pos, d.pos) / drone.speed > d.latest)
  }

  /** One gene of `calculateFitness`: 100 points for exceeding the capacity
      (the load is then left as it was and no priority bonus is earned), 200
      for an invalid route, 50 for arriving after the window; the drone
      moves on either way, and the distance flown costs half its length. */
  function Charge(inst: Instance, a: Accounts, g: nat, d: Delivery): (r: Accounts)
    requires Ready(inst) && g in DroneIds(inst.drones) && |a.states| == |inst.drones|
    ensures |r.states| == |inst.drones|
  {
    var k := DroneIndex(inst.drones, g);
    var drone := inst.drones[k];
    var s := a.states[k];
    var over := s.load + d.weight > drone.maxWeight;
    var distance := Distance(inst.m, s.pos, d.pos);
    var arrival := s.time + distance / drone.speed;
    var penalty := (if over then 100 else 0)
                 + (if RouteValid(inst.m, inst.zones, s.pos, d.pos, s.time, drone.speed) then 0 else 200)
                 + (if arrival > d.latest then 50 else 0);
    Accounts(a.states[k := Greedy.DroneState(d.pos, if over then s.load else s.load + d.weight, arrival)],
             (if over then a.fitness else a.fitness + (d.priority as real) * 10.0) - distance * 0.5,
             a.violations + penalty)
  }

  /** The totals after the first `n` genes. */
  function Replay(inst: Instance, ch: seq<nat>, n: nat): (a: Accounts)
    requires Ready(inst) && Flyable(inst, ch) && n <= |ch| <= |inst.valid|
    ensures |a.states| == |inst.drones|
  {
    if n == 0 then StartAccounts(inst.drones)
    else Charge(inst, Replay(inst, ch, n - 1), ch[n - 1], inst.valid[n - 1])
  }

  /** `Math.max(0, fitness - violations)`. */
  function Fitness(inst: Instance, ch: seq<nat>): (f: real)
    requires Ready(inst) && Flyable(inst, ch) && |ch| <= |inst.valid|
    ensures f >= 0.0
  {
    var a := Replay(inst, ch, |ch|);
    Max(0.0, a.fitness - a.violations as real)
  }

  /** `calculateFitness`: the replay loop over the genes. */
  method CalculateFitness(inst: Instance, ch: seq<nat>) returns (f: real)
    requires Ready(inst) && Flyable(inst, ch) && |ch| <= |inst.valid|
    ensures f == Fitness(inst, ch)
  {
    var states := StartAccounts(inst.drones).states;
    var fitness, violations := 0.0, 0;
    for i := 0 to |ch|
      invariant Accounts(states, fitness, violations) == Replay(inst, ch, i)
    {
      states, fitness, violations := ChargeGene(inst, states, fitness, violations, ch[i], inst.valid[i]);
    }
    f := Max(0.0, fitness - violations as real);
  }

  /** The body of the `chromosome.forEach` in `calculateFitness`. */
  method ChargeGene(inst: Instance, states: seq<Greedy.DroneState>, fitness: real, violations: nat, g: nat, delivery: Delivery)
    returns (states': seq<Greedy.DroneState>, fitness': real, violations': nat)
    requires Ready(inst) && g in DroneIds(inst.drones) && |states| == |inst.drones|
    ensures Accounts(states', fitness', violations') == Charge(inst, Accounts(states, fitness, violations), g, delivery)
  {
    states', fitness', violations' := states, fitness, violations;
    var k := DroneIndex(inst.drones, g);
    var drone := inst.drones[k];
    var s := states[k];
    if s.load + delivery.weight > drone.maxWeight {
      violations' := violations' + 100;
    } else {
      states' := states'[k := s.(load := s.load + delivery.weight)];
      fitness' := fitness' + (delivery.priority as real) * 10.0;
    }
    if !RouteValid(inst.m, inst.zones, s.pos, delivery.pos, s.time, drone.speed) {
      violations' := violations' + 200;
    }
    var travelTime := Distance(inst.m, s.pos, delivery.pos) / drone.speed;
    var arrival := s.time + travelTime;
    if arrival > delivery.latest {
      violations' := violations' + 50;
    }
    states' := states'[k := states'[k].(pos := delivery.pos, time := arrival)];
    var distance := Distance(inst.m, s.pos, delivery.pos);
    fitness' := fitness' - distance * 0.5;
  }

  /** A gene adds no penalty exactly when it is taken cleanly, and penalties
      never decrease. */
  lemma ChargePenalty(inst: Instance, a: Accounts, g: nat, d: Delivery)
    requires Ready(inst) && g in DroneIds(inst.drones) && |a.states| == |inst.drones|
    ensures Charge(inst, a, g, d).violations >= a.violations
    ensures Charge(inst, a, g, d).violations == a.violations <==>
              Clean(inst, inst.drones[DroneIndex(inst.drones, g)], a.states[DroneIndex(inst.drones, g)], d)
  {
  }

  /** The recorded load of a drone stays within its capacity once it has
      taken anything: a parcel that does not fit is never added. */
  lemma {:induction false} LoadsWithinCapacity(inst: Instance, ch: seq<nat>, n: nat)
    requires Ready(inst) && Flyable(inst, ch) && n <= |ch| <= |inst.valid|
    ensures forall k :: 0 <= k < |inst.drones| ==>
              Replay(inst, ch, n).states[k].load == 0.0 || Replay(inst, ch, n).states[k].load <= inst.drones[k].maxWeight
  {
    if n > 0 {
      LoadsWithinCapacity(inst, ch, n - 1);
      var a := Replay(inst, ch, n - 1);
      var j := DroneIndex(inst.drones, ch[n - 1]);
      forall k | 0 <= k < |inst.drones|
        ensures Replay(inst, ch, n).states[k].load == 0.0 || Replay(inst, ch, n).states[k].load <= inst.drones[k].maxWeight
      {
        if k != j {
          assert Replay(inst, ch, n).states[k] == a.states[k];
        }
      }
    }
  }

  /** Gene `j` is taken cleanly by its drone, as the drone stood after the
      genes before it. */
  predicate CleanAt(inst: Instance, ch: seq<nat>, j: nat)
    requires Ready(inst) && Flyable(inst, ch) && j < |ch| <= |inst.valid|
  {
    var k := DroneIndex(inst.drones, ch[j]);
    Clean(inst, inst.drones[k], Replay(inst, ch, j).states[k], inst.valid[j])
  }

  /** Every one of the first `n` genes was taken cleanly. */
  predicate AllClean(inst: Instance, ch: seq<nat>, n: nat)
    requires Ready(inst) && Flyable(inst, ch) && n <= |ch| <= |inst.valid|
  {
    n == 0 || (AllClean(inst, ch, n - 1) && CleanAt(inst, ch, n - 1))
  }

  /** Each of the first `n` genes is clean when all of them are. */
  lemma {:induction false} AllCleanAt(inst: Instance, ch: seq<nat>, n: nat, j: nat)
    requires Ready(inst) && Flyable(inst, ch) && j < n <= |ch| <= |inst.valid|
    requires AllClean(inst, ch, n)
    ensures CleanAt(inst, ch, j)
  {
    if j == n - 1 {
      LastClean(inst, ch, j);
    } else {
      AllCleanAt(inst, ch, n - 1, j);
    }
  }

  /** The last gene of a clean prefix is clean. */
  lemma {:induction false} LastClean(inst: Instance, ch: seq<nat>, j: nat)
    requires Ready(inst) && Flyable(inst, ch) && j < |ch| <= |inst.valid|
    requires AllClean(inst, ch, j + 1)
    ensures CleanAt(inst, ch, j)
  {
  }

  /** All of the first `n` genes are clean when each of them is. */
  lemma {:induction false} EachCleanAll(inst: Instance, ch: seq<nat>, n: nat)
    requires Ready(inst) && Flyable(inst, ch) && n <= |ch| <= |inst.valid|
    requires forall j :: 0 <= j < n ==> CleanAt(inst, ch, j)
    ensures AllClean(inst, ch, n)
  {
    if n > 0 {
      EachCleanAll(inst, ch, n - 1);
    }
  }

  /** No penalty at all exactly when every gene so far was taken cleanly. */
  lemma {:induction false} PenaltyFree(inst: Instance, ch: seq<nat>, n: nat)
    requires Ready(inst) && Flyable(inst, ch) && n <= |ch| <= |inst.valid|
    ensures Replay(inst, ch, n).violations == 0 <==> AllClean(inst, ch, n)
  {
    if n > 0 {
      PenaltyFree(inst, ch, n - 1);
      StepPenalty(inst, ch, n);
    }
  }

  /** The penalty of gene `n - 1`, in terms of the replay. */
  lemma StepPenalty(inst: Instance, ch: seq<nat>, n: nat)
    requires Ready(inst) && Flyable(inst, ch) && 0 < n <= |ch| <= |inst.valid|
    ensures Replay(inst, ch, n).violations >= Replay(inst, ch, n - 1).violations
    ensures Replay(inst, ch, n).violations == Replay(inst, ch, n - 1).violations <==> CleanAt(inst, ch, n - 1)
  {
    ChargePenalty(inst, Replay(inst, ch, n - 1), ch[n - 1], inst.valid[n - 1]);
  }

  // ---------------------------------------------------------------- evolution

  /** Every delivery has an eligible drone, or the fallback id 1 names a
      drone of the fleet. */
  predicate FallbackFlies(inst: Instance)
    requires Ready(inst)
  {
    forall i :: 0 <= i < |inst.valid| ==> Candidates(inst, i) != [] || 1 in DroneIds(inst.drones)
  }

  /** An admissible chromosome can be replayed (`drones.find(...)!` finds
      every gene) exactly when the fallback id flies. */
  lemma AdmissibleFlyable(inst: Instance, ch: seq<nat>)
    requires Ready(inst) && AdmissibleChromosome(inst, ch)
    ensures Flyable(inst, ch) <==> FallbackFlies(inst)
  {
    if FallbackFlies(inst) {
      forall i | 0 <= i < |ch| ensures ch[i] in DroneIds(inst.drones) {
        if ch[i] in Candidates(inst, i) {
          var k :| 0 <= k < |inst.drones| && inst.drones[k].id == ch[i] && Csp.Eligible(inst.m, inst.zones, inst.drones[k], inst.valid[i]);
        }
      }
    } else {
      var i :| 0 <= i < |inst.valid| && Candidates(inst, i) == [] && 1 !in DroneIds(inst.drones);
      assert ch[i] == 1;
    }
  }

  /** A generation: `populationSize` admissible chromosomes. */
  predicate Population(inst: Instance, pop: seq<seq<nat>>)
    requires Ready(inst)
  {
    |pop| == PopulationSize && forall i :: 0 <= i < |pop| ==> AdmissibleChromosome(inst, pop[i])
  }

  /** Every chromosome of `pop` can be scored. */
  predicate Scorable(inst: Instance, pop: seq<seq<nat>>) {
    forall i :: 0 <= i < |pop| ==> Flyable(inst, pop[i]) && |pop[i]| <= |inst.valid|
  }

  lemma PopulationScorable(inst: Instance, pop: seq<seq<nat>>)
    requires Ready(inst) && FallbackFlies(inst) && Population(inst, pop)
    ensures Scorable(inst, pop)
  {
    forall i | 0 <= i < |pop| ensures Flyable(inst, pop[i]) {
      AdmissibleFlyable(inst, pop[i]);
    }
  }

  /** `population.map(calculateFitness)`. */
  function Fitnesses(inst: Instance, pop: seq<seq<nat>>): (scores: seq<real>)
    requires Ready(inst) && Scorable(inst, pop)
    ensures |scores| == |pop|
  {
    seq(|pop|, i requires 0 <= i < |pop| => Fitness(inst, pop[i]))
  }

  /** The scoring loop: one `calculateFitness` per chromosome. */
  method Scores(inst: Instance, pop: seq<seq<nat>>) returns (scores: seq<real>)
    requires Ready(inst) && Scorable(inst, pop)
    ensures scores == Fitnesses(inst, pop)
    ensures forall i :: 0 <= i < |scores| ==> scores[i] >= 0.0
  {
    scores := [];
    for i := 0 to |pop|
      invariant scores == Fitnesses(inst, pop)[..i]
    {
      var f := CalculateFitness(inst, pop[i]);
      scores := scores + [f];
    }
  }

  /** `0, 1, ..., n - 1`, the indices `fitnessScores.map((f, index) => ...)` pairs up. */
  function Indices(n: nat): (s: seq<nat>)
    ensures |s| == n && forall i :: 0 <= i < n ==> s[i] == i
  {
    if n == 0 then [] else Indices(n - 1) + [n - 1]
  }

  /** The comparator `b.fitness - a.fitness`: higher fitness first. */
  function FitterFirst(scores: seq<real>): nat -> real {
    (i: nat) => if i < |scores| then -scores[i] else 0.0
  }

  /** `sortedIndices`: the indices stably sorted by descending fitness. */
  function Ranking(scores: seq<real>): (ranking: seq<nat>)
    ensures |ranking| == |scores| && forall r :: 0 <= r < |ranking| ==> ranking[r] < |scores|
  {
    var sorted := SortBy<nat>(Indices(|scores|), FitterFirst(scores));
    SortByFacts<nat>(Indices(|scores|), FitterFirst(scores));
    assert forall r :: 0 <= r < |sorted| ==> sorted[r] < |scores| by {
      forall r | 0 <= r < |sorted| ensures sorted[r] < |scores| {
        assert sorted[r] in multiset(Indices(|scores|));
      }
    }
    sorted
  }

  /** The ranking is a permutation of the indices, fitness never rises along
      it, and indices of equal fitness keep their order. */
  lemma RankingFacts(scores: seq<real>)
    ensures multiset(Ranking(scores)) == multiset(Indices(|scores|))
    ensures forall r, q :: 0 <= r < q < |scores| ==> scores[Ranking(scores)[r]] >= scores[Ranking(scores)[q]]
    ensures forall c :: WithKey(Ranking(scores), FitterFirst(scores), c) == WithKey(Indices(|scores|), FitterFirst(scores), c)
  {
    SortByFacts<nat>(Indices(|scores|), FitterFirst(scores));
  }

  /** How many chromosomes the elitism loop copies: `i < populationSize * 0.2`
      holds for `i = 0..9`. */
  const Elites: nat := 10

  /** Parents come from `sortedIndices[Math.floor(Math.random() * populationSize * 0.5)]`. */
  const Half: nat := 25

  /** A ranking of `pop`: every entry an index into it. */
  predicate Ranked(pop: seq<seq<nat>>, ranking: seq<nat>) {
    |ranking| == |pop| && forall r :: 0 <= r < |ranking| ==> ranking[r] < |pop|
  }

  /** A crossover child: every gene is the same position's gene of a
      parent ranked in the better half. */
  predicate Crossbred(inst: Instance, pop: seq<seq<nat>>, ranking: seq<nat>, ch: seq<nat>)
    requires Ready(inst) && Population(inst, pop) && Ranked(pop, ranking)
  {
    && |ch| == |inst.valid|
    && forall k :: 0 <= k < |ch| ==> exists r :: 0 <= r < Half && ch[k] == pop[ranking[r]][k]
  }

  /** A bred chromosome: every gene is the same position's gene of a parent
      ranked in the better half, or an eligible drone put there by mutation. */
  predicate Offspring(inst: Instance, pop: seq<seq<nat>>, ranking: seq<nat>, ch: seq<nat>)
    requires Ready(inst) && Population(inst, pop) && Ranked(pop, ranking)
  {
    && |ch| == |inst.valid|
    && forall k :: 0 <= k < |ch| ==>
         ch[k] in Candidates(inst, k) || exists r :: 0 <= r < Half && ch[k] == pop[ranking[r]][k]
  }

  /** The two parents `sortedIndices[...]` drawn from the better half and
      their crossover. */
  function Mate(pop: seq<seq<nat>>, ranking: seq<nat>, rand: Draws, c: nat): (children: (seq<nat>, seq<nat>))
    requires ValidDraws(rand) && Ranked(pop, ranking) && Half <= |ranking|
  {
    Crossover(pop[ranking[Pick(rand(c), Half)]], pop[ranking[Pick(rand(c + 1), Half)]], rand(c + 2))
  }

  /** Both children of a mating are admissible crossbreeds. */
  lemma MateFacts(inst: Instance, pop: seq<seq<nat>>, ranking: seq<nat>, rand: Draws, c: nat)
    requires Ready(inst) && ValidDraws(rand) && Population(inst, pop) && Ranked(pop, ranking)
    ensures AdmissibleChromosome(inst, Mate(pop, ranking, rand, c).0) && Crossbred(inst, pop, ranking, Mate(pop, ranking, rand, c).0)
    ensures AdmissibleChromosome(inst, Mate(pop, ranking, rand, c).1) && Crossbred(inst, pop, ranking, Mate(pop, ranking, rand, c).1)
  {
    var a, b := Pick(rand(c), Half), Pick(rand(c + 1), Half);
    var p1, p2 := pop[ranking[a]], pop[ranking[b]];
    CrossoverFacts(p1, p2, rand(c + 2));
    CrossoverAdmissible(inst, p1, p2, rand(c + 2));
    var (x1, x2) := Crossover(p1, p2, rand(c + 2));
    forall k | 0 <= k < |x1|
      ensures (exists r :: 0 <= r < Half && x1[k] == pop[ranking[r]][k])
           && (exists r :: 0 <= r < Half && x2[k] == pop[ranking[r]][k])
    {
      assert p1 == pop[ranking[a]] && p2 == pop[ranking[b]];
    }
  }

  /** Mutating an admissible crossbreed gives admissible offspring. */
  lemma MutatedOffspring(inst: Instance, pop: seq<seq<nat>>, ranking: seq<nat>, child: seq<nat>, rand: Draws, c: nat)
    requires Ready(inst) && ValidDraws(rand) && Population(inst, pop) && Ranked(pop, ranking)
    requires AdmissibleChromosome(inst, child) && Crossbred(inst, pop, ranking, child)
    ensures AdmissibleChromosome(inst, Mutate(inst, child, rand, c, 0).0)
    ensures Offspring(inst, pop, ranking, Mutate(inst, child, rand, c, 0).0)
  {
    MutateAdmissible(inst, child, rand, c);
    var m := Mutate(inst, child, rand, c, 0).0;
    forall k | 0 <= k < |m|
      ensures m[k] in Candidates(inst, k) || exists r :: 0 <= r < Half && m[k] == pop[ranking[r]][k]
    {
      assert m[k] == child[0 + k] || m[k] in Candidates(inst, 0 + k);
    }
  }

  /** `Math.max(...scores)` over a non-empty list. */
  function MaxOf(s: seq<real>): (m: real)
    requires s != []
    ensures (forall i :: 0 <= i < |s| ==> s[i] <= m) && m in s
    decreases |s|
  {
    if |s| == 1 then s[0]
    else
      var prev := s[..|s| - 1];
      assert forall i :: 0 <= i < |prev| ==> prev[i] == s[i];
      assert MaxOf(prev) in prev;
      Max(MaxOf(prev), s[|s| - 1])
  }

  /** `indexOf`: the first position holding `x`, or -1 when there is none. */
  function IndexOf(s: seq<real>, x: real): (k: int)
    ensures -1 <= k < |s|
    ensures k == -1 <==> x !in s
    ensures k >= 0 ==> s[k] == x && forall j :: 0 <= j < k ==> s[j] != x
    decreases |s|
  {
    if s == [] then -1
    else if s[0] == x then 0
    else
      var r := IndexOf(s[1..], x);
      assert forall j :: 0 < j < |s| ==> s[j] == s[1..][j - 1];
      assert x in s <==> x in s[1..];
      if r == -1 then -1 else r + 1
  }

  /** The first-ranked chromosome has the largest fitness. */
  lemma TopRanked(scores: seq<real>)
    requires scores != []
    ensures scores[Ranking(scores)[0]] == MaxOf(scores)
  {
    RankingFacts(scores);
    var ranking := Ranking(scores);
    var i :| 0 <= i < |scores| && scores[i] == MaxOf(scores);
    assert Indices(|scores|)[i] == i;
    assert i in multiset(ranking);
    var r :| 0 <= r < |ranking| && ranking[r] == i;
    if r > 0 {
      assert scores[ranking[0]] >= scores[ranking[r]];
    }
  }

  /** One pass of the evolution loop: score and rank the generation, copy
      the ten best unchanged (`newPopulation.push([...population[sortedIndices[i]]])`
      while `i < populationSize * 0.2`), then fill up with mutated
      crossover children of better-half parents, the second child only
      when there is room for it. */
  method NextGeneration(inst: Instance, pop: seq<seq<nat>>, rand: Draws, c: nat) returns (next: seq<seq<nat>>, c': nat)
    requires Ready(inst) && FallbackFlies(inst) && ValidDraws(rand) && Population(inst, pop) && Scorable(inst, pop)
    ensures Population(inst, next) && Scorable(inst, next)
    ensures forall i :: 0 <= i < Elites ==> next[i] == pop[Ranking(Fitnesses(inst, pop))[i]]
    ensures forall i :: Elites <= i < |next| ==> Offspring(inst, pop, Ranking(Fitnesses(inst, pop)), next[i])
    ensures MaxOf(Fitnesses(inst, next)) >= MaxOf(Fitnesses(inst, pop))
  {
    var scores := Scores(inst, pop);
    var ranking := Ranking(scores);
    var elites := CopyElites(pop, ranking);
    next, c' := Fill(inst, pop, ranking, elites, rand, c);
    assert forall j :: 0 <= j < Elites ==> next[j] == next[..Elites][j];
    PopulationScorable(inst, next);
    BestKept(inst, pop, next);
  }

  /** The elitism loop: `newPopulation.push([...population[sortedIndices[i]]])`
      while `i < populationSize * 0.2`, that is ten times. */
  method CopyElites(pop: seq<seq<nat>>, ranking: seq<nat>) returns (elites: seq<seq<nat>>)
    requires Ranked(pop, ranking) && |pop| == PopulationSize
    ensures |elites| == Elites && forall j :: 0 <= j < Elites ==> elites[j] == pop[ranking[j]]
  {
    elites := [];
    var i := 0;
    while (i as real) < (PopulationSize as real) * 0.2
      invariant 0 <= i <= Elites && |elites| == i
      invariant forall j :: 0 <= j < i ==> elites[j] == pop[ranking[j]]
    {
      elites := elites + [pop[ranking[i]]];
      i := i + 1;
    }
  }

  /** A generation under construction: the elites first, then offspring,
      every chromosome admissible. */
  predicate Growing(inst: Instance, pop: seq<seq<nat>>, ranking: seq<nat>, elites: seq<seq<nat>>, next: seq<seq<nat>>)
    requires Ready(inst) && Population(inst, pop) && Ranked(pop, ranking)
  {
    && |elites| == Elites <= |next| <= PopulationSize && next[..Elites] == elites
    && (forall j :: 0 <= j < |next| ==> AdmissibleChromosome(inst, next[j]))
    && (forall j :: Elites <= j < |next| ==> Offspring(inst, pop, ranking, next[j]))
  }

  /** What one pass of the breeding loop pushes: the mutated first child of
      two better-half parents, then, when `room` says a second one fits, the
      mutated second child; and the cursor after the draws. */
  function Brood(inst: Instance, pop: seq<seq<nat>>, ranking: seq<nat>, room: bool, rand: Draws, c: nat): (res: (seq<seq<nat>>, nat))
    requires Ready(inst) && ValidDraws(rand) && Population(inst, pop) && Ranked(pop, ranking)
  {
    var (x1, x2) := Mate(pop, ranking, rand, c);
    MateFacts(inst, pop, ranking, rand, c);
    var (m1, c1) := Mutate(inst, x1, rand, c + 3, 0);
    if room then
      var (m2, c2) := Mutate(inst, x2, rand, c1, 0);
      ([m1, m2], c2)
    else ([m1], c1)
  }

  /** A brood is one or two admissible offspring. */
  lemma BroodFacts(inst: Instance, pop: seq<seq<nat>>, ranking: seq<nat>, room: bool, rand: Draws, c: nat)
    requires Ready(inst) && ValidDraws(rand) && Population(inst, pop) && Ranked(pop, ranking)
    ensures var kids := Brood(inst, pop, ranking, room, rand, c).0;
      && |kids| == (if room then 2 else 1)
      && forall j :: 0 <= j < |kids| ==> AdmissibleChromosome(inst, kids[j]) && Offspring(inst, pop, ranking, kids[j])
  {
    var (x1, x2) := Mate(pop, ranking, rand, c);
    MateFacts(inst, pop, ranking, rand, c);
    var (m1, c1) := Mutate(inst, x1, rand, c + 3, 0);
    MutatedOffspring(inst, pop, ranking, x1, rand, c + 3);
    MutatedOffspring(inst, pop, ranking, x2, rand, c1);
    if room {
      var (m2, c2) := Mutate(inst, x2, rand, c1, 0);
      assert Brood(inst, pop, ranking, room, rand, c) == ([m1, m2], c2);
    } else {
      assert Brood(inst, pop, ranking, room, rand, c) == ([m1], c1);
    }
  }

  /** Pushing admissible offspring keeps a generation under construction. */
  lemma GrowingAppend(inst: Instance, pop: seq<seq<nat>>, ranking: seq<nat>, elites: seq<seq<nat>>,
                      next: seq<seq<nat>>, kids: seq<seq<nat>>)
    requires Ready(inst) && Population(inst, pop) && Ranked(pop, ranking)
    requires Growing(inst, pop, ranking, elites, next) && |next| + |kids| <= PopulationSize
    requires forall j :: 0 <= j < |kids| ==> AdmissibleChromosome(inst, kids[j]) && Offspring(inst, pop, ranking, kids[j])
    ensures Growing(inst, pop, ranking, elites, next + kids)
  {
    assert (next + kids)[..Elites] == next[..Elites];
    forall j | 0 <= j < |next + kids|
      ensures AdmissibleChromosome(inst, (next + kids)[j])
      ensures j >= Elites ==> Offspring(inst, pop, ranking, (next + kids)[j])
    {
      if j >= |next| {
        assert (next + kids)[j] == kids[j - |next|];
      }
    }
  }

  /** The generation the breeding loop builds from `next` with the draws
      from `c` on, and the cursor it leaves: broods are pushed while the
      generation is short of `populationSize`. */
  function Bred(inst: Instance, pop: seq<seq<nat>>, ranking: seq<nat>, next: seq<seq<nat>>, rand: Draws, c: nat)
    : (res: (seq<seq<nat>>, nat))
    requires Ready(inst) && ValidDraws(rand) && Population(inst, pop) && Ranked(pop, ranking)
    decreases PopulationSize - |next|
  {
    if |next| >= PopulationSize then (next, c)
    else
      var brood := Brood(inst, pop, ranking, |next| + 1 < PopulationSize, rand, c);
      BroodFacts(inst, pop, ranking, |next| + 1 < PopulationSize, rand, c);
      Bred(inst, pop, ranking, next + brood.0, rand, brood.1)
  }

  /** Breeding from a generation under construction ends with exactly
      `populationSize` chromosomes, still under construction: the elites
      first, every later one admissible offspring. */
  lemma {:induction false} BredGrowing(inst: Instance, pop: seq<seq<nat>>, ranking: seq<nat>, elites: seq<seq<nat>>,
                                       next: seq<seq<nat>>, rand: Draws, c: nat)
    requires Ready(inst) && ValidDraws(rand) && Population(inst, pop) && Ranked(pop, ranking)
    requires Growing(inst, pop, ranking, elites, next)
    ensures Growing(inst, pop, ranking, elites, Bred(inst, pop, ranking, next, rand, c).0)
    ensures |Bred(inst, pop, ranking, next, rand, c).0| == PopulationSize
    decreases PopulationSize - |next|
  {
    if |next| < PopulationSize {
      var brood := Brood(inst, pop, ranking, |next| + 1 < PopulationSize, rand, c);
      BroodFacts(inst, pop, ranking, |next| + 1 < PopulationSize, rand, c);
      GrowingAppend(inst, pop, ranking, elites, next, brood.0);
      BredGrowing(inst, pop, ranking, elites, next + brood.0, rand, brood.1);
    }
  }

  /** The breeding loop: fill the generation up to `populationSize`. */
  method Fill(inst: Instance, pop: seq<seq<nat>>, ranking: seq<nat>, elites: seq<seq<nat>>, rand: Draws, c: nat)
    returns (next: seq<seq<nat>>, c': nat)
    requires Ready(inst) && ValidDraws(rand) && Population(inst, pop) && Ranked(pop, ranking)
    requires |elites| == Elites && forall j :: 0 <= j < Elites ==> AdmissibleChromosome(inst, elites[j])
    ensures (next, c') == Bred(inst, pop, ranking, elites, rand, c)
    ensures Growing(inst, pop, ranking, elites, next) && |next| == PopulationSize
  {
    next, c' := elites, c;
    assert next[..Elites] == elites;
    while |next| < PopulationSize
      invariant Growing(inst, pop, ranking, elites, next)
      invariant Bred(inst, pop, ranking, elites, rand, c) == Bred(inst, pop, ranking, next, rand, c')
      decreases PopulationSize - |next|
    {
      var brood := Brood(inst, pop, ranking, |next| + 1 < PopulationSize, rand, c');
      BroodFacts(inst, pop, ranking, |next| + 1 < PopulationSize, rand, c');
      GrowingAppend(inst, pop, ranking, elites, next, brood.0);
      next, c' := next + brood.0, brood.1;
    }
  }

  /** A generation that starts with the best chromosome of the previous one
      is at least as fit. */
  lemma BestKept(inst: Instance, pop: seq<seq<nat>>, next: seq<seq<nat>>)
    requires Ready(inst) && Scorable(inst, pop) && Scorable(inst, next) && pop != [] && next != []
    requires next[0] == pop[Ranking(Fitnesses(inst, pop))[0]]
    ensures MaxOf(Fitnesses(inst, next)) >= MaxOf(Fitnesses(inst, pop))
  {
    TopRanked(Fitnesses(inst, pop));
    assert Fitnesses(inst, next)[0] == Fitnesses(inst, pop)[Ranking(Fitnesses(inst, pop))[0]];
  }

  /** The evolution loop: `generations` passes. The best fitness never
      drops, since the best chromosome is always copied. */
  method Evolve(inst: Instance, pop: seq<seq<nat>>, rand: Draws, c: nat) returns (final: seq<seq<nat>>, c': nat)
    requires Ready(inst) && FallbackFlies(inst) && ValidDraws(rand) && Population(inst, pop) && Scorable(inst, pop)
    ensures Population(inst, final) && Scorable(inst, final)
    ensures MaxOf(Fitnesses(inst, final)) >= MaxOf(Fitnesses(inst, pop))
  {
    final, c' := pop, c;
    for gen := 0 to Generations
      invariant Population(inst, final) && Scorable(inst, final)
      invariant MaxOf(Fitnesses(inst, final)) >= MaxOf(Fitnesses(inst, pop))
    {
      final, c' := NextGeneration(inst, final, rand, c');
    }
  }

  /** `Array.from({ length: populationSize }, createRandomChromosome)`. */
  method InitialPopulation(inst: Instance, rand: Draws, c: nat) returns (pop: seq<seq<nat>>, c': nat)
    requires Ready(inst) && ValidDraws(rand)
    ensures Population(inst, pop)
  {
    pop, c' := [], c;
    for i := 0 to PopulationSize
      invariant |pop| == i && forall j :: 0 <= j < i ==> AdmissibleChromosome(inst, pop[j])
    {
      var (ch, c1) := RandomChromosome(inst, rand, c', 0);
      assert forall k :: 0 <= k < |ch| ==> Admissible(inst, 0 + k, ch[k]);
      pop, c' := pop + [ch], c1;
    }
  }

  // ---------------------------------------------------------------- result

  /** The entries `bestChromosome.forEach((droneId, index) => ...)` groups:
      the delivery's id with its gene, position by position. */
  function GenePairs(valid: seq<Delivery>, best: seq<nat>): (pairs: seq<Pair>)
    requires |best| <= |valid|
    ensures |pairs| == |best|
  {
    seq(|best|, i requires 0 <= i < |best| => (valid[i].id, best[i]))
  }

  /** Every delivery is in the route of the drone its gene names, a route
      holds nothing else, and no route is empty. */
  ghost predicate RoutesOf(valid: seq<Delivery>, best: seq<nat>, routes: map<nat, seq<nat>>)
    requires |best| <= |valid|
  {
    && (forall i :: 0 <= i < |best| ==> best[i] in routes && valid[i].id in routes[best[i]])
    && (forall g, x :: g in routes && x in routes[g] ==> exists i :: 0 <= i < |best| && valid[i].id == x && best[i] == g)
    && (forall g :: g in routes ==> routes[g] != [])
  }

  /** Grouping the gene pairs gives every drone the deliveries of its genes. */
  lemma ChromosomeRoutes(valid: seq<Delivery>, best: seq<nat>, routes: map<nat, seq<nat>>)
    requires |best| <= |valid|
    requires routes.Keys == Carriers(GenePairs(valid, best))
    requires forall g :: g in routes ==> routes[g] == Bucket(GenePairs(valid, best), g)
    ensures RoutesOf(valid, best, routes)
  {
    var pairs := GenePairs(valid, best);
    forall g | g in routes ensures routes[g] != [] {
      var i :| 0 <= i < |pairs| && pairs[i].1 == g;
      assert pairs[i] in pairs;
      BucketMembership(pairs, g, pairs[i].0);
    }
    forall g, x | g in routes && x in routes[g]
      ensures exists i :: 0 <= i < |best| && valid[i].id == x && best[i] == g
    {
      BucketMembership(pairs, g, x);
      var i :| 0 <= i < |pairs| && pairs[i] == (x, g);
      assert valid[i].id == x && best[i] == g;
    }
    forall i | 0 <= i < |best| ensures best[i] in routes && valid[i].id in routes[best[i]] {
      assert pairs[i] == (valid[i].id, best[i]);
      assert best[i] in Carriers(pairs);
      BucketMembership(pairs, best[i], valid[i].id);
    }
  }

  /** Routes grouped from a flyable chromosome name known drones and
      deliveries. */
  lemma ChromosomeRoutesKnown(inst: Instance, best: seq<nat>, routes: map<nat, seq<nat>>)
    requires Flyable(inst, best) && |best| <= |inst.valid| && RoutesOf(inst.valid, best, routes)
    ensures RoutesKnown(inst.drones, inst.valid, routes)
  {
    forall g | g in routes ensures g in DroneIds(inst.drones) {
      assert routes[g][0] in routes[g];
    }
    forall g, k | g in routes && 0 <= k < |routes[g]| ensures routes[g][k] in DeliveryIds(inst.valid) {
      assert routes[g][k] in routes[g];
    }
  }

  /** The result of `geneticAlgorithm` for chromosome `best`: its genes
      grouped into routes in chromosome order, the routes replayed in
      drone-id order, every kept delivery counted as completed. */
  method ReportBest(inst: Instance, best: seq<nat>) returns (result: RouteResult)
    requires Flyable(inst, best) && |best| == |inst.valid|
    ensures result.completed == |inst.valid|
    ensures RoutesOf(inst.valid, best, result.routes) && RoutesKnown(inst.drones, inst.valid, result.routes)
    ensures result.totalDistance == RoutesDistance(inst.m, inst.drones, inst.valid, result.routes, KeyOrder(inst.drones, result.routes))
    ensures result.energy == RoutesEnergy(inst.m, inst.drones, inst.valid, result.routes, KeyOrder(inst.drones, result.routes))
  {
    var pairs := GenePairs(inst.valid, best);
    var routes, completed := GroupRoutes(pairs);
    ChromosomeRoutes(inst.valid, best, routes);
    ChromosomeRoutesKnown(inst, best, routes);
    var totalDistance, energy := RouteTotals(inst.m, inst.drones, inst.valid, routes);
    result := RouteResult(routes, totalDistance, completed, energy);
  }

  /** The position `indexOf(Math.max(...scores))` finds: the first score
      that no other score exceeds. */
  function FirstFittest(scores: seq<real>): (k: nat)
    requires scores != []
    ensures k < |scores|
    ensures forall j :: 0 <= j < |scores| ==> scores[j] <= scores[k]
    ensures forall j :: 0 <= j < k ==> scores[j] < scores[k]
  {
    var top := MaxOf(scores);
    var k := IndexOf(scores, top);
    assert forall j :: 0 <= j < k ==> scores[j] != top && scores[j] <= top;
    k
  }

  /** `geneticAlgorithm`. The deliveries outside every zone at the start of
      their window are kept in input order; an initial population evolves
      for 100 generations and the first chromosome of largest fitness is
      reported: its genes grouped into routes in chromosome order, the routes
      replayed in drone-id order, every kept delivery counted as completed.
      When some delivery has no eligible drone and the fleet has no drone 1,
      the fallback gene makes `drones.find(...)!` fail and the first fitness
      evaluation throws; that outcome is `None`. */
  method GeneticAlgorithm(m: MathLib, zones: seq<Zone>, drones: seq<Drone>, deliveries: seq<Delivery>, rand: Draws)
    returns (result: Option<RouteResult>, ghost final: seq<seq<nat>>, ghost bestIndex: nat)
    requires PositiveSpeeds(drones) && UniqueDroneIds(drones) && ValidDraws(rand)
    ensures var inst := Instance(m, zones, drones, Csp.Unblocked(m, zones, deliveries));
      result.None? <==> !FallbackFlies(inst)
    ensures var inst := Instance(m, zones, drones, Csp.Unblocked(m, zones, deliveries));
      result.Some? ==>
        && Population(inst, final) && Scorable(inst, final)
        && bestIndex == FirstFittest(Fitnesses(inst, final))
        && result.value.completed == |inst.valid|
        && RoutesOf(inst.valid, final[bestIndex], result.value.routes)
        && RoutesKnown(drones, inst.valid, result.value.routes)
        && result.value.totalDistance == RoutesDistance(m, drones, inst.valid, result.value.routes, KeyOrder(drones, result.value.routes))
        && result.value.energy == RoutesEnergy(m, drones, inst.valid, result.value.routes, KeyOrder(drones, result.value.routes))
  {
    var valid := Csp.Unblocked(m, zones, deliveries);
    var inst := Instance(m, zones, drones, valid);
    if !FallbackFlies(inst) {
      return None, [], 0;
    }
    var pop, c := InitialPopulation(inst, rand, 0);
    PopulationScorable(inst, pop);
    var last;
    last, c := Evolve(inst, pop, rand, c);
    var scores := Scores(inst, last);
    var k := FirstFittest(scores);
    final, bestIndex := last, k;
    var report := ReportBest(inst, last[k]);
    result := Some(report);
  }
}
