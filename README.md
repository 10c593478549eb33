# Drone delivery assignment engine — a Dafny model

This project models the engine of the drone delivery planner. A fleet of drones
has start points, capacities and speeds. Requests have a point, a weight, a
priority and a time window. The planner assigns requests to drones while
avoiding no-fly zones, which may move with time. It reports each drone's route
(delivery ids), the number of deliveries placed, the total distance flown and
the energy used. Energy is distance × weight × 0.1 per leg.

Two sets of solvers are modelled.

The interactive page (`app/page.tsx`) has three solvers:
- a greedy "A*" that serves requests in priority order and picks the drone with the lowest score;
- a backtracking CSP that picks the most constrained variable and tries its drones in descending order of their impact on the other deliveries (the opposite of the least-constraining-value order the source's comment names), undoing its tables in place;
- a genetic algorithm: one gene (drone id) per request, fitness by simulated flight, elitism, crossover and mutation.

The page's solvers share three helpers:
- moving-zone geometry (`getDynamicZoneCoordinates`);
- point-in-polygon zone tests;
- a sampled straight-leg check (`isRouteValid`).

The library (`lib/algorithms.js`) has three classes, `AStarAlgorithm`,
`CSPAlgorithm` and `GeneticAlgorithm`. They are simpler variants with static
zones, whole-assignment constraints and tournament selection.

Modules, one per part of the program:

| file | module | models |
|---|---|---|
| `types.dfy` | `Types` | points, drones, deliveries, zones, results; distance; JavaScript `%`, `Math.ceil`, `Math.floor(Math.random()*n)`; `find` by id |
| `zones.dfy` | `Zones` | moving zone coordinates, ray-casting point-in-polygon, the page's and the library's no-fly tests |
| `route_check.dfy` | `RouteCheck` | the sampled leg check |
| `stable_sort.dfy` | `StableSort` | `Array.prototype.sort`, which is stable, as an insertion sort by a real key |
| `schedule.dfy` | `Schedule` | what flying a route means: load, clock, path length and energy, and the capacity, deadline, window and zone properties of a route |
| `metrics.dfy` | `Metrics` | grouping (delivery, drone) pairs into routes, and the distance/energy totals over `Object.entries` of the routes |
| `greedy.dfy` | `Greedy` | the page's `aStarAlgorithm` |
| `csp.dfy` | `Csp` | the page's `cspAlgorithm`; its backtracking state is the class `CspSearch` |
| `genetic.dfy` | `Genetic` | the page's `geneticAlgorithm` |
| `lib_astar.dfy` | `LibAStar` | class `AStarAlgorithm` |
| `lib_csp.dfy` | `LibCsp` | class `CSPAlgorithm` |
| `lib_genetic.dfy` | `LibGenetic` | class `GeneticAlgorithm` |

How the source's runtime is represented:
- Numbers are `real`s. Ids are `nat`s.
- The square root, sine, cosine and π come in a `MathLib` record passed as a parameter. `ValidMath` states the two facts the proofs use: √0 = 0, and the root of a non-negative number is non-negative.
- `Math.random()` is a stream of draws in [0, 1), read through a cursor that every call moves on by one.
- JavaScript enumerates an object's integer keys in ascending numeric order. So each `Object.entries` walk over a map keyed by drone id or delivery id is modelled as a walk in ascending key order.

## Model

| member | source | states |
|---|---|---|
| Types.DistanceFacts | app/page.tsx:373-375 | the Euclidean distance is never negative and is zero from a point to itself |
| Types.Ceil | app/page.tsx:415 | `Math.ceil` gives the least integer not below its argument |
| Types.JsRem | app/page.tsx:91 | JavaScript's `%` of a non-negative number by a positive one lies in [0, divisor) |
| Types.Pick | app/page.tsx:735 | `Math.floor(Math.random() * n)` with a draw in [0, 1) is an index below `n` |
| Types.DroneIndex | app/page.tsx:598 | `drones.find(d => d.id === id)` lands on the first drone carrying that id |
| Types.DeliveryIndex | app/page.tsx:548 | `find` by delivery id lands on the first delivery carrying that id |
| Types.IdsOf | app/page.tsx:543 | `map(d => d.id)` keeps the length, and its i-th entry is the i-th delivery's id |
| Zones.Clamp | app/page.tsx:102 | `Math.max(5, Math.min(95, v))` lies in [5, 95] and leaves values already in that range unchanged |
| Zones.Shift | app/page.tsx:100-103 | an offset polygon keeps its vertex count and lies inside the map square [5, 95]² |
| Zones.LinearFold | app/page.tsx:109-110 | the back-and-forth progress of a linear zone stays in [0, 1] |
| Zones.MovedCoordinates | app/page.tsx:93-132 | a pattern whose branch is not taken leaves the coordinates unchanged; a taken branch keeps the vertex count on the map |
| Zones.DynamicZoneCoordinates | app/page.tsx:85-133 | static zones and zones without a pattern keep their coordinates; moving zones keep their vertex count and stay on the map |
| Zones.CycleRepeats | app/page.tsx:91 | the time within the cycle is the same 120 minutes later |
| Zones.CoordinatesArePeriodic | app/page.tsx:85-133 | every zone is back in the same place every 120 minutes |
| Zones.PointInPolygon | app/page.tsx:387-402 | the ray-casting loop returns the crossing-parity definition of containment |
| Zones.OutsideVerticalExtentNotContained | app/page.tsx:391-401 | a point above or below every vertex is never inside the polygon |
| Zones.InAnyZoneExists | app/page.tsx:378-404 | a point is blocked exactly when some zone is active at that time and contains the point at its position for that time |
| Zones.InAnyStaticZoneExists | lib/algorithms.js:13-32 | the library's test: blocked exactly when some zone is active and its fixed polygon contains the point |
| Zones.InactiveZonesBlockNothing | app/page.tsx:381 | at a time outside every zone's active window nothing is blocked, under either test |
| Zones.StaticVariantAgrees | lib/algorithms.js:13-32 | when no zone is dynamic, the library's test and the page's test agree |
| Zones.IsInNoFlyZone | app/page.tsx:378-404 | the `some` loop returns exactly the page's blocked predicate |
| Zones.IsInStaticNoFlyZone | lib/algorithms.js:13-32 | the `some` loop returns exactly the library's blocked predicate |
| RouteCheck.IsRouteValid | app/page.tsx:407-430 | a leg is valid exactly when none of its ⌈d/2⌉+1 evenly spaced samples is blocked at its time along the flight |
| RouteCheck.SampleInZone | app/page.tsx:418-425 | the i-th sample's position and time and its zone test |
| RouteCheck.SampleEndpoints | app/page.tsx:418-423 | the first sample is the start at the start time, and the last is the target at the arrival time |
| RouteCheck.EndpointsChecked | app/page.tsx:417-428 | a valid leg leaves from a clear start point and lands on a point that is clear at the arrival time |
| RouteCheck.SampleChecked | app/page.tsx:417-428 | on a valid leg every sample is clear at its time |
| RouteCheck.ZeroLengthRouteValid | app/page.tsx:413-418 | a leg from a point to itself is valid: its only sample has progress 0/0, and no zone contains a NaN position |
| StableSort.SortByFacts | app/page.tsx:441 | the sort returns an ordered permutation that keeps the input order among equal keys |
| StableSort.InsertWithKey | app/page.tsx:441 | one insertion step keeps the relative order of the elements with any given key |
| Schedule.Snoc | app/page.tsx:494-503 | appending a delivery moves the drone to it, adds its weight, and adds the leg's length, time and energy |
| Schedule.EndTimeIsLengthOverSpeed | app/page.tsx:495-503 | a drone's clock after a route equals the route's length divided by its speed |
| Schedule.CapacityExtend | app/page.tsx:465 | a longer route stays within capacity exactly when the shorter one did and the new load fits |
| Schedule.DeadlinesExtend | app/page.tsx:467-471 | a longer route meets every deadline exactly when the shorter one did and the new arrival is on time |
| Schedule.WindowsExtend | lib/algorithms.js:169-176 | the same for full windows, neither early nor late |
| Schedule.ArrivalExtend | lib/algorithms.js:74 | a longer route lands clear of the zones exactly when the shorter one did and the new point is clear at arrival |
| Schedule.LegsExtend | app/page.tsx:474-477 | a longer route has only valid legs exactly when the shorter one did and its new leg is valid |
| Schedule.PathTotalsNonNegative | app/page.tsx:494-498 | with non-negative weights, a route's length and energy are non-negative |
| Schedule.CapacityIsTotalLoad | lib/algorithms.js:139-149 | with non-negative weights, every prefix fits exactly when the whole load fits |
| Schedule.CheckWindows | lib/algorithms.js:166-176 | the replay loop decides exactly whether each arrival falls in its window |
| Schedule.WindowsPrefix | lib/algorithms.js:169-176 | a route that meets its windows meets them on every prefix |
| Metrics.GroupRoutes | app/page.tsx:683-687 | grouping the pairs gives a key per drone used, each listing its deliveries in pair order, and counts the pairs |
| Metrics.BucketMembership | app/page.tsx:683-686 | a delivery is listed under a drone exactly when that pair was assigned |
| Metrics.BucketsDisjoint | app/page.tsx:683-686 | when delivery ids are distinct, no delivery is listed under two drones |
| Metrics.Lookup | app/page.tsx:694-695 | looking each route id up gives, position by position, the delivery with that id |
| Metrics.KeyOrderFacts | app/page.tsx:690 | the entries walk visits exactly the drones that have a route |
| Metrics.RouteTotals | app/page.tsx:689-701 | the totals loop returns the sums, over the drones in key order, of each route's length and energy from the drone's start |
| Metrics.ReplayRoute | app/page.tsx:691-700 | the inner loop returns one route's length and energy |
| Metrics.TotalsSnoc | app/page.tsx:690-701 | one more drone adds exactly its route's length and energy |
| Metrics.TotalsNonNegative | app/page.tsx:689-701 | with non-negative weights the reported distance and energy are non-negative |
| Greedy.ByPriorityFacts | app/page.tsx:441 | requests are served highest priority first, each exactly once, ties in input order |
| Greedy.ScoreOfCandidate | app/page.tsx:479-482 | for a drone that passed the deadline check the lateness term vanishes: score = distance + (6 − priority)·10 |
| Greedy.ChooseDrone | app/page.tsx:459-488 | none is found exactly when no drone passes the capacity, deadline and leg checks; otherwise the chosen drone passes them, has the lowest score (the first such drone on ties) and is the nearest of them |
| Greedy.StartsClearMeans | app/page.tsx:454-457 | a route never holds a delivery whose point is blocked at the start of its window |
| Greedy.Assign | app/page.tsx:490-506 | the commit moves the chosen drone and adds the leg to its route, the assigned set, the count and both totals |
| Greedy.Step | app/page.tsx:450-508 | one pass keeps the loop invariant and is one step of the reference run `Greedy.Run`. The plan is unchanged exactly when the id is already assigned, the point is in a zone at the start of its window, or no drone passes the checks. Otherwise the delivery joins the route of the drone with the lowest score, the first such on ties |
| Greedy.StepIsRun | app/page.tsx:450-508 | a pass that skips for one of those three reasons, or commits to the best drone, is one step of `Greedy.Run` |
| Greedy.Place | app/page.tsx:490-507 | placing a delivery with a drone that passed every check keeps the loop invariant |
| Greedy.Skip | app/page.tsx:451-457 | skipping a delivery keeps the loop invariant |
| Greedy.Start | app/page.tsx:442-448 | drones at their start points with no load at time 0 satisfy the loop invariant |
| Greedy.Sound | app/page.tsx:433-519 | the invariant gives the promise about every route: reported as flown, feasible, clear of blocked points, in priority order |
| Greedy.FeasibleExtends | app/page.tsx:463-477 | a feasible route extended by a delivery that passed the checks is still feasible (capacity, deadlines, valid legs) |
| Greedy.OrderExtends | app/page.tsx:441-450 | routes keep non-increasing priority as requests are served in sorted order |
| Greedy.IdsAfter | app/page.tsx:451-505 | adding an unassigned delivery keeps the routed ids distinct and adds its id to the assigned set |
| Greedy.TallyStep | app/page.tsx:494-506 | the counters stay equal to the plan's size, length and energy after a commit |
| Greedy.CountUpdate | app/page.tsx:506 | appending to one route increases the delivery count by one |
| Greedy.LengthSumStep | app/page.tsx:497 | appending to one route adds exactly the new leg to the total distance |
| Greedy.EnergySumStep | app/page.tsx:498 | appending to one route adds exactly the new leg's energy to the total |
| Greedy.AStar | app/page.tsx:433-519 | every reported route is flyable: within capacity, on time and along valid legs. It starts no blocked delivery, keeps priority order and takes only requested deliveries, and no id is routed twice. The count, distance and energy are the plan's. The plan is the reference run `Greedy.Run` over the priority order, from every drone at its start with an empty route |
| Csp.Unblocked | app/page.tsx:531-532 | exactly the deliveries whose point is clear at the start of their window are kept, none more often than in the input |
| Csp.UnblockedAppend | app/page.tsx:531-532 | the filter keeps the input order: filtering a concatenation concatenates the filtered parts, and a single delivery is kept exactly when its point is clear |
| Csp.Limited | app/page.tsx:536-539 | scenario 2 keeps the first 30 deliveries (all if fewer); otherwise all are kept |
| Csp.EligibleIds | app/page.tsx:549-556 | a drone is in the domain exactly when it can lift the delivery and its leg from its start at time 0 is valid |
| Csp.DomainFacts | app/page.tsx:547-565 | each domain holds exactly the eligible drones, nearest start first |
| Csp.BuildDomains | app/page.tsx:547-565 | the domain loop builds every delivery's domain |
| Csp.Solvable | app/page.tsx:568 | exactly the deliveries with a non-empty domain remain, without repeats |
| Csp.ConsistentDronesFacts | app/page.tsx:621-643 | the filter keeps exactly the drones consistent with the current tables |
| Csp.OptionsFacts | app/page.tsx:642-643 | a delivery's options are exactly its domain drones consistent with the current tables |
| Csp.SelectVariableFacts | app/page.tsx:619-626 | the chosen delivery has the fewest consistent drones, and it is the first such delivery |
| Csp.Remove | app/page.tsx:639 | the remaining list holds exactly the other deliveries and is shorter |
| Csp.RemoveDistinct | app/page.tsx:639 | removing a delivery keeps the list free of repeats |
| Csp.ValueOrderFacts | app/page.tsx:642-649 | the drones tried are exactly the consistent ones in the domain, in non-increasing impact on the remaining deliveries |
| Csp.CspSearch.constructor | app/page.tsx:584-594 | the search starts with nothing assigned and every drone at its start with no load at time 0 |
| Csp.CspSearch.Try | app/page.tsx:657-663 | an assignment step records the drone and updates its load, clock and position by the leg |
| Csp.CspSearch.Undo | app/page.tsx:667-671 | undoing restores the tables exactly as they were |
| Csp.UndoApply | app/page.tsx:652-671 | restoring the saved load, clock and position and deleting the entry inverts an assignment step |
| Csp.CspSearch.Backtrack | app/page.tsx:628-674 | a call is exactly the reference search `Search` from the tables and budget it is entered with: the same success or failure, the same choices, the budget it leaves and the tables it leaves; a failure, including an exhausted time budget, leaves the tables untouched |
| Csp.CspSearch.Branch | app/page.tsx:637-673 | past the budget and empty-list checks, the call is the value loop of `Search` over the most constrained delivery's drones in impact order |
| Csp.CspSearch.TryDrones | app/page.tsx:651-673 | the `for` loop over the ordered drones is the value loop of `Search`: the first drone whose recursive search succeeds is kept, and if none does the tables are as before |
| Csp.CspSearch.Attempt | app/page.tsx:651-672 | trying one drone is one step of that value loop: a success is the loop's outcome, a failure restores the tables and passes the remaining budget on to the next drone |
| Csp.SearchSound | app/page.tsx:628-674 | every outcome of `Search` is honest: a success is a replay of consistent choices from the starting tables to the ones it leaves, choosing each delivery of the list once; a failure leaves the tables as they were |
| Csp.ValuesSound | app/page.tsx:651-673 | the same for the value loop from any drone on |
| Csp.SearchSpends | app/page.tsx:628-674 | every call uses budget: it never leaves more than it started with, and strictly less when it had any, which is what bounds the search |
| Csp.ValuesSpends | app/page.tsx:651-673 | the value loop never gives budget back |
| Csp.Extend | app/page.tsx:665 | a consistent first choice followed by a successful search is a successful search |
| Csp.ApplySound | app/page.tsx:596-616 | a consistent choice keeps every assignment drawn from its delivery's domain and every assigned drone's load within its capacity |
| Csp.RunSound | app/page.tsx:628-674 | every replay of consistent choices keeps those two facts (arrival by the end of the window and a clear landing are checked per choice by `Consistent` inside the replay) |
| Csp.RunKeys | app/page.tsx:658 | after a replay the assigned deliveries are the earlier ones plus those chosen |
| Csp.ChosenKeys | app/page.tsx:676-687 | after success exactly the solvable deliveries are assigned |
| Csp.Entries | app/page.tsx:683 | the entries walk lists each (delivery, drone) pair once, in ascending delivery id |
| Csp.BucketIncreasing | app/page.tsx:683-686 | each reported route lists its delivery ids in ascending order |
| Csp.LimitedUnique | app/page.tsx:531-539 | filtering, sorting and truncating keep delivery ids unique |
| Csp.Report | app/page.tsx:681-701 | the report holds one route per drone used, listing exactly that drone's assigned deliveries in ascending id, and the count, distance and energy over them |
| Csp.NoRoutes | app/page.tsx:571-581 | the empty report has no routes and zero totals |
| Csp.Prepare | app/page.tsx:530-568 | the problem and its solvable deliveries are built from the filtered, sorted and limited requests |
| Csp.Solve | app/page.tsx:583-712 | routes are reported exactly when `Search` from the start tables with the whole budget succeeds, and then its choices and final tables are the ones reported: every solvable delivery assigned through consistent choices. Otherwise the result is empty. The totals are those of the reported routes |
| Csp.CspAlgorithm | app/page.tsx:522-713 | the whole CSP solver: its preparation, then, when some delivery is solvable, a non-empty result exactly when `Search` succeeds, with `Search`'s choices; no solvable delivery gives the empty result |
| Genetic.RandomGene | app/page.tsx:729-735 | a gene is an eligible drone, or drone 1 when none is eligible; a draw is used exactly when one is eligible |
| Genetic.RandomChromosome | app/page.tsx:728-737 | a random chromosome has one admissible gene per delivery |
| Genetic.Cut | app/page.tsx:798 | the crossover point lies inside a non-empty parent |
| Genetic.CrossoverFacts | app/page.tsx:797-802 | the children have the parents' length and are single-point crosses: for one cut below the length (0 for empty parents), each child is one parent's genes before the cut and the other's from it |
| Genetic.CrossoverAdmissible | app/page.tsx:797-802 | crossing two admissible chromosomes gives admissible children |
| Genetic.Mutate | app/page.tsx:804-818 | every gene is kept or replaced by an eligible drone |
| Genetic.MutateAdmissible | app/page.tsx:804-818 | mutation keeps a chromosome admissible |
| Genetic.ChargeGene | app/page.tsx:754-790 | one gene's step updates the drone's load, clock and position and the fitness and penalty tallies as the fitness function says |
| Genetic.CalculateFitness | app/page.tsx:739-795 | the fitness loop returns max(0, bonus − distance cost − penalties), which is never negative |
| Genetic.ChargePenalty | app/page.tsx:763-779 | a gene's step never lowers the penalties, and leaves them unchanged exactly when the delivery fits, its leg is valid and it is on time |
| Genetic.StepPenalty | app/page.tsx:754-790 | the same, gene by gene along the chromosome |
| Genetic.PenaltyFree | app/page.tsx:739-795 | a chromosome is penalty-free exactly when every one of its steps is |
| Genetic.LoadsWithinCapacity | app/page.tsx:763-768 | a recorded load never exceeds its drone's capacity, since a delivery that does not fit is not loaded |
| Genetic.AdmissibleFlyable | app/page.tsx:735-757 | an admissible chromosome can be scored without a failed lookup exactly when drone 1 exists for every delivery that has no eligible drone |
| Genetic.Scores | app/page.tsx:825 | the scores are the fitness of each chromosome, all non-negative |
| Genetic.RankingFacts | app/page.tsx:826-829 | the ranking is a permutation of the indices, in non-increasing fitness, with ties in index order |
| Genetic.TopRanked | app/page.tsx:826-829 | the top-ranked chromosome has the highest fitness |
| Genetic.CopyElites | app/page.tsx:835-837 | the loop copies the 10 best-ranked chromosomes (i < 50 × 0.2), in rank order |
| Genetic.MateFacts | app/page.tsx:841-844 | parents drawn from the better half give admissible children whose genes come from those parents |
| Genetic.MutatedOffspring | app/page.tsx:845-847 | a mutated child is admissible and each gene comes from a top-half parent or is eligible |
| Genetic.BroodFacts | app/page.tsx:840-849 | one breeding pass adds two such children, or one when the population is one short |
| Genetic.GrowingAppend | app/page.tsx:840-849 | appending such children keeps the new generation elites first and offspring after |
| Genetic.Fill | app/page.tsx:840-849 | the breeding loop's generation and draw cursor are those of `Bred`, the broods pushed one after another from the elites on while the generation is short, and the generation has exactly 50 chromosomes |
| Genetic.BredGrowing | app/page.tsx:840-849 | breeding from a generation under construction ends with exactly 50 chromosomes: the elites first, then admissible offspring of the top half |
| Genetic.BestKept | app/page.tsx:835-837 | keeping the top-ranked chromosome means the best fitness never drops |
| Genetic.NextGeneration | app/page.tsx:825-851 | the next generation is admissible: the 10 elites in rank order, then offspring of the top half. Its best fitness is at least the old best |
| Genetic.Evolve | app/page.tsx:823-852 | after all the generations the population is admissible and its best fitness is at least the initial best |
| Genetic.InitialPopulation | app/page.tsx:820 | the initial population holds 50 admissible chromosomes |
| Genetic.MaxOf | app/page.tsx:856 | `Math.max(...scores)` is a score no score exceeds |
| Genetic.IndexOf | app/page.tsx:856 | `indexOf` gives the first position of the value, or −1 when it is absent |
| Genetic.FirstFittest | app/page.tsx:855-857 | the best index is the first position with the highest fitness |
| Genetic.ChromosomeRoutes | app/page.tsx:865-870 | grouping the genes gives each drone the deliveries assigned to it, in request order |
| Genetic.ReportBest | app/page.tsx:859-892 | the report counts every delivery, routes them as the chromosome says, and totals the distance and energy of those routes |
| Genetic.GeneticAlgorithm | app/page.tsx:716-894 | nothing is reported exactly when a fallback gene would name a missing drone. Otherwise the best chromosome of the final admissible population is reported |
| LibAStar.HeuristicRanksByDistance | lib/algorithms.js:34-38 | for one delivery the heuristic orders drones exactly as their distance does |
| LibAStar.ChooseDrone | lib/algorithms.js:60-83 | none is found exactly when no drone passes capacity, deadline and arrival-zone checks; otherwise the chosen drone passes them and is the nearest, the first among ties |
| LibAStar.ClearExtend | lib/algorithms.js:74 | a route lands clear of the static zones exactly when its prefix did and the new point is clear at arrival |
| LibAStar.AStarAlgorithm.constructor | lib/algorithms.js:3-7 | the solver holds the given fleet, requests and zones |
| LibAStar.Step | lib/algorithms.js:57-99 | one pass keeps the loop invariant and is one step of the reference run `LibAStar.Run`. The plan is unchanged exactly when the id is already routed or no drone passes the filters. Otherwise the delivery joins the route of the nearest drone that passes, the first such on ties |
| LibAStar.StepIsRun | lib/algorithms.js:57-99 | a pass that skips for one of those two reasons, or commits to the best drone, is one step of `LibAStar.Run` |
| LibAStar.Place | lib/algorithms.js:85-99 | committing a drone that passed the checks keeps the loop invariant |
| LibAStar.Skip | lib/algorithms.js:58 | skipping a delivery keeps the loop invariant |
| LibAStar.Start | lib/algorithms.js:50-55 | the initial drone states satisfy the loop invariant |
| LibAStar.Sound | lib/algorithms.js:40-108 | the invariant gives the promise about every route |
| LibAStar.FeasibleExtends | lib/algorithms.js:63-74 | a route extended by a delivery that passed the checks keeps capacity, deadlines and clear arrivals |
| LibAStar.AStarAlgorithm.FindOptimalRoute | lib/algorithms.js:40-108 | every reported route is within capacity, meets its deadlines and lands clear of the zones at each arrival. No id is routed twice. The count is the assigned set's size, and the distance and energy are the routes'. The plan is the reference run `LibAStar.Run` over the priority order, from every drone at its start with an empty route |
| LibCsp.Capable | lib/algorithms.js:128-130 | a drone is listed exactly when it can lift the weight |
| LibCsp.InitializeDomains | lib/algorithms.js:125-132 | every delivery's domain is exactly the drones that can lift it |
| LibCsp.CSPAlgorithm.constructor | lib/algorithms.js:113-123 | the variables are the delivery ids in order, each domain lists exactly the drones able to lift its delivery, and nothing is assigned |
| LibCsp.Listing | lib/algorithms.js:141 | the entries walk lists the assignment's pairs in ascending delivery id |
| LibCsp.ListingUnique | lib/algorithms.js:141 | two ascending listings of the same pairs are equal |
| LibCsp.SumLoads | lib/algorithms.js:139-144 | the load table holds, per drone used, the total weight assigned to it |
| LibCsp.LoadsFit | lib/algorithms.js:146-149 | the `every` test holds exactly when each drone's load is within its capacity |
| LibCsp.CheckCapacity | lib/algorithms.js:136-151 | the capacity constraint holds exactly when each drone's assigned weight fits |
| LibCsp.LoadStep | lib/algorithms.js:143 | one pair adds its delivery's weight to its drone's load and nothing else |
| LibCsp.GroupedDeliveries | lib/algorithms.js:159-170 | a drone's schedule lists exactly its assigned deliveries in ascending id |
| LibCsp.SchedulesOnTime | lib/algorithms.js:164-177 | the `every` test holds exactly when each drone's schedule meets every window |
| LibCsp.CheckTimeWindows | lib/algorithms.js:154-179 | the window constraint holds exactly when every drone, flying its deliveries in ascending id, arrives inside each window |
| LibCsp.IsConsistent | lib/algorithms.js:186-188 | the assignment is consistent exactly when both constraints hold |
| LibCsp.LoadWithout | lib/algorithms.js:209 | with non-negative weights, deleting a pair never raises any drone's load |
| LibCsp.CapacityAfterDelete | lib/algorithms.js:209 | deleting an entry keeps the capacity constraint |
| LibCsp.CSPAlgorithm.Backtrack | lib/algorithms.js:193-213 | success means every variable is assigned a drone from its domain, the assignment is consistent and earlier entries are kept; failure restores the assignment; and it succeeds exactly when the assignment found can be completed by domain values each of which leaves the assignment consistent (`Extendable`) |
| LibCsp.CSPAlgorithm.TryDomain | lib/algorithms.js:200-212 | the value loop succeeds exactly when some value of the variable's domain is admitted (assigned, consistent, and completable), with the same guarantees on the assignment as `Backtrack` |
| LibCsp.CSPAlgorithm.TryValue | lib/algorithms.js:201-209 | one value succeeds exactly when it is admitted; on failure its entry is deleted and the assignment is as found |
| LibCsp.CSPAlgorithm.AdmittedExtends | lib/algorithms.js:200-206 | an admitted domain value makes the assignment completable |
| LibCsp.CSPAlgorithm.NoneAdmitted | lib/algorithms.js:200-212 | when no value of the domain is admitted, the assignment cannot be completed, so `false` is the right answer |
| LibCsp.NextVariable | lib/algorithms.js:198-201 | assigning the next variable covers one more variable from its domain, and deleting it restores the assignment |
| LibCsp.CSPAlgorithm.BacktrackSearch | lib/algorithms.js:190-220 | `null` leaves nothing assigned, and it is returned exactly when the empty assignment cannot be completed value by value (`!Extendable(map[], 0)`). A result assigns every delivery a domain drone consistently, and reports routes grouped in ascending id with their totals |
| LibCsp.CSPAlgorithm.CompletedIsVariables | lib/algorithms.js:249 | a full assignment has as many keys as there are deliveries |
| LibCsp.ConvertToRoutes | lib/algorithms.js:222-252 | the report lists each drone's assigned deliveries in ascending id, counts the assignment's keys, and totals distance and energy over the routes |
| LibGenetic.CountOr | lib/algorithms.js:266-267 | a count option that is given and non-zero is used, otherwise the default (JavaScript's `or` on a falsy value) |
| LibGenetic.RateOr | lib/algorithms.js:268-270 | the same for rates |
| LibGenetic.GeneticAlgorithm.constructor | lib/algorithms.js:261-271 | for a fleet with positive speeds and distinct ids, the parameters default to 50, 100, 0.1, 0.8 and 0.2 and the class invariant holds |
| LibGenetic.DeductionIsPathCost | lib/algorithms.js:315-331 | a route's fitness deduction is half its length plus a tenth of its energy (distance × weight × 0.01 per leg) |
| LibGenetic.NoMissesMeetsWindows | lib/algorithms.js:319-328 | a route has no window penalty exactly when every arrival is inside its window |
| LibGenetic.FlyRoute | lib/algorithms.js:311-332 | flying a route deducts its cost and adds 50 per missed window |
| LibGenetic.GeneticAlgorithm.RoutesFacts | lib/algorithms.js:291-295 | the route table has a key per drone used, listing that drone's deliveries in chromosome order |
| LibGenetic.GeneticAlgorithm.ChargeGenes | lib/algorithms.js:291-307 | the first pass builds that route table and the load, bonus and capacity-penalty tallies |
| LibGenetic.GeneticAlgorithm.FlyRoutes | lib/algorithms.js:310-333 | the second pass deducts every route's cost and adds 50 per missed window, over the drones in key order |
| LibGenetic.GeneticAlgorithm.CalculateFitness | lib/algorithms.js:284-336 | the fitness is max(0, bonus − route costs − penalties), never negative |
| LibGenetic.GeneticAlgorithm.ChargedCapacity | lib/algorithms.js:297-306 | no capacity penalty exactly when every drone's route stays within capacity, and then the loads are the routes' weights |
| LibGenetic.GeneticAlgorithm.MissCountZero | lib/algorithms.js:315-329 | no window penalty exactly when every drone's route meets its windows |
| LibGenetic.GeneticAlgorithm.PenaltyFree | lib/algorithms.js:284-336 | no penalty at all exactly when every route fits its drone and meets every window |
| LibGenetic.GeneticAlgorithm.OrderKnown | lib/algorithms.js:310 | the second pass visits exactly the drones used |
| LibGenetic.GeneticAlgorithm.ChromosomeFlyable | lib/algorithms.js:298 | every admissible gene names a drone of the fleet |
| LibGenetic.GeneticAlgorithm.RandomGene | lib/algorithms.js:279-280 | a gene is a drone that can lift the delivery, or the first drone when none can; a draw is used exactly when one can |
| LibGenetic.GeneticAlgorithm.RandomChromosome | lib/algorithms.js:277-282 | a random chromosome has one admissible gene per delivery |
| LibGenetic.GeneticAlgorithm.CrossFacts | lib/algorithms.js:359-369 | a draw above the crossover rate returns the parents; otherwise the children are single-point crosses of the parents at one cut below the length |
| LibGenetic.GeneticAlgorithm.Mutate | lib/algorithms.js:371-380 | every gene is kept or replaced by a drone that can lift the delivery |
| LibGenetic.GeneticAlgorithm.MutateChromosome | lib/algorithms.js:371-380 | mutation keeps a chromosome admissible |
| LibGenetic.GeneticAlgorithm.CrossChromosomes | lib/algorithms.js:359-369 | crossover keeps chromosomes admissible |
| LibGenetic.Contestant | lib/algorithms.js:344-347 | each contestant is an index into the population |
| LibGenetic.WinnerFacts | lib/algorithms.js:343-351 | the winner is one of the three contestants, every earlier contestant scores strictly less, and none scores more |
| LibGenetic.Tournament | lib/algorithms.js:344-351 | the inner loop returns the tournament winner |
| LibGenetic.Selection | lib/algorithms.js:338-357 | one winner is selected per population slot, using three draws each |
| LibGenetic.GeneticAlgorithm.Scores | lib/algorithms.js:388 | the scores are each chromosome's fitness, all non-negative |
| LibGenetic.GeneticAlgorithm.Elites | lib/algorithms.js:396-402 | the elitism loop copies ⌊size × rate⌋ chromosomes, none when that is negative |
| LibGenetic.GeneticAlgorithm.CopyElites | lib/algorithms.js:400-402 | the elites are the best-ranked chromosomes in rank order |
| LibGenetic.GeneticAlgorithm.CrossCrossbred | lib/algorithms.js:408-411 | crossing two selected parents gives children whose genes come from the population |
| LibGenetic.GeneticAlgorithm.MutatedOffspring | lib/algorithms.js:413-416 | a mutated child is admissible and each gene comes from the population or is a capable drone |
| LibGenetic.GeneticAlgorithm.BroodFacts | lib/algorithms.js:407-417 | one breeding pass adds two such children, or one when the population is one short |
| LibGenetic.GeneticAlgorithm.GrowingAppend | lib/algorithms.js:407-417 | appending such children keeps the generation elites first and offspring after |
| LibGenetic.GeneticAlgorithm.Fill | lib/algorithms.js:407-417 | the breeding loop fills the generation to exactly the population size |
| LibGenetic.GeneticAlgorithm.BestKept | lib/algorithms.js:400-402 | keeping the top-ranked chromosome means the best fitness never drops |
| LibGenetic.GeneticAlgorithm.NextGeneration | lib/algorithms.js:388-419 | the next generation is admissible: the elites in rank order, then offspring of the population. With at least one elite its best fitness does not drop |
| LibGenetic.GeneticAlgorithm.InitialPopulation | lib/algorithms.js:384 | the initial population holds `populationSize` admissible chromosomes |
| LibGenetic.GeneticAlgorithm.ConvertToRoutes | lib/algorithms.js:429-460 | the report counts every delivery, groups them by gene in request order, and totals distance and energy over those routes |
| LibGenetic.GeneticAlgorithm.Evolve | lib/algorithms.js:382-427 | nothing is reported exactly when the source would throw: a delivery no drone can lift with no drones at all, or more elites than slots. Otherwise the first fittest chromosome of the final admissible population is reported. With at least one elite the best fitness never drops |

## Left out

- Wall-clock time is not modelled. `performance.now()`, the `execution_time` field and the `algorithm` label are left out. The page CSP's 10-second limit becomes a budget counter, decremented on every recursive call and checked at the same place.
- Logging, the scenario selector, the UI, the report generator and `lib/data-generator.js` are not part of this model.
- Floating point: numbers are exact reals. Rounding, NaN arithmetic (except the 0/0 sample noted above), infinities and overflow are not modelled.
- The square root, sine, cosine and π are parameters, constrained only as `ValidMath` states. Distances are not tied to a particular square-root implementation.
- `Math.random()` is a supplied stream of draws. The solvers' contracts hold for every stream with draws in [0, 1).
- The search's bookkeeping (the page CSP's trace, the page A*'s per-drone plan, the genetic populations) is ghost. A reported route's meaning is stated through it.
- Drone speeds must be positive, and drone ids (and delivery ids where the CSP looks them up) distinct. The source divides by the speed and looks drones up by id. Input that breaks either is not modelled.
- A `find(...)!` or a property read on `undefined` makes the source throw. The model gives `None` for the genetic solvers where this can happen on well-formed input (a fallback gene naming a missing drone, no drones at all, more elites than slots). Elsewhere the lookups are shown to succeed.
- `CSPAlgorithm.solve` is an alias of `backtrackSearch`, so it has no member of its own.
- `CSPAlgorithm.constraints` is a list of closures. It is modelled as its two fixed constraints, capacity then time windows, checked in that order by `LibCsp.IsConsistent`.
- `calculateDistance` is repeated in each class. It is modelled once, as `Types.Distance`.
- LibGenetic.CountOr: `populationSize` and `generations` are whole non-negative counts. The source's `options.x || default` passes any truthy number through: a fractional size builds `floor` chromosomes first and then refills each later generation to the next whole number, and a negative size leaves the population empty so that reading the best chromosome throws. Neither is modelled.
- Genetic.NextGeneration: states each child's lineage (elite, or crossbred from top-half parents and mutated), not the exact chromosome a given stream of draws produces.
- Genetic.Evolve, Genetic.InitialPopulation, LibGenetic.GeneticAlgorithm.NextGeneration, LibGenetic.GeneticAlgorithm.InitialPopulation and LibGenetic.GeneticAlgorithm.Fill: the same. They state admissibility, lineage and size, not the draw-by-draw result.
- LibCsp.CSPAlgorithm.BacktrackSearch: `null` is tied to `Extendable`, the search tree in which every partial assignment must be consistent. It does not state that `null` means no consistent full assignment exists. The time-window constraint reorders a drone's schedule by delivery id as entries are added, so a pruned partial assignment can still have a consistent completion.
- Csp.CspSearch.Backtrack: tied to `Search`, which is the page's own search (fewest-options pick, impact order, one budget unit per call). No lemma states that a failure means no consistent assignment exists: a drone's clock depends on the order the deliveries are assigned in, and the budget can stop the search early.
