/** The problem instance shared by every solver: drones, deliveries, no-fly
    zones, the result record, and the numeric helpers that stand in for the
    JavaScript built-ins (Math.sqrt, Math.floor, Math.ceil, `%`). */
module Types {

  datatype Option<T> = None | Some(value: T)

  datatype Point = Point(x: real, y: real)

  /** A drone of the fleet. Ids are non-negative integers, so a JavaScript
      object keyed by drone id enumerates its keys in ascending order. */
  datatype Drone = Drone(id: nat, maxWeight: real, battery: real, speed: real, startPos: Point)

  /** A delivery request; `earliest` and `latest` are `time_window[0]` and `time_window[1]`. */
  datatype Delivery = Delivery(id: nat, pos: Point, weight: real, priority: int, earliest: real, latest: real)

  /** `movement_pattern.type`; `Unrecognized` stands for any other string. */
  datatype MoveKind = Circular | Linear | Random | Unrecognized

  datatype Movement = Movement(
    kind: MoveKind,
    speed: real,
    center: Option<Point>,
    radius: Option<real>,
    direction: Option<Point>)

  /** A no-fly zone: polygon, active window `[activeStart, activeEnd]`, optional movement. */
  datatype Zone = Zone(
    id: nat,
    coords: seq<Point>,
    activeStart: real,
    activeEnd: real,
    isDynamic: bool,
    pattern: Option<Movement>)

  /** What every solver returns (execution time is not modelled). */
  datatype RouteResult = RouteResult(routes: map<nat, seq<nat>>, totalDistance: real, completed: nat, energy: real)

  /** The transcendental built-ins the engine calls, supplied from outside. */
  datatype MathLib = MathLib(sqrt: real -> real, sin: real -> real, cos: real -> real, pi: real)

  /** What the engine relies on from Math.sqrt. */
  ghost predicate ValidMath(m: MathLib) {
    && m.sqrt(0.0) == 0.0
    && forall x :: 0.0 <= x ==> 0.0 <= m.sqrt(x)
  }

  function Sq(v: real): real { v * v }

  /** `calculateDistance`: Euclidean distance. */
  function Distance(m: MathLib, p: Point, q: Point): real {
    m.sqrt(Sq(p.x - q.x) + Sq(p.y - q.y))
  }

  lemma DistanceFacts(m: MathLib, p: Point, q: Point)
    requires ValidMath(m)
    ensures Distance(m, p, q) >= 0.0
    ensures p == q ==> Distance(m, p, q) == 0.0
  {
    assert Sq(p.x - q.x) >= 0.0 && Sq(p.y - q.y) >= 0.0;
  }

  /** Time to fly between two points at a given speed. */
  function TravelTime(m: MathLib, p: Point, q: Point, speed: real): real
    requires speed != 0.0
  {
    Distance(m, p, q) / speed
  }

  function Max(a: real, b: real): real { if a >= b then a else b }
  function Min(a: real, b: real): real { if a <= b then a else b }

  /** Math.floor. */
  function Floor(x: real): int { x.Floor }

  /** Math.ceil. */
  function Ceil(x: real): (c: int)
    ensures x <= c as real < x + 1.0
  {
    -((-x).Floor)
  }

  /** Truncation toward zero, as JavaScript's `%` uses. */
  function Trunc(x: real): int {
    if x >= 0.0 then x.Floor else -((-x).Floor)
  }

  /** JavaScript's `a % b` on numbers: truncated division, so the remainder
      takes the sign of `a`. */
  function JsRem(a: real, b: real): (r: real)
    requires b > 0.0
    ensures 0.0 <= a ==> 0.0 <= r < b
  {
    RemainderBounds(a, b);
    a - b * (Trunc(a / b) as real)
  }

  lemma RemainderBounds(a: real, b: real)
    requires b > 0.0
    ensures 0.0 <= a ==> 0.0 <= a - b * (Trunc(a / b) as real) < b
  {
    var q := a / b;
    var t := Trunc(q) as real;
    assert a == b * q;
    if 0.0 <= a {
      RemainderOf(a, b, q, t);
    }
  }

  lemma RemainderOf(a: real, b: real, q: real, t: real)
    requires b > 0.0 && a == b * q && 0.0 <= q - t < 1.0
    ensures 0.0 <= a - b * t < b
  {
    var d := q - t;
    var bd := b * d;
    assert a - b * t == bd;
    FractionScaled(b, d);
  }

  lemma FractionScaled(b: real, d: real)
    requires b > 0.0 && 0.0 <= d < 1.0
    ensures 0.0 <= b * d < b
  {
  }

  /** Math.floor(r * n) for a Math.random() value r: an index into n items. */
  function Pick(r: real, n: nat): (k: nat)
    requires 0.0 <= r < 1.0 && n > 0
    ensures k < n
  {
    assert 0.0 <= r * (n as real) < n as real by {
      assert r * (n as real) <= r * (n as real);
    }
    (r * (n as real)).Floor
  }

  predicate UniqueDroneIds(drones: seq<Drone>) {
    forall i, j :: 0 <= i < j < |drones| ==> drones[i].id != drones[j].id
  }

  predicate UniqueDeliveryIds(deliveries: seq<Delivery>) {
    forall i, j :: 0 <= i < j < |deliveries| ==> deliveries[i].id != deliveries[j].id
  }

  predicate PositiveSpeeds(drones: seq<Drone>) {
    forall i :: 0 <= i < |drones| ==> drones[i].speed > 0.0
  }

  function DroneIds(drones: seq<Drone>): set<nat> {
    set i | 0 <= i < |drones| :: drones[i].id
  }

  function DeliveryIds(deliveries: seq<Delivery>): set<nat> {
    set i | 0 <= i < |deliveries| :: deliveries[i].id
  }

  /** Index of the first drone with the given id (`drones.find(d => d.id === id)!`). */
  function DroneIndex(drones: seq<Drone>, id: nat): (k: nat)
    requires id in DroneIds(drones)
    ensures k < |drones| && drones[k].id == id
    ensures forall j :: 0 <= j < k ==> drones[j].id != id
  {
    if drones[0].id == id then 0
    else
      assert id in DroneIds(drones[1..]) by {
        var i :| 0 <= i < |drones| && drones[i].id == id;
        assert drones[1..][i - 1] == drones[i];
      }
      1 + DroneIndex(drones[1..], id)
  }

  function DroneById(drones: seq<Drone>, id: nat): (d: Drone)
    requires id in DroneIds(drones)
    ensures d in drones && d.id == id
  {
    drones[DroneIndex(drones, id)]
  }

  /** Index of the first delivery with the given id. */
  function DeliveryIndex(deliveries: seq<Delivery>, id: nat): (k: nat)
    requires id in DeliveryIds(deliveries)
    ensures k < |deliveries| && deliveries[k].id == id
    ensures forall j :: 0 <= j < k ==> deliveries[j].id != id
  {
    if deliveries[0].id == id then 0
    else
      assert id in DeliveryIds(deliveries[1..]) by {
        var i :| 0 <= i < |deliveries| && deliveries[i].id == id;
        assert deliveries[1..][i - 1] == deliveries[i];
      }
      1 + DeliveryIndex(deliveries[1..], id)
  }

  function DeliveryById(deliveries: seq<Delivery>, id: nat): (d: Delivery)
    requires id in DeliveryIds(deliveries)
    ensures d in deliveries && d.id == id
  {
    deliveries[DeliveryIndex(deliveries, id)]
  }

  function IdsOf(ds: seq<Delivery>): (ids: seq<nat>)
    ensures |ids| == |ds|
    ensures forall i :: 0 <= i < |ds| ==> ids[i] == ds[i].id
  {
    if ds == [] then [] else [ds[0].id] + IdsOf(ds[1..])
  }

  function DroneIdsOf(drones: seq<Drone>): (ids: seq<nat>)
    ensures |ids| == |drones|
    ensures forall i :: 0 <= i < |drones| ==> ids[i] == drones[i].id
  {
    if drones == [] then [] else [drones[0].id] + DroneIdsOf(drones[1..])
  }

  predicate NoDuplicates<T(==)>(s: seq<T>) {
    forall i, j :: 0 <= i < j < |s| ==> s[i] != s[j]
  }

  /** No drone of `drones` carries `id`. */
  predicate IdAbsent(id: nat, drones: seq<Drone>)
    decreases |drones|
  {
    drones == [] || (drones[0].id != id && IdAbsent(id, drones[1..]))
  }

  lemma {:induction false} IdAbsentMeans(id: nat, drones: seq<Drone>)
    ensures IdAbsent(id, drones) <==> forall j :: 0 <= j < |drones| ==> drones[j].id != id
    decreases |drones|
  {
    if drones != [] {
      IdAbsentMeans(id, drones[1..]);
      assert forall j :: 1 <= j < |drones| ==> drones[j] == drones[1..][j - 1];
    }
  }

  /** Distinct drone ids, drone by drone: no drone's id recurs later in the fleet. */
  predicate FreshIds(drones: seq<Drone>)
    decreases |drones|
  {
    drones == [] || (IdAbsent(drones[0].id, drones[1..]) && FreshIds(drones[1..]))
  }

  lemma {:induction false} UniqueIdsFresh(drones: seq<Drone>)
    ensures UniqueDroneIds(drones) <==> FreshIds(drones)
    decreases |drones|
  {
    if drones != [] {
      var rest := drones[1..];
      UniqueIdsFresh(rest);
      IdAbsentMeans(drones[0].id, rest);
      assert forall j :: 0 <= j < |rest| ==> rest[j] == drones[j + 1];
      if UniqueDroneIds(rest) && IdAbsent(drones[0].id, rest) {
        forall i, j | 0 <= i < j < |drones| ensures drones[i].id != drones[j].id {
          if i > 0 {
            assert drones[i].id == rest[i - 1].id && drones[j].id == rest[j - 1].id;
          } else {
            assert drones[j].id == rest[j - 1].id;
          }
        }
      }
      if UniqueDroneIds(drones) {
        forall i, j | 0 <= i < j < |rest| ensures rest[i].id != rest[j].id {
          assert drones[i + 1].id != drones[j + 1].id;
        }
      }
    }
  }
}
