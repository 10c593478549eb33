/** No-fly zones: time-varying polygons (`getDynamicZoneCoordinates`), the
    even-odd ray-casting containment test, and `isInNoFlyZone`, which ORs the
    active-window-gated test over all zones. */
module Zones {
  import opened Types

  /** Length of the movement cycle, in minutes. */
  const CycleLength: real := 120.0

  /** `Math.max(5, Math.min(95, v))`: keep a coordinate on the map. */
  function Clamp(v: real): (r: real)
    ensures 5.0 <= r <= 95.0
    ensures 5.0 <= v <= 95.0 ==> r == v
  {
    Max(5.0, Min(95.0, v))
  }

  ghost predicate OnMap(coords: seq<Point>) {
    forall i :: 0 <= i < |coords| ==> 5.0 <= coords[i].x <= 95.0 && 5.0 <= coords[i].y <= 95.0
  }

  /** Every vertex moved by `(dx, dy)` and clamped onto the map. */
  function Shift(coords: seq<Point>, dx: real, dy: real): (r: seq<Point>)
    ensures |r| == |coords| && OnMap(r)
  {
    if coords == [] then []
    else [Point(Clamp(coords[0].x + dx), Clamp(coords[0].y + dy))] + Shift(coords[1..], dx, dy)
  }

  /** The triangular wave of the linear pattern: `progress = (t/40) % 2`,
      folded back by `2 - progress` once it passes 1. */
  function LinearFold(timeInCycle: real): (f: real)
    ensures 0.0 <= timeInCycle ==> 0.0 <= f <= 1.0
  {
    var progress := JsRem(timeInCycle / 40.0, 2.0);
    if progress > 1.0 then 2.0 - progress else progress
  }

  /** The movement descriptors that actually move the polygon: circular needs
      a center and a non-zero radius (the source tests them for
      truthiness), linear needs a direction, random needs nothing. */
  predicate Moves(p: Movement) {
    match p.kind
    case Circular => p.center.Some? && p.radius.Some? && p.radius.value != 0.0
    case Linear => p.direction.Some?
    case Random => true
    case Unrecognized => false
  }

  /** `getDynamicZoneCoordinates`. */
  function DynamicZoneCoordinates(m: MathLib, zone: Zone, currentTime: real): (r: seq<Point>)
    ensures !(zone.isDynamic && zone.pattern.Some? && Moves(zone.pattern.value)) ==> r == zone.coords
    ensures zone.isDynamic && zone.pattern.Some? && Moves(zone.pattern.value) ==>
              |r| == |zone.coords| && OnMap(r)
  {
    if !zone.isDynamic || zone.pattern.None? then zone.coords
    else MovedCoordinates(m, zone.coords, zone.pattern.value, JsRem(currentTime, CycleLength))
  }

  /** The polygon displaced by a movement pattern at a given point of the cycle. */
  function MovedCoordinates(m: MathLib, coords: seq<Point>, pattern: Movement, timeInCycle: real): (r: seq<Point>)
    ensures !Moves(pattern) ==> r == coords
    ensures Moves(pattern) ==> |r| == |coords| && OnMap(r)
  {
    match pattern.kind
    case Circular =>
      if pattern.center.Some? && pattern.radius.Some? && pattern.radius.value != 0.0 then
        var angle := (timeInCycle / 30.0) * 2.0 * m.pi * pattern.speed;
        var offsetX := m.cos(angle) * pattern.radius.value;
        var offsetY := m.sin(angle) * pattern.radius.value;
        Shift(coords, offsetX, offsetY)
      else coords
    case Linear =>
      if pattern.direction.Some? then
        var direction := LinearFold(timeInCycle);
        var offsetX := pattern.direction.value.x * direction * 25.0;
        var offsetY := pattern.direction.value.y * direction * 25.0;
        Shift(coords, offsetX, offsetY)
      else coords
    case Random =>
      var seed := Floor(timeInCycle / 8.0);
      var randomX := JsRem(m.sin((seed as real) * 2.1) * pattern.speed * 20.0, 20.0) - 10.0;
      var randomY := JsRem(m.cos((seed as real) * 1.9) * pattern.speed * 20.0, 20.0) - 10.0;
      Shift(coords, randomX, randomY)
    case Unrecognized => coords
  }

  /** The cycle position is the same a full cycle later (for non-negative times). */
  lemma CycleRepeats(t: real)
    requires 0.0 <= t
    ensures JsRem(t + CycleLength, CycleLength) == JsRem(t, CycleLength)
  {
    var q := t / CycleLength;
    assert (t + CycleLength) / CycleLength == q + 1.0;
    assert (q + 1.0).Floor == q.Floor + 1;
    assert Trunc(q + 1.0) == Trunc(q) + 1;
    var f := Trunc(q) as real;
    assert (t + CycleLength) - CycleLength * (f + 1.0) == t - CycleLength * f;
  }

  /** The polygon of a zone is periodic in time with period 120. */
  lemma CoordinatesArePeriodic(m: MathLib, zone: Zone, t: real)
    requires 0.0 <= t
    ensures DynamicZoneCoordinates(m, zone, t + CycleLength) == DynamicZoneCoordinates(m, zone, t)
  {
    CycleRepeats(t);
  }

  /** Edge test of the ray-casting loop for the edge from vertex `j` (`b`) to vertex `i` (`a`). */
  predicate EdgeCrosses(a: Point, b: Point, p: Point) {
    (a.y > p.y) != (b.y > p.y) && p.x < (b.x - a.x) * (p.y - a.y) / (b.y - a.y) + a.x
  }

  /** The vertex before `i`, cyclically. */
  function Prev(n: nat, i: nat): nat
    requires i < n
  {
    if i == 0 then n - 1 else i - 1
  }

  /** Number of edges among the first `k` that the rightward ray from `p` crosses. */
  function Crossings(poly: seq<Point>, p: Point, k: nat): nat
    requires k <= |poly|
  {
    if k == 0 then 0
    else Crossings(poly, p, k - 1) + (if EdgeCrosses(poly[k - 1], poly[Prev(|poly|, k - 1)], p) then 1 else 0)
  }

  /** Even-odd rule: inside iff the ray crosses an odd number of edges. */
  predicate Contains(poly: seq<Point>, p: Point) {
    Crossings(poly, p, |poly|) % 2 == 1
  }

  /** The ray-casting loop of `isInNoFlyZone`: toggle `inside` at every crossed edge. */
  method PointInPolygon(poly: seq<Point>, p: Point) returns (inside: bool)
    ensures inside == Contains(poly, p)
  {
    inside := false;
    var n := |poly|;
    var i, j := 0, n - 1;
    while i < n
      invariant 0 <= i <= n
      invariant j == if i == 0 then n - 1 else i - 1
      invariant inside == (Crossings(poly, p, i) % 2 == 1)
    {
      if EdgeCrosses(poly[i], poly[j], p) {
        inside := !inside;
      }
      j := i;
      i := i + 1;
    }
  }

  /** A point whose horizontal line lies outside the polygon's vertical extent
      is never inside: no edge straddles it. */
  lemma {:induction false} OutsideVerticalExtent(poly: seq<Point>, p: Point, k: nat)
    requires k <= |poly|
    requires (forall i :: 0 <= i < |poly| ==> poly[i].y <= p.y) || (forall i :: 0 <= i < |poly| ==> poly[i].y > p.y)
    ensures Crossings(poly, p, k) == 0
  {
    if k > 0 {
      OutsideVerticalExtent(poly, p, k - 1);
    }
  }

  lemma OutsideVerticalExtentNotContained(poly: seq<Point>, p: Point)
    requires (forall i :: 0 <= i < |poly| ==> poly[i].y <= p.y) || (forall i :: 0 <= i < |poly| ==> poly[i].y > p.y)
    ensures !Contains(poly, p)
  {
    OutsideVerticalExtent(poly, p, |poly|);
  }

  /** `time < active_time[0] || time > active_time[1]` rules the zone out. */
  predicate ActiveAt(z: Zone, time: real) {
    !(time < z.activeStart || time > z.activeEnd)
  }

  /** The per-zone callback of `isInNoFlyZone`: a dynamic zone is tested at its
      polygon for that time. */
  predicate ZoneContains(m: MathLib, z: Zone, pos: Point, time: real) {
    ActiveAt(z, time) && Contains(if z.isDynamic then DynamicZoneCoordinates(m, z, time) else z.coords, pos)
  }

  /** `isInNoFlyZone`: some zone contains the point at that time (`some`
      over the zone list, written as a fold over its last element). */
  predicate InAnyZone(m: MathLib, zones: seq<Zone>, pos: Point, time: real)
    decreases |zones|
  {
    zones != [] && (InAnyZone(m, zones[..|zones| - 1], pos, time) || ZoneContains(m, zones[|zones| - 1], pos, time))
  }

  /** The fold is the disjunction over all zones. */
  lemma {:induction false} InAnyZoneExists(m: MathLib, zones: seq<Zone>, pos: Point, time: real)
    ensures InAnyZone(m, zones, pos, time) <==> exists i :: 0 <= i < |zones| && ZoneContains(m, zones[i], pos, time)
    decreases |zones|
  {
    if zones != [] {
      var prev := zones[..|zones| - 1];
      InAnyZoneExists(m, prev, pos, time);
      assert forall i :: 0 <= i < |prev| ==> prev[i] == zones[i];
    }
  }

  /** The standalone module's variant: always the base polygon, never moved. */
  predicate StaticZoneContains(z: Zone, pos: Point, time: real) {
    ActiveAt(z, time) && Contains(z.coords, pos)
  }

  predicate InAnyStaticZone(zones: seq<Zone>, pos: Point, time: real)
    decreases |zones|
  {
    zones != [] && (InAnyStaticZone(zones[..|zones| - 1], pos, time) || StaticZoneContains(zones[|zones| - 1], pos, time))
  }

  lemma {:induction false} InAnyStaticZoneExists(zones: seq<Zone>, pos: Point, time: real)
    ensures InAnyStaticZone(zones, pos, time) <==> exists i :: 0 <= i < |zones| && StaticZoneContains(zones[i], pos, time)
    decreases |zones|
  {
    if zones != [] {
      var prev := zones[..|zones| - 1];
      InAnyStaticZoneExists(prev, pos, time);
      assert forall i :: 0 <= i < |prev| ==> prev[i] == zones[i];
    }
  }

  /** No zone blocks a point outside every zone's active window, whatever the polygons. */
  lemma InactiveZonesBlockNothing(m: MathLib, zones: seq<Zone>, pos: Point, time: real)
    requires forall i :: 0 <= i < |zones| ==> time < zones[i].activeStart || time > zones[i].activeEnd
    ensures !InAnyZone(m, zones, pos, time) && !InAnyStaticZone(zones, pos, time)
  {
    InAnyZoneExists(m, zones, pos, time);
    InAnyStaticZoneExists(zones, pos, time);
  }

  /** For zones that do not move, both variants of the zone test agree. */
  lemma StaticVariantAgrees(m: MathLib, zones: seq<Zone>, pos: Point, time: real)
    requires forall i :: 0 <= i < |zones| ==> !zones[i].isDynamic
    ensures InAnyZone(m, zones, pos, time) == InAnyStaticZone(zones, pos, time)
  {
    InAnyZoneExists(m, zones, pos, time);
    InAnyStaticZoneExists(zones, pos, time);
  }

  /** `isInNoFlyZone` (`noFlyZones.some(...)`), with the ray-casting loop per zone. */
  method IsInNoFlyZone(m: MathLib, zones: seq<Zone>, pos: Point, time: real) returns (blocked: bool)
    ensures blocked == InAnyZone(m, zones, pos, time)
  {
    InAnyZoneExists(m, zones, pos, time);
    var k := 0;
    while k < |zones|
      invariant 0 <= k <= |zones|
      invariant forall i :: 0 <= i < k ==> !ZoneContains(m, zones[i], pos, time)
    {
      var zone := zones[k];
      if !(time < zone.activeStart || time > zone.activeEnd) {
        var currentCoords := if zone.isDynamic then DynamicZoneCoordinates(m, zone, time) else zone.coords;
        var inside := PointInPolygon(currentCoords, pos);
        if inside {
          return true;
        }
      }
      k := k + 1;
    }
    return false;
  }

  /** The standalone module's `isInNoFlyZone`: the same loop over base polygons. */
  method IsInStaticNoFlyZone(zones: seq<Zone>, pos: Point, time: real) returns (blocked: bool)
    ensures blocked == InAnyStaticZone(zones, pos, time)
  {
    InAnyStaticZoneExists(zones, pos, time);
    var k := 0;
    while k < |zones|
      invariant 0 <= k <= |zones|
      invariant forall i :: 0 <= i < k ==> !StaticZoneContains(zones[i], pos, time)
    {
      var zone := zones[k];
      if !(time < zone.activeStart || time > zone.activeEnd) {
        var inside := PointInPolygon(zone.coords, pos);
        if inside {
          return true;
        }
      }
      k := k + 1;
    }
    return false;
  }
}
