/** `isRouteValid`: a straight flight is sampled every 2 distance units
    (both endpoints included) and is invalid as soon as one sample, taken at
    its interpolated time, lies in an active zone. */
module RouteCheck {
  import opened Types
  import opened Zones

  /** Linear interpolation between two points. */
  function Lerp(from: Point, to: Point, progress: real): Point {
    Point(from.x + (to.x - from.x) * progress, from.y + (to.y - from.y) * progress)
  }

  /** `Math.ceil(distance / 2)`. */
  function StepCount(m: MathLib, from: Point, to: Point): int {
    Ceil(Distance(m, from, to) / 2.0)
  }

  /** Whether sample `i` of `steps` (position and time both at `i/steps` of
      the way) lies in an active zone. */
  predicate SampleBlocked(m: MathLib, zones: seq<Zone>, from: Point, to: Point, startTime: real, travelTime: real,
                          steps: int, i: int)
    requires steps > 0
  {
    InAnyZone(m, zones, SamplePos(from, to, steps, i), SampleTime(startTime, travelTime, steps, i))
  }

  /** Position of sample `i`: `i/steps` of the way. */
  function SamplePos(from: Point, to: Point, steps: int, i: int): Point
    requires steps > 0
  {
    Lerp(from, to, (i as real) / (steps as real))
  }

  /** Time of sample `i`: `i/steps` of the travel time after the start. */
  function SampleTime(startTime: real, travelTime: real, steps: int, i: int): real
    requires steps > 0
  {
    startTime + travelTime * ((i as real) / (steps as real))
  }

  /** The route check. With `steps == 0` the source's only sample is at
      progress `0/0`, a NaN position and time that every comparison rejects,
      so no zone contains it and the route counts as valid. */
  predicate RouteValid(m: MathLib, zones: seq<Zone>, from: Point, to: Point, startTime: real, speed: real)
    requires speed != 0.0
  {
    var steps := StepCount(m, from, to);
    var travelTime := Distance(m, from, to) / speed;
    steps <= 0 || forall i | 0 <= i <= steps :: !SampleBlocked(m, zones, from, to, startTime, travelTime, steps, i)
  }

  method IsRouteValid(m: MathLib, zones: seq<Zone>, fromPos: Point, toPos: Point, startTime: real, speed: real)
    returns (valid: bool)
    requires speed != 0.0
    ensures valid == RouteValid(m, zones, fromPos, toPos, startTime, speed)
  {
    var distance := Distance(m, fromPos, toPos);
    var travelTime := distance / speed;
    var steps := Ceil(distance / 2.0);
    if steps <= 0 {
      // no sample at all, or (steps == 0) the single NaN sample, which lies in no zone
      return true;
    }
    var i := 0;
    while i <= steps
      invariant 0 <= i <= steps + 1
      invariant forall k :: 0 <= k < i ==> !SampleBlocked(m, zones, fromPos, toPos, startTime, travelTime, steps, k)
    {
      var blocked := SampleInZone(m, zones, fromPos, toPos, startTime, travelTime, steps, i);
      if blocked {
        return false;
      }
      i := i + 1;
    }
    return true;
  }

  /** One iteration of the sampling loop: the point and time `i/steps` of the way. */
  method SampleInZone(m: MathLib, zones: seq<Zone>, fromPos: Point, toPos: Point, startTime: real, travelTime: real,
                      steps: int, i: int) returns (blocked: bool)
    requires steps > 0
    ensures blocked == SampleBlocked(m, zones, fromPos, toPos, startTime, travelTime, steps, i)
  {
    var progress := (i as real) / (steps as real);
    var currentPos := Lerp(fromPos, toPos, progress);
    var currentTime := startTime + travelTime * progress;
    assert currentPos == SamplePos(fromPos, toPos, steps, i);
    assert currentTime == SampleTime(startTime, travelTime, steps, i);
    blocked := IsInNoFlyZone(m, zones, currentPos, currentTime);
  }

  /** Both endpoints are among the samples: a valid route of positive length
      starts outside every zone at `startTime` and ends outside every zone at
      the arrival time. */
  lemma EndpointsChecked(m: MathLib, zones: seq<Zone>, from: Point, to: Point, startTime: real, speed: real)
    requires speed != 0.0
    requires RouteValid(m, zones, from, to, startTime, speed) && StepCount(m, from, to) > 0
    ensures !InAnyZone(m, zones, from, startTime)
    ensures !InAnyZone(m, zones, to, startTime + Distance(m, from, to) / speed)
  {
    var steps := StepCount(m, from, to);
    var travel := Distance(m, from, to) / speed;
    assert !InAnyZone(m, zones, SamplePos(from, to, steps, 0), SampleTime(startTime, travel, steps, 0)) by {
      SampleChecked(m, zones, from, to, startTime, speed, 0);
    }
    assert !InAnyZone(m, zones, SamplePos(from, to, steps, steps), SampleTime(startTime, travel, steps, steps)) by {
      SampleChecked(m, zones, from, to, startTime, speed, steps);
    }
    SampleEndpoints(from, to, startTime, travel, steps);
  }

  /** Each sample of a valid route is outside every zone. */
  lemma SampleChecked(m: MathLib, zones: seq<Zone>, from: Point, to: Point, startTime: real, speed: real, i: int)
    requires speed != 0.0
    requires RouteValid(m, zones, from, to, startTime, speed) && 0 <= i <= StepCount(m, from, to) && StepCount(m, from, to) > 0
    ensures !InAnyZone(m, zones, SamplePos(from, to, StepCount(m, from, to), i),
                       SampleTime(startTime, Distance(m, from, to) / speed, StepCount(m, from, to), i))
  {
    assert !SampleBlocked(m, zones, from, to, startTime, Distance(m, from, to) / speed, StepCount(m, from, to), i);
  }

  lemma SampleEndpoints(from: Point, to: Point, startTime: real, travelTime: real, steps: int)
    requires steps > 0
    ensures SamplePos(from, to, steps, 0) == from && SampleTime(startTime, travelTime, steps, 0) == startTime
    ensures SamplePos(from, to, steps, steps) == to && SampleTime(startTime, travelTime, steps, steps) == startTime + travelTime
  {
    assert (0 as real) / (steps as real) == 0.0;
    assert (steps as real) / (steps as real) == 1.0;
  }

  /** A zero-length flight is always valid, whatever the zones. */
  lemma ZeroLengthRouteValid(m: MathLib, zones: seq<Zone>, p: Point, startTime: real, speed: real)
    requires ValidMath(m) && speed != 0.0
    ensures RouteValid(m, zones, p, p, startTime, speed)
  {
    DistanceFacts(m, p, p);
    assert StepCount(m, p, p) == 0;
  }
}
