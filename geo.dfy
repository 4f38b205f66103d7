/**
 * Distance engine: the length of a trail as the sum of the distances between
 * consecutive points, and the unit / precision / suffix choice used to
 * display a distance.
 *
 * The pairwise metric (a great-circle distance computed by a library) is not
 * modelled; every operation takes it as the parameter `dist`.
 */
module Geo {
  import opened Types

  /** The distance in meters between two trail points. */
  type PairDistance = (TrailPoint, TrailPoint) -> real

  ghost predicate NonNegative(dist: PairDistance) {
    forall a, b :: dist(a, b) >= 0.0
  }

  ghost predicate Symmetric(dist: PairDistance) {
    forall a, b :: dist(a, b) == dist(b, a)
  }

  /**
   * The length of the path through `points`: zero for fewer than two points,
   * otherwise the length up to the next-to-last point plus the last leg.
   */
  function PathDistance(dist: PairDistance, points: seq<TrailPoint>): real
    decreases |points|
  {
    if |points| < 2 then 0.0
    else PathDistance(dist, points[..|points| - 1]) + dist(points[|points| - 2], points[|points| - 1])
  }

  /** An independent reading of the same sum, taken from the front. */
  function LegSum(dist: PairDistance, points: seq<TrailPoint>): real
    decreases |points|
  {
    if |points| < 2 then 0.0
    else dist(points[0], points[1]) + LegSum(dist, points[1..])
  }

  /** The running total of the accumulating loop; returns 0 for fewer than two points. */
  method HaversineDistanceMeters(dist: PairDistance, points: seq<TrailPoint>) returns (total: real)
    ensures |points| < 2 ==> total == 0.0
    ensures total == PathDistance(dist, points)
  {
    if |points| < 2 {
      return 0.0;
    }
    total := 0.0;
    var i := 1;
    while i < |points|
      invariant 1 <= i <= |points|
      invariant total == PathDistance(dist, points[..i])
    {
      assert points[..i + 1][..i] == points[..i];
      total := total + dist(points[i - 1], points[i]);
      i := i + 1;
    }
    assert points[..i] == points;
  }

  /** Appending a point adds exactly the leg from the old last point to it. */
  lemma AppendAddsLeg(dist: PairDistance, points: seq<TrailPoint>, p: TrailPoint)
    requires |points| >= 1
    ensures PathDistance(dist, points + [p]) == PathDistance(dist, points) + dist(points[|points| - 1], p)
  {
    assert (points + [p])[..|points|] == points;
  }

  /** Appending to the path from the front: used to relate the two readings. */
  lemma {:induction false} LegSumAppend(dist: PairDistance, points: seq<TrailPoint>, p: TrailPoint)
    requires |points| >= 1
    ensures LegSum(dist, points + [p]) == LegSum(dist, points) + dist(points[|points| - 1], p)
    decreases |points|
  {
    if |points| == 1 {
      assert (points + [p])[1..] == [p];
    } else {
      assert (points + [p])[1..] == points[1..] + [p];
      LegSumAppend(dist, points[1..], p);
    }
  }

  /** The total is the sum of the distances of all consecutive pairs, read from either end. */
  lemma {:induction false} PathDistanceIsLegSum(dist: PairDistance, points: seq<TrailPoint>)
    ensures PathDistance(dist, points) == LegSum(dist, points)
    decreases |points|
  {
    if |points| >= 2 {
      var front := points[..|points| - 1];
      PathDistanceIsLegSum(dist, front);
      LegSumAppend(dist, front, points[|points| - 1]);
      assert front + [points[|points| - 1]] == points;
    }
  }

  /** With a non-negative metric the total is never negative. */
  lemma {:induction false} PathDistanceNonNegative(dist: PairDistance, points: seq<TrailPoint>)
    requires NonNegative(dist)
    ensures PathDistance(dist, points) >= 0.0
    decreases |points|
  {
    if |points| >= 2 {
      PathDistanceNonNegative(dist, points[..|points| - 1]);
      assert dist(points[|points| - 2], points[|points| - 1]) >= 0.0;
    }
  }

  /** With a non-negative metric the total never decreases when a point is appended. */
  lemma AppendIsMonotone(dist: PairDistance, points: seq<TrailPoint>, p: TrailPoint)
    requires NonNegative(dist)
    ensures PathDistance(dist, points) <= PathDistance(dist, points + [p])
  {
    if |points| == 0 {
      assert |points + [p]| == 1;
    } else {
      AppendAddsLeg(dist, points, p);
      assert dist(points[|points| - 1], p) >= 0.0;
    }
  }

  function Reversed(points: seq<TrailPoint>): (r: seq<TrailPoint>)
    ensures |r| == |points|
    ensures forall i :: 0 <= i < |points| ==> r[i] == points[|points| - 1 - i]
  {
    if points == [] then [] else [points[|points| - 1]] + Reversed(points[..|points| - 1])
  }

  /** With a symmetric metric, walking the trail backwards gives the same total. */
  lemma {:induction false} ReversalKeepsDistance(dist: PairDistance, points: seq<TrailPoint>)
    requires Symmetric(dist)
    ensures PathDistance(dist, Reversed(points)) == PathDistance(dist, points)
    decreases |points|
  {
    if |points| >= 2 {
      var front := points[..|points| - 1];
      var last := points[|points| - 1];
      ReversalKeepsDistance(dist, front);
      var r := Reversed(points);
      assert r == [last] + Reversed(front);
      // from the front, the reversed path starts with the leg from `last` to the old next-to-last point
      PathDistanceIsLegSum(dist, r);
      PathDistanceIsLegSum(dist, Reversed(front));
      assert r[1..] == Reversed(front);
      assert r[1] == points[|points| - 2];
      assert LegSum(dist, r) == dist(last, points[|points| - 2]) + LegSum(dist, Reversed(front));
      assert dist(last, points[|points| - 2]) == dist(points[|points| - 2], last);
    }
  }

  /** What formatDistance puts on screen, short of rendering the digits. */
  datatype Rendering = Rendering(value: real, decimals: nat, suffix: string)

  /** Meters per displayed unit. */
  function Divisor(unit: DistanceUnit): real {
    if unit == Imperial then 1609.34 else 1000.0
  }

  /**
   * Miles for the imperial unit, kilometers otherwise; one decimal place once
   * the converted value reaches 10, two below that.
   */
  function FormatDistance(distanceM: real, unit: DistanceUnit): (r: Rendering)
    ensures r.value * Divisor(unit) == distanceM
    ensures r.suffix == (if unit == Imperial then " mi" else " km")
    ensures r.decimals in {1, 2}
  {
    if unit == Imperial then
      var miles := distanceM / 1609.34;
      Rendering(miles, if miles >= 10.0 then 1 else 2, " mi")
    else
      var km := distanceM / 1000.0;
      Rendering(km, if km >= 10.0 then 1 else 2, " km")
  }

  /** One decimal place exactly when the distance is at least ten display units. */
  lemma FormatPrecisionThreshold(distanceM: real, unit: DistanceUnit)
    ensures FormatDistance(distanceM, unit).decimals == 1 <==> distanceM >= 10.0 * Divisor(unit)
  {
    var r := FormatDistance(distanceM, unit);
    var d := Divisor(unit);
    assert r.value * d == distanceM;
    if r.value >= 10.0 {
      assert r.value * d >= 10.0 * d;
    } else {
      assert r.value * d < 10.0 * d;
    }
  }

  /** Three display cases: 0 m metric, 12345 m metric, 1609.34 m imperial. */
  lemma FormatExamples()
    ensures FormatDistance(0.0, Metric) == Rendering(0.0, 2, " km")
    ensures FormatDistance(12345.0, Metric) == Rendering(12.345, 1, " km")
    ensures FormatDistance(1609.34, Imperial) == Rendering(1.0, 2, " mi")
  {
  }
}
