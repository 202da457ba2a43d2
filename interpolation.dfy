/**
  One station's series on the 15-minute grid: the grid itself, linear
  interpolation between bounding observations, and rounding half to even.
 */
module Interpolation {
  import opened Calendar

  /** Spacing of the resampling grid, in minutes ('15T'). */
  const GridStep := 15

  /** An observation of one station: its instant and its radiation in W/m². */
  datatype Point = Point(time: Instant, value: real)

  /** Observation times strictly increase: distinct and sorted. */
  predicate Increasing(ps: seq<Point>) {
    forall i, j :: 0 <= i < j < |ps| ==> ps[i].time < ps[j].time
  }

  /** Every observation lies on a 15-minute boundary. */
  predicate Aligned(ps: seq<Point>) {
    forall i :: 0 <= i < |ps| ==> ps[i].time % GridStep == 0
  }

  function Min(a: real, b: real): real { if a <= b then a else b }
  function Max(a: real, b: real): real { if a <= b then b else a }

  /** The straight line through `p` and `q`, evaluated at `t`. */
  function Lerp(p: Point, q: Point, t: Instant): (v: real)
    requires p.time < q.time
    ensures t == p.time ==> v == p.value
    ensures t == q.time ==> v == q.value
    ensures p.time <= t <= q.time ==> Min(p.value, q.value) <= v <= Max(p.value, q.value)
  {
    var w := (t - p.time) as real / (q.time - p.time) as real;
    var d := q.value - p.value;
    assert p.time <= t <= q.time ==> 0.0 <= w <= 1.0 && (d >= 0.0 ==> 0.0 <= d * w <= d) && (d < 0.0 ==> d <= d * w <= 0.0);
    p.value + d * w
  }

  /** The smallest and the largest observed value. */
  function Lowest(ps: seq<Point>): real
    requires |ps| > 0
  {
    if |ps| == 1 then ps[0].value else Min(ps[0].value, Lowest(ps[1..]))
  }

  function Highest(ps: seq<Point>): real
    requires |ps| > 0
  {
    if |ps| == 1 then ps[0].value else Max(ps[0].value, Highest(ps[1..]))
  }

  /**
    The interpolated value at `t`, which lies within the observed range:
    the observation's value at an observation time, otherwise the line
    through the two observations that bound `t`.
   */
  function ValueAt(ps: seq<Point>, t: Instant): (v: real)
    requires |ps| > 0 && Increasing(ps)
    requires ps[0].time <= t <= ps[|ps| - 1].time
    ensures Lowest(ps) <= v <= Highest(ps)
    decreases |ps|
  {
    if t == ps[0].time then ps[0].value
    else if t <= ps[1].time then Lerp(ps[0], ps[1], t)
    else ValueAt(ps[1..], t)
  }

  /** Between two consecutive observations the value is their straight line. */
  lemma {:induction false} ValueAtBetween(ps: seq<Point>, k: nat, t: Instant)
    requires Increasing(ps) && k + 1 < |ps|
    requires ps[k].time <= t <= ps[k + 1].time
    ensures ValueAt(ps, t) == Lerp(ps[k], ps[k + 1], t)
    ensures Min(ps[k].value, ps[k + 1].value) <= ValueAt(ps, t) <= Max(ps[k].value, ps[k + 1].value)
  {
    if k > 0 {
      assert ps[0].time < ps[k].time;
      ValueAtBetween(ps[1..], k - 1, t);
    }
  }

  /** At an observation time the observed value is kept. */
  lemma ValueAtObservation(ps: seq<Point>, k: nat)
    requires Increasing(ps) && k < |ps|
    ensures ValueAt(ps, ps[k].time) == ps[k].value
  {
    if k + 1 < |ps| {
      ValueAtBetween(ps, k, ps[k].time);
    } else if k > 0 {
      ValueAtBetween(ps, k - 1, ps[k].time);
    }
  }

  /** 0 at 00:00 and 100 at 01:00 give 50 at 00:30. */
  lemma MidpointExample()
    ensures ValueAt([Point(0, 0.0), Point(60, 100.0)], 30) == 50.0
  {
    ValueAtBetween([Point(0, 0.0), Point(60, 100.0)], 0, 30);
  }

  /** pandas/numpy `round()`: nearest integer, ties to the even one. */
  function RoundHalfEven(x: real): (r: int)
    ensures x - 0.5 <= r as real <= x + 0.5
    ensures (r as real - x == 0.5 || x - r as real == 0.5) ==> r % 2 == 0
  {
    var f := x.Floor;
    var frac := x - f as real;
    if frac < 0.5 then f
    else if frac > 0.5 then f + 1
    else if f % 2 == 0 then f
    else f + 1
  }

  /** The two properties of RoundHalfEven determine its result. */
  lemma RoundingUnique(x: real, n: int)
    requires x - 0.5 <= n as real <= x + 0.5
    requires (n as real - x == 0.5 || x - n as real == 0.5) ==> n % 2 == 0
    ensures RoundHalfEven(x) == n
  {
  }

  /** Whole numbers are left as they are. */
  lemma RoundWhole(n: int)
    ensures RoundHalfEven(n as real) == n
  {
    RoundingUnique(n as real, n);
  }

  /** The instants at 15-minute spacing from `first` to `last`, both included. */
  function Grid(first: Instant, last: Instant): (g: seq<Instant>)
    requires first <= last && (last - first) % GridStep == 0
    ensures |g| == (last - first) / GridStep + 1
    ensures g[0] == first && g[|g| - 1] == last
    ensures forall k :: 0 < k < |g| ==> g[k] == g[k - 1] + GridStep
    ensures forall k :: 0 <= k < |g| ==> first <= g[k] <= last && (g[k] - first) % GridStep == 0
  {
    seq((last - first) / GridStep + 1, k => first + GridStep * k)
  }

  /** Every 15-minute step between the endpoints is on the grid. */
  lemma GridCovers(first: Instant, last: Instant, t: Instant)
    requires first <= last && (last - first) % GridStep == 0
    requires first <= t <= last && (t - first) % GridStep == 0
    ensures (t - first) / GridStep < |Grid(first, last)|
    ensures Grid(first, last)[(t - first) / GridStep] == t
  {
  }
}
