/**
  Grouping of the normalised observations by station, and the resampled
  block each station contributes to the output.
 */
module Stations {
  import opened Calendar
  import opened Interpolation
  import opened Schema

  /** One row of the resampled table, before the date is rendered. */
  datatype Resampled = Resampled(time: Instant, station: StationCode, name: string, radiation: int)

  /**
    What the resampler relies on: within a station the rows come in strictly
    increasing time order, and every time lies on a 15-minute boundary within
    the years the date format can render.
   */
  predicate ValidSeries(obs: seq<Observation>) {
    (forall i, j :: 0 <= i < j < |obs| && obs[i].station == obs[j].station ==> obs[i].time < obs[j].time)
    && (forall i :: 0 <= i < |obs| ==> obs[i].time % GridStep == 0 && ValidInstant(obs[i].time))
  }

  /** Some row of the input belongs to station `c`. */
  predicate Observed(obs: seq<Observation>, c: StationCode) {
    exists i :: 0 <= i < |obs| && obs[i].station == c
  }

  /** Point `p` is an observation of station `c`. */
  predicate ObservedPoint(obs: seq<Observation>, c: StationCode, p: Point) {
    exists i :: 0 <= i < |obs| && obs[i].station == c && p == Point(obs[i].time, obs[i].radiation)
  }

  predicate StrictlyAscending(cs: seq<StationCode>) {
    forall i, j :: 0 <= i < j < |cs| ==> cs[i] < cs[j]
  }

  /** Adds code `c` to an ascending list of codes unless it is already there. */
  function InsertCode(cs: seq<StationCode>, c: StationCode): (r: seq<StationCode>)
    ensures forall x :: x in r <==> x in cs || x == c
  {
    if cs == [] then [c]
    else if c < cs[0] then [c] + cs
    else if c == cs[0] then cs
    else [cs[0]] + InsertCode(cs[1..], c)
  }

  lemma {:induction false} InsertCodeAscending(cs: seq<StationCode>, c: StationCode)
    requires StrictlyAscending(cs)
    ensures StrictlyAscending(InsertCode(cs, c))
  {
    if cs != [] && c > cs[0] {
      var rest := InsertCode(cs[1..], c);
      InsertCodeAscending(cs[1..], c);
      assert forall x :: x in cs[1..] ==> cs[0] < x;
      assert forall k :: 0 <= k < |rest| ==> rest[k] in rest && cs[0] < rest[k];
      assert InsertCode(cs, c) == [cs[0]] + rest;
    }
  }

  /** The groups of `groupby('stationCode')`: each code once, in ascending order. */
  function StationCodes(obs: seq<Observation>): (cs: seq<StationCode>)
    ensures forall c :: c in cs <==> Observed(obs, c)
  {
    if obs == [] then []
    else
      var init := obs[..|obs| - 1];
      var cs := StationCodes(init);
      assert forall i :: 0 <= i < |init| ==> init[i] == obs[i];
      var r := InsertCode(cs, obs[|obs| - 1].station);
      assert forall c :: Observed(init, c) ==> Observed(obs, c);
      assert forall c :: Observed(obs, c) ==> Observed(init, c) || c == obs[|obs| - 1].station;
      r
  }

  /** The groups come in strictly ascending code order, hence each code once. */
  lemma {:induction false} StationCodesAscending(obs: seq<Observation>)
    ensures StrictlyAscending(StationCodes(obs))
    decreases |obs|
  {
    if obs != [] {
      StationCodesAscending(obs[..|obs| - 1]);
      InsertCodeAscending(StationCodes(obs[..|obs| - 1]), obs[|obs| - 1].station);
    }
  }

  /** The observations of station `c`, in input order, as time/value points. */
  function Series(obs: seq<Observation>, c: StationCode): (ps: seq<Point>)
    ensures forall p :: p in ps <==> ObservedPoint(obs, c, p)
  {
    if obs == [] then []
    else
      var last := obs[|obs| - 1];
      var ps := Series(obs[..|obs| - 1], c);
      assert forall i :: 0 <= i < |obs| - 1 ==> obs[..|obs| - 1][i] == obs[i];
      var r := ps + if last.station == c then [Point(last.time, last.radiation)] else [];
      assert forall p :: ObservedPoint(obs[..|obs| - 1], c, p) ==> ObservedPoint(obs, c, p);
      assert forall p :: ObservedPoint(obs, c, p) ==>
               ObservedPoint(obs[..|obs| - 1], c, p) || (last.station == c && p == Point(last.time, last.radiation));
      r
  }

  /** A row appended to the input extends its own station's series only. */
  lemma SeriesSnoc(obs: seq<Observation>, o: Observation, c: StationCode)
    ensures Series(obs + [o], c) == Series(obs, c) + if o.station == c then [Point(o.time, o.radiation)] else []
  {
    assert (obs + [o])[..|obs|] == obs;
  }

  /** A station's series is sorted, on the grid and present when the station is. */
  lemma {:induction false} SeriesValid(obs: seq<Observation>, c: StationCode)
    requires ValidSeries(obs)
    ensures Increasing(Series(obs, c)) && Aligned(Series(obs, c))
    ensures forall k :: 0 <= k < |Series(obs, c)| ==> ValidInstant(Series(obs, c)[k].time)
    ensures |Series(obs, c)| > 0 <==> c in StationCodes(obs)
  {
    if obs != [] {
      var init := obs[..|obs| - 1];
      var last := obs[|obs| - 1];
      assert forall i :: 0 <= i < |init| ==> init[i] == obs[i];
      SeriesValid(init, c);
      var ps := Series(init, c);
      if last.station == c {
        var qs := Series(obs, c);
        assert qs == ps + [Point(last.time, last.radiation)];
        forall k | 0 <= k < |ps|
          ensures ps[k].time < last.time
        {
          assert ps[k] in ps;
          var i :| 0 <= i < |init| && init[i].station == c && ps[k] == Point(init[i].time, init[i].radiation);
        }
        assert Point(last.time, last.radiation) in qs;
      }
    }
  }

  /** The station's name: that of its first row (`iloc[0]`). */
  function FirstName(obs: seq<Observation>, c: StationCode): (name: string)
    requires Observed(obs, c)
    ensures exists i :: 0 <= i < |obs| && obs[i].station == c && obs[i].name == name &&
              forall j :: 0 <= j < i ==> obs[j].station != c
  {
    if obs[0].station == c then obs[0].name
    else
      assert Observed(obs[1..], c) by {
        var i :| 0 <= i < |obs| && obs[i].station == c;
        assert obs[1..][i - 1] == obs[i];
      }
      var name := FirstName(obs[1..], c);
      assert forall i :: 1 <= i < |obs| ==> obs[1..][i - 1] == obs[i];
      name
  }

  /**
    A station's resampled block: one row per grid instant from its first to
    its last observation, each stamped with the station's code and name and
    holding the interpolated radiation rounded half to even.
   */
  function StationBlock(code: StationCode, name: string, ps: seq<Point>): (b: seq<Resampled>)
    requires |ps| > 0 && Increasing(ps) && Aligned(ps)
    ensures |b| == (ps[|ps| - 1].time - ps[0].time) / GridStep + 1
    ensures b[0].time == ps[0].time && b[|b| - 1].time == ps[|ps| - 1].time
    ensures forall k :: 0 < k < |b| ==> b[k].time == b[k - 1].time + GridStep
    ensures forall k :: 0 <= k < |b| ==>
              b[k].station == code && b[k].name == name && ps[0].time <= b[k].time <= ps[|ps| - 1].time
    ensures forall k :: 0 <= k < |b| ==>
              b[k].radiation == RoundHalfEven(ValueAt(ps, b[k].time)) &&
              ValueAt(ps, b[k].time) - 0.5 <= b[k].radiation as real <= ValueAt(ps, b[k].time) + 0.5
  {
    var first, last := ps[0].time, ps[|ps| - 1].time;
    assert (last - first) % GridStep == 0 by {
      if |ps| > 1 { assert first < last; }
    }
    var g := Grid(first, last);
    seq(|g|, k requires 0 <= k < |g| => Resampled(g[k], code, name, RoundHalfEven(ValueAt(ps, g[k]))))
  }

  /** An observation's instant is on its station's grid and keeps its (rounded) value. */
  lemma BlockAtObservation(code: StationCode, name: string, ps: seq<Point>, k: nat)
    requires |ps| > 0 && Increasing(ps) && Aligned(ps) && k < |ps|
    ensures (ps[k].time - ps[0].time) / GridStep < |StationBlock(code, name, ps)|
    ensures StationBlock(code, name, ps)[(ps[k].time - ps[0].time) / GridStep].time == ps[k].time
    ensures StationBlock(code, name, ps)[(ps[k].time - ps[0].time) / GridStep].radiation == RoundHalfEven(ps[k].value)
  {
    var first, last := ps[0].time, ps[|ps| - 1].time;
    if k > 0 { assert first < ps[k].time; }
    if k < |ps| - 1 { assert ps[k].time < last; }
    if |ps| > 1 { assert first < last; }
    GridCovers(first, last, ps[k].time);
    ValueAtObservation(ps, k);
  }

  /**
    A grid instant strictly between two consecutive observations holds their
    straight line, rounded, so it stays within half a unit of their range.
   */
  lemma BlockBetween(code: StationCode, name: string, ps: seq<Point>, k: nat, t: Instant)
    requires |ps| > 0 && Increasing(ps) && Aligned(ps) && k + 1 < |ps|
    requires ps[k].time < t < ps[k + 1].time && t % GridStep == 0
    ensures (t - ps[0].time) / GridStep < |StationBlock(code, name, ps)|
    ensures StationBlock(code, name, ps)[(t - ps[0].time) / GridStep].time == t
    ensures StationBlock(code, name, ps)[(t - ps[0].time) / GridStep].radiation == RoundHalfEven(Lerp(ps[k], ps[k + 1], t))
    ensures Min(ps[k].value, ps[k + 1].value) - 0.5
              <= StationBlock(code, name, ps)[(t - ps[0].time) / GridStep].radiation as real
              <= Max(ps[k].value, ps[k + 1].value) + 0.5
  {
    var first, last := ps[0].time, ps[|ps| - 1].time;
    assert first <= ps[k].time && ps[k + 1].time <= last;
    assert first < last;
    GridCovers(first, last, t);
    ValueAtBetween(ps, k, t);
  }

  /**
    Resampling a series that already has a whole-number reading at every
    15-minute step reproduces it unchanged.
   */
  lemma BlockOfRegularSeries(code: StationCode, name: string, ps: seq<Point>)
    requires |ps| > 0 && Increasing(ps) && Aligned(ps)
    requires forall k :: 0 < k < |ps| ==> ps[k].time == ps[k - 1].time + GridStep
    requires forall k :: 0 <= k < |ps| ==> ps[k].value == ps[k].value.Floor as real
    ensures |StationBlock(code, name, ps)| == |ps|
    ensures forall k :: 0 <= k < |ps| ==>
              StationBlock(code, name, ps)[k] == Resampled(ps[k].time, code, name, ps[k].value.Floor)
  {
    var b := StationBlock(code, name, ps);
    assert forall k :: 0 <= k < |ps| ==> ps[k].time == ps[0].time + GridStep * k by {
      forall k | 0 <= k < |ps| ensures ps[k].time == ps[0].time + GridStep * k {
        RegularTimes(ps, k);
      }
    }
    forall k | 0 <= k < |ps|
      ensures b[k] == Resampled(ps[k].time, code, name, ps[k].value.Floor)
    {
      BlockAtObservation(code, name, ps, k);
      RoundWhole(ps[k].value.Floor);
    }
  }

  lemma {:induction false} RegularTimes(ps: seq<Point>, k: nat)
    requires forall i :: 0 < i < |ps| ==> ps[i].time == ps[i - 1].time + GridStep
    requires k < |ps|
    ensures ps[k].time == ps[0].time + GridStep * k
  {
    if k > 0 { RegularTimes(ps, k - 1); }
  }
}
