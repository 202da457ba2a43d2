/**
  The request handler's transformation: normalise, resample every station
  in a loop, concatenate the blocks and render the output table.
 */
module Pipeline {
  import opened Results
  import opened Calendar
  import opened Interpolation
  import opened Schema
  import opened Stations

  /** The block station `c` contributes to the output. */
  function StationOutput(obs: seq<Observation>, c: StationCode): seq<Resampled>
    requires ValidSeries(obs) && Observed(obs, c)
  {
    SeriesValid(obs, c);
    StationBlock(c, FirstName(obs, c), Series(obs, c))
  }

  /** The blocks of the stations `cs`, in that order. */
  function BlocksOf(obs: seq<Observation>, cs: seq<StationCode>): (bs: seq<seq<Resampled>>)
    requires ValidSeries(obs) && forall c :: c in cs ==> Observed(obs, c)
    ensures |bs| == |cs| && forall i :: 0 <= i < |cs| ==> bs[i] == StationOutput(obs, cs[i])
  {
    if cs == [] then []
    else
      var init := cs[..|cs| - 1];
      assert forall i :: 0 <= i < |init| ==> init[i] == cs[i];
      BlocksOf(obs, init) + [StationOutput(obs, cs[|cs| - 1])]
  }

  lemma BlocksOfStep(obs: seq<Observation>, cs: seq<StationCode>, i: nat)
    requires ValidSeries(obs) && forall c :: c in cs ==> Observed(obs, c)
    requires i < |cs|
    ensures BlocksOf(obs, cs[..i + 1]) == BlocksOf(obs, cs[..i]) + [StationOutput(obs, cs[i])]
  {
    assert cs[..i + 1][..i] == cs[..i];
  }

  /** The per-station blocks, in group order. */
  function StationBlocks(obs: seq<Observation>): seq<seq<Resampled>>
    requires ValidSeries(obs)
  {
    BlocksOf(obs, StationCodes(obs))
  }

  /**
    The handler's `for` loop over the station groups, appending each
    station's block to the list of processed stations. Reading the station
    name fails on the first group when the upload has no name column.
   */
  method ResampleStations(obs: seq<Observation>, hasNameColumn: bool) returns (r: Result<seq<seq<Resampled>>, Error>)
    requires ValidSeries(obs)
    ensures r == if |obs| > 0 && !hasNameColumn then Err(MissingColumn(NameColumn)) else Ok(StationBlocks(obs))
  {
    var codes := StationCodes(obs);
    assert |obs| > 0 ==> obs[0].station in codes;
    var processed: seq<seq<Resampled>> := [];
    for i := 0 to |codes|
      invariant processed == BlocksOf(obs, codes[..i])
      invariant i > 0 ==> hasNameColumn
    {
      var code := codes[i];
      if !hasNameColumn {
        return Err(MissingColumn(NameColumn));
      }
      SeriesValid(obs, code);
      var block := StationBlock(code, FirstName(obs, code), Series(obs, code));
      BlocksOfStep(obs, codes, i);
      processed := processed + [block];
    }
    assert codes[..|codes|] == codes;
    return Ok(processed);
  }

  /** The number of rows in all blocks together. */
  function TotalRows(bs: seq<seq<Resampled>>): nat {
    if bs == [] then 0 else |bs[0]| + TotalRows(bs[1..])
  }

  /** `pd.concat` of the processed stations: every block's rows, block after block. */
  function Flatten(bs: seq<seq<Resampled>>): (rs: seq<Resampled>)
    ensures |rs| == TotalRows(bs)
  {
    if bs == [] then [] else bs[0] + Flatten(bs[1..])
  }

  /** The rows of station `c`, in order. */
  function Only(rs: seq<Resampled>, c: StationCode): seq<Resampled> {
    if rs == [] then [] else (if rs[0].station == c then [rs[0]] else []) + Only(rs[1..], c)
  }

  /** Sorted by station code, then by time, without two rows for one station instant. */
  predicate StationTimeOrdered(rs: seq<Resampled>) {
    forall i, j :: 0 <= i < j < |rs| ==>
      rs[i].station < rs[j].station || (rs[i].station == rs[j].station && rs[i].time < rs[j].time)
  }

  /** A block of station `c`: its rows carry `c`, renderable instants in increasing order. */
  predicate BlockOf(b: seq<Resampled>, c: StationCode) {
    (forall k :: 0 <= k < |b| ==> b[k].station == c && ValidInstant(b[k].time))
    && (forall k, l :: 0 <= k < l < |b| ==> b[k].time < b[l].time)
  }

  lemma {:induction false} StationOutputIsBlock(obs: seq<Observation>, c: StationCode)
    requires ValidSeries(obs) && c in StationCodes(obs)
    ensures BlockOf(StationOutput(obs, c), c) && |StationOutput(obs, c)| > 0
  {
    SeriesValid(obs, c);
    var ps := Series(obs, c);
    var b := StationOutput(obs, c);
    assert ValidInstant(ps[0].time) && ValidInstant(ps[|ps| - 1].time);
    forall k, l | 0 <= k < l < |b| ensures b[k].time < b[l].time {
      BlockTimesIncrease(b, k, l);
    }
  }

  lemma {:induction false} BlockTimesIncrease(b: seq<Resampled>, k: nat, l: nat)
    requires forall m :: 0 < m < |b| ==> b[m].time == b[m - 1].time + GridStep
    requires k < l < |b|
    ensures b[k].time < b[l].time
    decreases l - k
  {
    if k + 1 < l { BlockTimesIncrease(b, k + 1, l); }
  }

  /** Concatenating blocks of ascending stations gives a table ordered by station, then time. */
  lemma {:induction false} FlattenOrdered(bs: seq<seq<Resampled>>, cs: seq<StationCode>)
    requires |bs| == |cs| && StrictlyAscending(cs)
    requires forall i :: 0 <= i < |bs| ==> BlockOf(bs[i], cs[i])
    ensures StationTimeOrdered(Flatten(bs))
    ensures forall k :: 0 <= k < |Flatten(bs)| ==>
              Flatten(bs)[k].station in cs && ValidInstant(Flatten(bs)[k].time)
  {
    if bs != [] {
      var head, rest := bs[0], Flatten(bs[1..]);
      FlattenOrdered(bs[1..], cs[1..]);
      var out := Flatten(bs);
      assert out == head + rest;
      forall i, j | 0 <= i < j < |out|
        ensures out[i].station < out[j].station || (out[i].station == out[j].station && out[i].time < out[j].time)
      {
        if j < |head| {
        } else if i >= |head| {
          assert out[i] == rest[i - |head|] && out[j] == rest[j - |head|];
        } else {
          assert out[j] == rest[j - |head|];
          assert out[j].station in cs[1..];
        }
      }
      forall k | 0 <= k < |out| ensures out[k].station in cs && ValidInstant(out[k].time) {
        if k >= |head| {
          assert out[k] == rest[k - |head|];
          assert out[k].station in cs[1..];
        }
      }
    }
  }

  lemma {:induction false} OnlyAppend(a: seq<Resampled>, b: seq<Resampled>, c: StationCode)
    ensures Only(a + b, c) == Only(a, c) + Only(b, c)
  {
    if a == [] {
      assert a + b == b;
    } else {
      var h := if a[0].station == c then [a[0]] else [];
      assert (a + b)[0] == a[0] && (a + b)[1..] == a[1..] + b;
      assert Only(a + b, c) == h + Only(a[1..] + b, c);
      OnlyAppend(a[1..], b, c);
      assert Only(a, c) == h + Only(a[1..], c);
    }
  }

  lemma {:induction false} OnlyUniform(b: seq<Resampled>, c: StationCode)
    requires forall k :: 0 <= k < |b| ==> b[k].station == c
    ensures Only(b, c) == b
  {
    if b != [] { OnlyUniform(b[1..], c); }
  }

  lemma {:induction false} OnlyNone(b: seq<Resampled>, c: StationCode)
    requires forall k :: 0 <= k < |b| ==> b[k].station != c
    ensures Only(b, c) == []
  {
    if b != [] { OnlyNone(b[1..], c); }
  }

  /** Picking one station's rows out of the concatenation gives back exactly its block. */
  lemma {:induction false} FlattenOnly(bs: seq<seq<Resampled>>, cs: seq<StationCode>, k: nat)
    requires |bs| == |cs| && StrictlyAscending(cs) && k < |cs|
    requires forall i :: 0 <= i < |bs| ==> BlockOf(bs[i], cs[i])
    ensures Only(Flatten(bs), cs[k]) == bs[k]
  {
    OnlyAppend(bs[0], Flatten(bs[1..]), cs[k]);
    if k == 0 {
      OnlyUniform(bs[0], cs[0]);
      FlattenOrdered(bs[1..], cs[1..]);
      forall m | 0 <= m < |Flatten(bs[1..])| ensures Flatten(bs[1..])[m].station != cs[0] {
        assert Flatten(bs[1..])[m].station in cs[1..];
      }
      OnlyNone(Flatten(bs[1..]), cs[0]);
    } else {
      OnlyNone(bs[0], cs[k]);
      FlattenOnly(bs[1..], cs[1..], k - 1);
    }
  }

  lemma StationBlocksAreBlocks(obs: seq<Observation>)
    requires ValidSeries(obs)
    ensures |StationBlocks(obs)| == |StationCodes(obs)| && StrictlyAscending(StationCodes(obs))
    ensures forall i :: 0 <= i < |StationCodes(obs)| ==>
              BlockOf(StationBlocks(obs)[i], StationCodes(obs)[i]) && |StationBlocks(obs)[i]| > 0
  {
    var cs := StationCodes(obs);
    StationCodesAscending(obs);
    if cs == [] {
      assert |StationBlocks(obs)| == 0;
    }
    forall i | 0 <= i < |cs|
      ensures |StationBlocks(obs)| == |cs|
      ensures BlockOf(StationBlocks(obs)[i], cs[i]) && |StationBlocks(obs)[i]| > 0
    {
      StationOutputIsBlock(obs, cs[i]);
    }
  }

  /**
    The resampled table is one contiguous block per station, stations in
    ascending code order, instants increasing within a station; every row
    belongs to a station of the input and has a renderable instant.
   */
  lemma OutputOrdered(obs: seq<Observation>)
    requires ValidSeries(obs)
    ensures StationTimeOrdered(Flatten(StationBlocks(obs)))
    ensures forall k :: 0 <= k < |Flatten(StationBlocks(obs))| ==>
              Flatten(StationBlocks(obs))[k].station in StationCodes(obs) &&
              ValidInstant(Flatten(StationBlocks(obs))[k].time)
  {
    StationBlocksAreBlocks(obs);
    FlattenOrdered(StationBlocks(obs), StationCodes(obs));
  }

  /** The concatenated resampled table, every instant of which can be rendered. */
  function Resample(obs: seq<Observation>): (rs: seq<Resampled>)
    requires ValidSeries(obs)
    ensures forall k :: 0 <= k < |rs| ==> ValidInstant(rs[k].time)
  {
    OutputOrdered(obs);
    Flatten(StationBlocks(obs))
  }

  /**
    The rows the output holds for a station are exactly that station's own
    resampled block, computed from its observations alone; a code absent from
    the input has no rows.
   */
  lemma OutputOfStation(obs: seq<Observation>, c: StationCode)
    requires ValidSeries(obs)
    ensures c in StationCodes(obs) ==> Only(Resample(obs), c) == StationOutput(obs, c)
    ensures c !in StationCodes(obs) ==> Only(Resample(obs), c) == []
  {
    var cs := StationCodes(obs);
    var bs := StationBlocks(obs);
    StationBlocksAreBlocks(obs);
    if c in cs {
      var k :| 0 <= k < |cs| && cs[k] == c;
      FlattenOnly(bs, cs, k);
    } else {
      FlattenOrdered(bs, cs);
      OnlyNone(Flatten(bs), c);
    }
  }

  /** One output record, columns in output order. */
  datatype CsvRecord = CsvRecord(date: string, stationCode: StationCode, name: string, radiation: int)

  /** The output header: the input's canonical column names, radiation in watts. */
  const OutputHeader: seq<string> := [DateColumn, StationColumn, NameColumn, WattsColumn]

  datatype Csv = Csv(header: seq<string>, records: seq<CsvRecord>)

  /** Renders each row, the date in `YYYY-MM-DDTHH:MM:SSZ` form. */
  function Render(rs: seq<Resampled>): (out: seq<CsvRecord>)
    requires forall k :: 0 <= k < |rs| ==> ValidInstant(rs[k].time)
    ensures |out| == |rs|
    ensures forall k :: 0 <= k < |rs| ==>
              ParseInstant(out[k].date) == Some(rs[k].time) && out[k].stationCode == rs[k].station &&
              out[k].name == rs[k].name && out[k].radiation == rs[k].radiation
    ensures forall k :: 0 <= k < |rs| ==> ParseDateTime(out[k].date) == Some(ToDateTime(rs[k].time))
  {
    forall k | 0 <= k < |rs|
      ensures ParseInstant(FormatInstant(rs[k].time)) == Some(rs[k].time)
      ensures ParseDateTime(FormatInstant(rs[k].time)) == Some(ToDateTime(rs[k].time))
    {
      FormatRoundTrip(rs[k].time);
    }
    seq(|rs|, k requires 0 <= k < |rs| => CsvRecord(FormatInstant(rs[k].time), rs[k].station, rs[k].name, rs[k].radiation))
  }

  /** Within a station no two output records carry the same date text. */
  lemma RenderedDatesDistinct(rs: seq<Resampled>)
    requires forall k :: 0 <= k < |rs| ==> ValidInstant(rs[k].time)
    requires StationTimeOrdered(rs)
    ensures forall i, j :: 0 <= i < j < |rs| && Render(rs)[i].stationCode == Render(rs)[j].stationCode ==>
              Render(rs)[i].date != Render(rs)[j].date
  {
  }

  /**
    Within each station the upload's rows come in strictly increasing time
    order, on 15-minute boundaries within the renderable years.
   */
  predicate ChronologicalPerStation(u: Upload) {
    (forall i, j :: 0 <= i < j < |u.rows| && u.rows[i].stationCode == u.rows[j].stationCode ==>
       u.rows[i].date < u.rows[j].date)
    && (forall i :: 0 <= i < |u.rows| ==> u.rows[i].date % GridStep == 0 && ValidInstant(u.rows[i].date))
  }

  /**
    The whole transformation of an upload into the output table, or the
    reason none is produced, checked in the order the handler meets them.
   */
  method Process(u: Upload) returns (r: Result<Csv, Error>)
    requires WellFormed(u) && ChronologicalPerStation(u)
    ensures DetectSchema(u.columns) == Unrecognized ==> r == Err(NoRadiationColumn)
    ensures DetectSchema(u.columns) != Unrecognized && DateColumn !in u.columns ==>
              r == Err(MissingColumn(DateColumn))
    ensures DetectSchema(u.columns) != Unrecognized && DateColumn in u.columns && StationColumn !in u.columns ==>
              r == Err(MissingColumn(StationColumn))
    ensures DetectSchema(u.columns) != Unrecognized && DateColumn in u.columns && StationColumn in u.columns ==>
              if u.rows == [] then r == Err(NothingToConcatenate)
              else if NameColumn !in u.columns then r == Err(MissingColumn(NameColumn))
              else
                && Normalize(u).Ok? && ValidSeries(Normalize(u).value)
                && r == Ok(Csv(OutputHeader, Render(Resample(Normalize(u).value))))
  {
    var normalized := Normalize(u);
    if normalized.Err? {
      return Err(normalized.error);
    }
    if StationColumn !in u.columns {
      return Err(MissingColumn(StationColumn));
    }
    var obs := normalized.value;
    assert ValidSeries(obs);
    var processed := ResampleStations(obs, NameColumn in u.columns);
    if processed.Err? {
      return Err(processed.error);
    }
    if processed.value == [] {
      return Err(NothingToConcatenate);
    }
    var rows := Flatten(processed.value);
    assert rows == Resample(obs);
    return Ok(Csv(OutputHeader, Render(rows)));
  }

  /** Two stations with three hourly rows each give nine 15-minute rows each. */
  lemma TwoStationsExample()
    ensures var obs := [Observation(0, 1, "A", 0.0), Observation(0, 2, "B", 5.0),
                        Observation(60, 1, "A", 10.0), Observation(60, 2, "B", 5.0),
                        Observation(120, 1, "A", 20.0), Observation(120, 2, "B", 5.0)];
            ValidSeries(obs) && |Only(Resample(obs), 1)| == 9 && |Only(Resample(obs), 2)| == 9
  {
    var obs := [Observation(0, 1, "A", 0.0), Observation(0, 2, "B", 5.0),
                Observation(60, 1, "A", 10.0), Observation(60, 2, "B", 5.0),
                Observation(120, 1, "A", 20.0), Observation(120, 2, "B", 5.0)];
    ExampleSeries(obs);
    assert Observed(obs, 1) && Observed(obs, 2) by {
      assert obs[0].station == 1 && obs[1].station == 2;
    }
    OutputOfStation(obs, 1);
    OutputOfStation(obs, 2);
  }

  lemma ExampleSeries(obs: seq<Observation>)
    requires obs == [Observation(0, 1, "A", 0.0), Observation(0, 2, "B", 5.0),
                     Observation(60, 1, "A", 10.0), Observation(60, 2, "B", 5.0),
                     Observation(120, 1, "A", 20.0), Observation(120, 2, "B", 5.0)]
    ensures ValidSeries(obs)
    ensures Series(obs, 1) == [Point(0, 0.0), Point(60, 10.0), Point(120, 20.0)]
    ensures Series(obs, 2) == [Point(0, 5.0), Point(60, 5.0), Point(120, 5.0)]
  {
    assert ValidInstant(0) && ValidInstant(60) && ValidInstant(120);
    var p0: seq<Observation> := [];
    var p1 := p0 + [obs[0]];
    var p2 := p1 + [obs[1]];
    var p3 := p2 + [obs[2]];
    var p4 := p3 + [obs[3]];
    var p5 := p4 + [obs[4]];
    assert p5 + [obs[5]] == obs;
    SeriesSnoc(p0, obs[0], 1); SeriesSnoc(p0, obs[0], 2);
    SeriesSnoc(p1, obs[1], 1); SeriesSnoc(p1, obs[1], 2);
    SeriesSnoc(p2, obs[2], 1); SeriesSnoc(p2, obs[2], 2);
    SeriesSnoc(p3, obs[3], 1); SeriesSnoc(p3, obs[3], 2);
    SeriesSnoc(p4, obs[4], 1); SeriesSnoc(p4, obs[4], 2);
    SeriesSnoc(p5, obs[5], 1); SeriesSnoc(p5, obs[5], 2);
  }
}
