/**
  Schema detection and unit normalisation of the uploaded table.

  The upload is modelled after CSV parsing: its header as a set of column
  names and its rows with the date already parsed to an instant.
 */
module Schema {
  import opened Results
  import opened Calendar

  const DateColumn := "date [UTC]"
  const StationColumn := "stationCode"
  const NameColumn := "name"
  const WattsColumn := "shortWaveRadiation [watts per square meter]"
  const JoulesColumn := "globalRadiation60Min [joules per square centimeter]"

  /** Station codes are read as integers; groups are ordered by them. */
  type StationCode = int

  /** One parsed input row; `readings` holds the radiation cells by column name. */
  datatype RawRow = RawRow(date: Instant, stationCode: StationCode, name: string, readings: map<string, real>)

  datatype Upload = Upload(columns: set<string>, rows: seq<RawRow>)

  /** A parsed CSV has a cell in every row for each column of its header. */
  predicate WellFormed(u: Upload) {
    forall i :: 0 <= i < |u.rows| ==>
      (WattsColumn in u.columns ==> WattsColumn in u.rows[i].readings) &&
      (JoulesColumn in u.columns ==> JoulesColumn in u.rows[i].readings)
  }

  /** Why a request produces no CSV. */
  datatype Error =
    | NoRadiationColumn        // 'CSV must contain a radiation column.'
    | MissingColumn(column: string)  // a KeyError on a column the handler reads
    | NothingToConcatenate     // pd.concat of an empty list of stations

  datatype SchemaKind = DirectWatts | HourlyJoules | Unrecognized

  /** Which radiation column the header offers; the watts column takes precedence. */
  function DetectSchema(columns: set<string>): (k: SchemaKind)
    ensures k == DirectWatts <==> WattsColumn in columns
    ensures k == HourlyJoules <==> WattsColumn !in columns && JoulesColumn in columns
    ensures k == Unrecognized <==> WattsColumn !in columns && JoulesColumn !in columns
  {
    if WattsColumn in columns then DirectWatts
    else if JoulesColumn in columns then HourlyJoules
    else Unrecognized
  }

  /** An hourly sum in J/cm² as the hour's average power in W/m². */
  function JoulesToWatts(j: real): (w: real)
    ensures w * 3600.0 == j * 10000.0
  {
    (j * 10000.0) / 3600.0
  }

  lemma JoulesExample()
    ensures JoulesToWatts(3.6) == 10.0
  {
  }

  /** A normalised observation: the canonical columns, radiation in W/m². */
  datatype Observation = Observation(time: Instant, station: StationCode, name: string, radiation: real)

  /**
    Renames the columns to the canonical ones and converts joules to watts;
    fails when there is no radiation column or no date column to parse.
   */
  function Normalize(u: Upload): (r: Result<seq<Observation>, Error>)
    requires WellFormed(u)
    ensures r == Err(NoRadiationColumn) <==> DetectSchema(u.columns) == Unrecognized
    ensures r == Err(MissingColumn(DateColumn)) <==>
              DetectSchema(u.columns) != Unrecognized && DateColumn !in u.columns
    ensures r.Ok? <==> DetectSchema(u.columns) != Unrecognized && DateColumn in u.columns
    ensures r.Ok? ==> |r.value| == |u.rows|
    ensures r.Ok? ==> forall i :: 0 <= i < |u.rows| ==>
              r.value[i].time == u.rows[i].date && r.value[i].station == u.rows[i].stationCode &&
              r.value[i].name == u.rows[i].name
    ensures r.Ok? && WattsColumn in u.columns ==> forall i :: 0 <= i < |u.rows| ==>
              r.value[i].radiation == u.rows[i].readings[WattsColumn]
    ensures r.Ok? && WattsColumn !in u.columns ==> forall i :: 0 <= i < |u.rows| ==>
              r.value[i].radiation == u.rows[i].readings[JoulesColumn] * 10000.0 / 3600.0
  {
    var kind := DetectSchema(u.columns);
    if kind == Unrecognized then Err(NoRadiationColumn)
    else if DateColumn !in u.columns then Err(MissingColumn(DateColumn))
    else Ok(seq(|u.rows|, i requires 0 <= i < |u.rows| =>
      var row := u.rows[i];
      Observation(row.date, row.stationCode, row.name,
        if kind == DirectWatts then row.readings[WattsColumn] else JoulesToWatts(row.readings[JoulesColumn]))))
  }
}
