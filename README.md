# Weather interpolator: a Dafny model of the resampling handler

The weather interpolator takes an uploaded CSV of solar-radiation
observations from weather stations. It normalises the radiation to watts per
square metre and resamples each station's series onto a 15-minute grid by
linear interpolation. The interpolated values are rounded to whole numbers,
and the result is returned as a CSV with dates written as
`YYYY-MM-DDTHH:MM:SSZ`.

This project models that transformation, which is the body of the `index()`
request handler in `app.py`. It has three parts.

- **Schema detection and unit normalisation** (`schema.dfy`, module `Schema`).
  The header is classified as `DirectWatts`, `HourlyJoules` or
  `Unrecognized`. The watts column takes precedence. Hourly joules per square
  centimetre become `v * 10000 / 3600` W/m². The upload is taken as already
  parsed: a set of column names and rows whose date is an instant.
- **Per-station resampling** (`interpolation.dfy`, module `Interpolation`;
  `stations.dfy`, module `Stations`).
  - Rows are grouped by station code, in ascending code order.
  - Each station gets a grid at 15-minute spacing from its first observation
    to its last.
  - Each grid value is the linear interpolation between the bounding
    observations, in exact `real` arithmetic.
  - Values are rounded half to even, as numpy's `round()` does.
  - Every row carries the station's code and the name from its first row.
- **Driver and output assembly** (`pipeline.dfy`, module `Pipeline`).
  - The handler's `for` loop is a method. It appends one block per station
    and is proved equal to a specification function.
  - The blocks are concatenated in group order.
  - The output columns are `date [UTC]`, `stationCode`, `name` and
    `shortWaveRadiation [watts per square meter]`.
  - Dates are rendered by `calendar.dfy` (module `Calendar`). An instant is a
    whole number of minutes since 1970-01-01T00:00Z in the proleptic
    Gregorian calendar. Rendering is proved injective by parsing the text
    back.

Failures are an explicit `Result` (`results.dfy`) instead of exceptions.
They are reported in the order the handler meets them:

1. no radiation column;
2. no `date [UTC]` column, when the date column is read;
3. no `stationCode` column, at the grouping;
4. an upload with no rows, which reaches `pd.concat` with an empty list;
5. no `name` column, read inside the loop for the first station.

Preconditions of the resampler:

- within a station the rows come in strictly increasing time order;
- every time is a multiple of 15 minutes;
- every time lies in the years 1000 to 9999. The range of pandas
  timestamps, 1677 to 2262, lies inside it.

A station with a single observation yields a one-row block. That is what the
code does.

Values are rounded to whole numbers (`.round().astype(int)`, app.py:59).

Sorted input is a precondition. The handler has no explicit sort, but
pandas' `resample` would sort an unsorted station's rows before binning; the
model does not capture that.

## Model

| member | source | states |
|---|---|---|
| Schema.DetectSchema | app.py:25-43 | The schema is DirectWatts exactly when the watts column is present, HourlyJoules exactly when only the joules column is, Unrecognized exactly when neither is |
| Schema.JoulesToWatts | app.py:39-41 | The converted power times one hour (3600 s) equals the hourly energy scaled from cm² to m² (×10000) |
| Schema.JoulesExample | app.py:39-41 | 3.6 J/cm² in an hour is 10 W/m² |
| Schema.Normalize | app.py:24-46 | Fails with NoRadiationColumn exactly when the schema is unrecognised, and with a missing date column exactly when the date column is absent; succeeds exactly when a radiation column and the date column are both present. Then it keeps every row with its date, code and name. Watts values pass through unchanged even beside a joules column; with joules only, each value becomes v*10000/3600 |
| Calendar.YearOf | app.py:83 | The year found contains the day: days before that year <= day < days before the next year |
| Calendar.MonthOf | app.py:83 | The month found contains the day of the year and lies in 1..12 |
| Calendar.ToDateTime | app.py:83 | A renderable instant has a real calendar date: year 1000..9999, month 1..12, day within the month's length, hour < 24, minute < 60. That date denotes the instant again |
| Calendar.DigitsRoundTrip | app.py:83 | Zero-padded decimal digits read back as the number written |
| Calendar.FormatDateTime | app.py:83 | The text is 20 characters long, with '-', '-', 'T', ':', ':' at positions 4, 7, 10, 13, 16, seconds "00" and a final 'Z' |
| Calendar.DateTimeRoundTrip | app.py:83 | Parsing the laid-out text gives back every date and time field |
| Calendar.FormatRoundTrip | app.py:83 | Parsing an instant's rendered text gives back the instant, and reading its fields gives back the instant's calendar date and time of day. Parsing accepts only a real calendar date and a time of day below 24:00 |
| Calendar.TimeOutOfRangeRejected | app.py:83 | A laid-out text whose hour is 24 or more, or whose minute is 60 or more, denotes no instant |
| Calendar.HourTwentyFourRejected | app.py:83 | "1970-01-01T24:00:00Z" is not accepted as a spelling of 1970-01-02T00:00 |
| Calendar.FormatInjective | app.py:83 | Distinct instants are rendered as distinct texts |
| Calendar.EpochText | app.py:83 | Instant 0 is rendered as 1970-01-01T00:00:00Z |
| Interpolation.Lerp | app.py:56 | The line through two observations takes their values at their times and stays between the two values in between |
| Interpolation.ValueAt | app.py:56 | An interpolated value never leaves the range of observed values: no extrapolation |
| Interpolation.ValueAtBetween | app.py:56 | Between two consecutive observations the value is their straight line, so it lies between the two neighbours |
| Interpolation.ValueAtObservation | app.py:56 | At an observation's time the observed value is kept |
| Interpolation.MidpointExample | app.py:56 | 0 at 00:00 and 100 at 01:00 give 50 at 00:30 |
| Interpolation.RoundHalfEven | app.py:59 | The integer is within 1/2 of the value, and a tie goes to the even integer |
| Interpolation.RoundingUnique | app.py:59 | Those two properties determine the rounded integer uniquely |
| Interpolation.RoundWhole | app.py:59 | Rounding leaves whole numbers unchanged |
| Interpolation.Grid | app.py:56 | The grid has (last-first)/15+1 instants. It starts at the first observation and ends at the last, steps by exactly 15 minutes and never leaves the range |
| Interpolation.GridCovers | app.py:56 | Every 15-minute step between the endpoints is on the grid |
| Stations.InsertCode | app.py:50 | Adding a code gives exactly the old codes plus the new one |
| Stations.StationCodes | app.py:50 | The groups are exactly the codes some input row carries |
| Stations.StationCodesAscending | app.py:50 | The groups come in strictly ascending code order, so each code appears once |
| Stations.Series | app.py:50-53 | A station's series holds exactly that station's observations, none from another station |
| Stations.SeriesValid | app.py:50-56 | Under the precondition, a station's series is strictly increasing and on the 15-minute grid, and it is non-empty exactly for the codes that are grouped |
| Stations.FirstName | app.py:63 | The name is that of the station's first row in input order |
| Stations.StationBlock | app.py:52-64 | A station's block has (last-first)/15+1 rows. They run from its first to its last observation in 15-minute steps and carry its code and name. Each radiation is the interpolated value rounded half to even, so within 1/2 of it |
| Stations.BlockAtObservation | app.py:56-59 | Each observation's instant is on its station's grid and holds that observation's value, rounded |
| Stations.BlockBetween | app.py:56-59 | A 15-minute instant strictly between consecutive observations is on the block and holds their rounded straight line, within 1/2 of the neighbours' range |
| Stations.BlockOfRegularSeries | app.py:56-59 | Resampling a series that already has a whole-number value every 15 minutes reproduces it unchanged |
| Pipeline.BlocksOf | app.py:48-66 | The i-th block is the block of the i-th station code |
| Pipeline.ResampleStations | app.py:48-66 | The loop fails with the missing name column when there is at least one station and no name column. Otherwise it returns one block per station, in group order |
| Pipeline.Flatten | app.py:69 | The concatenation has as many rows as all blocks together; its order and per-station contents are stated by Pipeline.FlattenOrdered and Pipeline.FlattenOnly |
| Pipeline.FlattenOrdered | app.py:69 | Concatenating blocks of ascending stations, each increasing in time, gives a table sorted by station and then time |
| Pipeline.FlattenOnly | app.py:69 | Picking one station's rows out of the concatenation gives back exactly its block |
| Pipeline.OutputOrdered | app.py:50-69 | The output is one contiguous block per station, in ascending code order and increasing time within a station. Every row belongs to an input station |
| Pipeline.Resample | app.py:66-69 | Every instant of the concatenated table can be rendered |
| Pipeline.OutputOfStation | app.py:50-69 | A station's rows in the output are exactly its own block, computed from its observations alone, so stations are never mixed. A code absent from the input has no rows |
| Pipeline.Render | app.py:72-83 | Each record's date text reads back as the instant's own calendar date and time of day, and parses back to the instant (parsing accepts only real dates and times of day), and the code, name and radiation are carried over in that column order |
| Pipeline.RenderedDatesDistinct | app.py:83 | Within a station no two records carry the same date text |
| Pipeline.Process | app.py:24-83 | Errors come in the handler's order: no radiation column, no date column, no station column, no rows, no name column. Otherwise the result is the output header followed by the rendered, concatenated per-station blocks |
| Pipeline.TwoStationsExample | app.py:50-69 | Two stations with three hourly rows each give nine 15-minute rows each |

## Left out

- The Flask application, routing, the request-method check, the upload checks (missing file, empty name, extension) and template rendering: web plumbing.
- Decoding the upload and CSV parsing: the upload is given as a set of column names and rows with parsed cells. CSV writing and the response headers are also left out: the output is the header and the records.
- `pd.to_datetime` string parsing, including its failure on unparseable dates: dates arrive as instants.
- The text of the user-facing error messages: failures are the `Error` variants, not strings.
- IEEE floating point in the unit conversion and interpolation: values are exact reals.
- Missing (NaN) cells and missing station codes, which pandas would carry or drop.
- How pandas treats observations off the 15-minute grid, duplicate times within a station, unsorted rows within a station (pandas sorts them before resampling), and instants outside the years 1000-9999. These are excluded by preconditions (`ChronologicalPerStation`, `ValidSeries`) rather than reproduced.
- Station codes that are not integers. Codes are integers ordered numerically, as pandas groups integer codes.
- Uploads whose header already uses the handler's internal names `date_utc` or `shortWaveRadiation`, which the rename would let through.
- The 64-bit range of `astype(int)`: rounded values are unbounded integers.
- Calendar.FormatInstant: its own contract states only the length of the text. The layout is stated by Calendar.FormatDateTime and the round trip by Calendar.FormatRoundTrip.
