/** The computation the program runs on the parsed data set: the guard
    against an empty data set, the regression, the forecast over the fixed
    horizon and the pairing of each prediction with its year. */
module Pipeline {
  import opened Regression
  import opened Forecasting

  /** The first and last year forecast. */
  const StartYear: int := 2024
  const EndYear: int := 2124

  /** One output row: a year and the anomaly forecast for it. */
  datatype Row = Row(year: int, value: real)

  /** What the program ends with: it stops with an error on an empty data
      set; otherwise it has fitted `line` (taking the fallback, with its
      warning, when `degenerate`) and forecast `rows`. */
  datatype Outcome = EmptyDataset | Forecasted(line: Line, degenerate: bool, rows: seq<Row>)

  /** Pairs the i-th value with the year startYear + i. */
  method Tabulate(startYear: int, values: seq<real>) returns (rows: seq<Row>)
    ensures |rows| == |values|
    ensures forall i :: 0 <= i < |rows| ==> rows[i] == Row(startYear + i, values[i])
  {
    rows := [];
    for i := 0 to |values|
      invariant |rows| == i
      invariant forall k :: 0 <= k < i ==> rows[k] == Row(startYear + k, values[k])
    {
      rows := rows + [Row(startYear + i, values[i])];
    }
  }

  /** The forecast of `line` over the years from `startYear` to `endYear`,
      each value beside its year. */
  method ForecastTable(line: Line, startYear: int, endYear: int) returns (rows: seq<Row>)
    requires startYear <= endYear
    ensures |rows| == endYear - startYear + 1
    ensures forall i :: 0 <= i < |rows| ==> rows[i] == Row(startYear + i, line.At((startYear + i) as real))
  {
    var predictions := Forecast(line.slope, line.intercept, startYear, endYear);
    rows := Tabulate(startYear, predictions);
    PairedPredictions(line, startYear, predictions, rows);
  }

  /** The program on parsed samples of equal length: an empty data set is
      refused; otherwise there is one row per year of the horizon, in
      ascending order of year, each holding the fitted line's value at that
      year. */
  method Run(years: seq<real>, anomalies: seq<real>) returns (outcome: Outcome)
    requires |years| == |anomalies|
    ensures outcome.EmptyDataset? <==> |years| == 0
    ensures |years| > 0 ==> outcome.line == Fit(years, anomalies)
    ensures |years| > 0 ==> (outcome.degenerate <==> AllEqual(years))
    ensures outcome.Forecasted? ==> |outcome.rows| == 101
    ensures outcome.Forecasted? ==> forall i :: 0 <= i < |outcome.rows| ==>
      outcome.rows[i] == Row(StartYear + i, outcome.line.At((StartYear + i) as real))
  {
    if |years| == 0 || |anomalies| == 0 {
      return EmptyDataset;
    }
    var line, degenerate := LinearRegression(years, anomalies);
    var rows := ForecastTable(line, StartYear, EndYear);
    outcome := Forecasted(line, degenerate, rows);
  }

  /** Pairing the forecast of `line` with the years from `startYear` puts
      each year beside the line's value at that year. */
  lemma PairedPredictions(line: Line, startYear: int, predictions: seq<real>, rows: seq<Row>)
    requires |rows| == |predictions|
    requires forall i :: 0 <= i < |predictions| ==>
      predictions[i] == line.slope * ((startYear + i) as real) + line.intercept
    requires forall i :: 0 <= i < |rows| ==> rows[i] == Row(startYear + i, predictions[i])
    ensures forall i :: 0 <= i < |rows| ==> rows[i] == Row(startYear + i, line.At((startYear + i) as real))
  {
  }

  /** The rows of a forecast are 101, one per year of the horizon 2024 to
      2124 in ascending order of year. */
  lemma RowsFollowHorizon(rows: seq<Row>)
    requires |rows| == EndYear - StartYear + 1
    requires forall i :: 0 <= i < |rows| ==> rows[i].year == StartYear + i
    ensures |rows| == |Horizon(StartYear, EndYear)| == 101
    ensures forall i :: 0 <= i < |rows| ==> rows[i].year == Horizon(StartYear, EndYear)[i]
    ensures forall i, j :: 0 <= i < j < |rows| ==> rows[i].year < rows[j].year
  {
  }
}
