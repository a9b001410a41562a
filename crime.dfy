/** The crime-rate panel of src/components/crime.js: whether the rate in the last
    year column is above the rate in the first, as a flag and a text. */
module Crime {
  import opened Rows
  import opened Stats

  /** `data`, `labels`, `isIncreasing` and `trendMessage`. */
  datatype CrimeState = CrimeState(data: Option<Row>, labels: seq<string>, isIncreasing: bool, trendMessage: Trend)

  /** The `useState` initial values. */
  const Initial: CrimeState := CrimeState(None, [], false, NoTrend)

  /** `analyzeTrend`: compares the last value of the series with the first. */
  function AnalyzeTrend(series: seq<Option<real>>): (r: (bool, Trend))
    ensures r.0 <==> |series| > 0 && series[0].Some? && series[|series| - 1].Some?
                      && series[|series| - 1].value > series[0].value
    ensures r.1.Increasing? <==> r.0
    ensures r.1 != NoTrend
  {
    var rising := EndpointsRising(series);
    (rising, TrendOf(rising))
  }

  /** The body of `fetchData` once the district's rows have answered: the series is
      every year column of the row, in key order. */
  function Refresh(prev: CrimeState, selectedQuery: Query, parse: string -> Option<real>): (next: CrimeState)
    ensures FirstOf(selectedQuery).None? ==> next == prev
    ensures FirstOf(selectedQuery).Some? ==>
      var row := FirstOf(selectedQuery).value;
      var years := YearLabels(row.keys);
      && next.data == Some(row)
      && next.labels == years
      && (next.isIncreasing, next.trendMessage) == AnalyzeTrend(CellsAt(row, years, parse))
  {
    match FirstOf(selectedQuery)
    case None => prev
    case Some(row) =>
      var years := YearLabels(row.keys);
      var (flag, message) := AnalyzeTrend(CellsAt(row, years, parse));
      CrimeState(Some(row), years, flag, message)
  }

  /** The flag compares the first and the last year column of the row; with no year
      column it is never set. */
  lemma FlagMeans(prev: CrimeState, selectedQuery: Query, parse: string -> Option<real>)
    requires FirstOf(selectedQuery).Some?
    ensures var row := FirstOf(selectedQuery).value;
      var years := YearLabels(row.keys);
      var next := Refresh(prev, selectedQuery, parse);
      && (|years| == 0 ==> !next.isIncreasing)
      && (|years| > 0 ==>
            (next.isIncreasing <==> Rising(Cell(row, years[0], parse), Cell(row, years[|years| - 1], parse))))
      && (next.trendMessage == Increasing <==> next.isIncreasing)
  {
  }

  /** Only the endpoints matter: the years between them change nothing. */
  lemma EndpointsOnly(series: seq<Option<real>>, other: seq<Option<real>>)
    requires |series| > 0 && |other| > 0
    requires other[0] == series[0] && other[|other| - 1] == series[|series| - 1]
    ensures AnalyzeTrend(other) == AnalyzeTrend(series)
  {
  }

  /** A single year column never rises: it is compared with itself. */
  lemma SingleYearFalls(v: Option<real>)
    ensures AnalyzeTrend([v]) == (false, Decreasing)
  {
  }

  /** Refreshing twice with the same answer is refreshing once. */
  lemma RefreshIdempotent(prev: CrimeState, selectedQuery: Query, parse: string -> Option<real>)
    ensures var once := Refresh(prev, selectedQuery, parse);
      Refresh(once, selectedQuery, parse) == once
  {
  }
}
