/** The traffic-accident panel of src/components/traffic.js: whether the count in
    the last year column is above the count in the first, as a text. */
module Traffic {
  import opened Rows
  import opened Stats

  /** `data`, `labels` and `trend`. */
  datatype TrafficState = TrafficState(data: Option<Row>, labels: seq<string>, trend: Trend)

  /** The `useState` initial values. */
  const Initial: TrafficState := TrafficState(None, [], NoTrend)

  /** `analyzeTrend`: the rising text when the last value exceeds the first. */
  function AnalyzeTrend(series: seq<Option<real>>): (r: Trend)
    ensures r == Increasing <==> |series| > 0 && series[0].Some? && series[|series| - 1].Some?
                                 && series[|series| - 1].value > series[0].value
    ensures r != NoTrend
  {
    TrendOf(EndpointsRising(series))
  }

  /** The body of `fetchData` once the district's rows have answered. */
  function Refresh(prev: TrafficState, selectedQuery: Query, parse: string -> Option<real>): (next: TrafficState)
    ensures FirstOf(selectedQuery).None? ==> next == prev
    ensures FirstOf(selectedQuery).Some? ==>
      var row := FirstOf(selectedQuery).value;
      var years := YearLabels(row.keys);
      && next.data == Some(row)
      && next.labels == years
      && next.trend == AnalyzeTrend(CellsAt(row, years, parse))
  {
    match FirstOf(selectedQuery)
    case None => prev
    case Some(row) =>
      var years := YearLabels(row.keys);
      TrafficState(Some(row), years, AnalyzeTrend(CellsAt(row, years, parse)))
  }

  /** Reading the years backwards turns a rising trend into a falling one; with
      distinct valid endpoints, a falling one into a rising one. */
  lemma ReversedTrend(series: seq<Option<real>>, backwards: seq<Option<real>>)
    requires |backwards| == |series|
    requires forall i :: 0 <= i < |series| ==> backwards[i] == series[|series| - 1 - i]
    ensures AnalyzeTrend(series) == Increasing ==> AnalyzeTrend(backwards) == Decreasing
    ensures |series| > 0 && series[0].Some? && series[|series| - 1].Some?
              && series[0].value != series[|series| - 1].value
            ==> AnalyzeTrend(series) != AnalyzeTrend(backwards)
  {
    EndpointsRisingReversed(series, backwards);
  }

  /** Once a row has arrived some trend text is shown, and an error or an empty
      answer afterwards does not take it away. */
  lemma TrendPersists(prev: TrafficState, first: Query, later: Query, parse: string -> Option<real>)
    requires FirstOf(first).Some? && FirstOf(later).None?
    ensures Refresh(prev, first, parse).trend != NoTrend
    ensures Refresh(Refresh(prev, first, parse), later, parse) == Refresh(prev, first, parse)
  {
  }

  /** Ten accidents in the first year and twelve in the last: rising. */
  lemma RisingExample()
    ensures var row := Row(["2020", "2021", "2022", DistrictColumn],
                           map[DistrictColumn := "마포구", "2020" := "10", "2021" := "15", "2022" := "12"]);
      var parse := (s: string) => if s == "10" then Some(10.0) else if s == "15" then Some(15.0)
                                  else if s == "12" then Some(12.0) else None;
      Refresh(Initial, Fetched([row]), parse).trend == Increasing
  {
    var row := Row(["2020", "2021", "2022", DistrictColumn],
                   map[DistrictColumn := "마포구", "2020" := "10", "2021" := "15", "2022" := "12"]);
    assert YearLabels([DistrictColumn]) == [];
    assert YearLabels(row.keys[2..]) == ["2022"];
    assert YearLabels(row.keys[1..]) == ["2021", "2022"];
    assert YearLabels(row.keys) == ["2020", "2021", "2022"];
  }
}
