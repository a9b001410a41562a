/** The hospital panel of src/components/hospital.js: the district's share of the
    city's hospitals in 2023, and whether the 2023 count is above the count in the
    first year column. */
module Hospital {
  import opened Rows
  import opened Stats

  /** The column the panel reads. */
  const Year: string := "2023"

  /** `data`, `labels`, `contribution` and `trend`. */
  datatype HospitalState = HospitalState(data: Option<Row>, labels: seq<string>, contribution: Share, trend: Trend)

  /** The `useState` initial values. */
  const Initial: HospitalState := HospitalState(None, [], NoShare, NoTrend)

  /** The body of `fetchData` once the district's rows and the total row's have
      answered. An invalid share leaves the previous share line in place. */
  function Refresh(prev: HospitalState, selectedQuery: Query, totalQuery: Query,
                   parse: string -> Option<real>): (next: HospitalState)
    ensures FirstOf(selectedQuery).None? ==> next == prev
    ensures FirstOf(selectedQuery).Some? ==>
      var row := FirstOf(selectedQuery).value;
      var end := Cell(row, Year, parse);
      && next.data == Some(row)
      && next.labels == YearLabels(row.keys)
      && next.contribution == UpdateShare(prev.contribution, end, FirstOf(totalQuery), Year, parse, false)
      && next.trend == TrendOf(Rising(FirstYearValue(row, parse), end))
  {
    match FirstOf(selectedQuery)
    case None => prev
    case Some(row) =>
      var end := Cell(row, Year, parse);
      HospitalState(Some(row), YearLabels(row.keys),
                    UpdateShare(prev.contribution, end, FirstOf(totalQuery), Year, parse, false),
                    TrendOf(Rising(FirstYearValue(row, parse), end)))
  }

  /** The share line never shows a message: it is a percentage of a valid share or
      whatever it was before. */
  lemma NoFallbackMessage(prev: HospitalState, selectedQuery: Query, totalQuery: Query,
                          parse: string -> Option<real>)
    ensures var next := Refresh(prev, selectedQuery, totalQuery, parse);
      next.contribution == prev.contribution || next.contribution.Percent?
    ensures prev.contribution != NoValidData ==>
      Refresh(prev, selectedQuery, totalQuery, parse).contribution != NoValidData
  {
  }

  /** The trend is rising exactly when both values parse and 2023 is the larger;
      equal values, or NaN on either side, read as falling. */
  lemma TrendMeans(prev: HospitalState, selectedQuery: Query, totalQuery: Query,
                   parse: string -> Option<real>)
    requires FirstOf(selectedQuery).Some?
    ensures var row := FirstOf(selectedQuery).value;
      var start, end := FirstYearValue(row, parse), Cell(row, Year, parse);
      var trend := Refresh(prev, selectedQuery, totalQuery, parse).trend;
      && (trend == Increasing <==> start.Some? && end.Some? && end.value > start.value)
      && (trend == Decreasing <==> !(start.Some? && end.Some? && end.value > start.value))
  {
  }

  /** A row read with keys 2019, 2023 and 2024 that fell from 2019 to 2023 and rose
      past 2019 by 2024 is a falling trend: the end point is always 2023, not the
      last column. */
  lemma EndIsFixedYear()
    ensures var row := Row(["2019", "2023", "2024", DistrictColumn],
                           map[DistrictColumn := "종로구", "2019" := "10", "2023" := "8", "2024" := "12"]);
      var parse := (s: string) => if s == "10" then Some(10.0) else if s == "8" then Some(8.0)
                                  else if s == "12" then Some(12.0) else None;
      && Rising(Cell(row, "2019", parse), Cell(row, "2024", parse))
      && Refresh(Initial, Fetched([row]), Failed, parse).trend == Decreasing
  {
    var row := Row(["2019", "2023", "2024", DistrictColumn],
                   map[DistrictColumn := "종로구", "2019" := "10", "2023" := "8", "2024" := "12"]);
    assert YearLabels([DistrictColumn]) == [];
    assert YearLabels(row.keys[2..]) == ["2024"];
    assert YearLabels(row.keys[1..]) == ["2023", "2024"];
    assert YearLabels(row.keys) == ["2019", "2023", "2024"];
  }

  /** Refreshing twice with the same answers is refreshing once. */
  lemma RefreshIdempotent(prev: HospitalState, selectedQuery: Query, totalQuery: Query,
                          parse: string -> Option<real>)
    ensures var once := Refresh(prev, selectedQuery, totalQuery, parse);
      Refresh(once, selectedQuery, totalQuery, parse) == once
  {
    if FirstOf(selectedQuery).Some? {
      var row := FirstOf(selectedQuery).value;
      UpdateShareIdempotent(prev.contribution, Cell(row, Year, parse), FirstOf(totalQuery), Year, parse, false);
    }
  }
}
