/** The academy panel of src/components/educational.js: the district's share of
    the city's academies in 2023, and whether the 2023 count is above the count in
    the first year column, both as a text and as the flag that colours it. */
module Educational {
  import opened Rows
  import opened Stats

  /** The column the panel reads. */
  const Year: string := "2023"

  /** `data`, `labels`, `contribution`, `trend` and `isIncreasing`. */
  datatype AcademyState = AcademyState(data: Option<Row>, labels: seq<string>, contribution: Share,
                                       trend: Trend, isIncreasing: bool)

  /** The `useState` initial values. */
  const Initial: AcademyState := AcademyState(None, [], NoShare, NoTrend, false)

  /** The body of `fetchData` once the district's rows and the total row's have
      answered. An invalid share leaves the previous share line in place. */
  function Refresh(prev: AcademyState, selectedQuery: Query, totalQuery: Query,
                   parse: string -> Option<real>): (next: AcademyState)
    ensures FirstOf(selectedQuery).None? ==> next == prev
    ensures FirstOf(selectedQuery).Some? ==>
      var row := FirstOf(selectedQuery).value;
      var end := Cell(row, Year, parse);
      && next.data == Some(row)
      && next.labels == YearLabels(row.keys)
      && next.contribution == UpdateShare(prev.contribution, end, FirstOf(totalQuery), Year, parse, false)
      && next.isIncreasing == Rising(FirstYearValue(row, parse), end)
      && next.trend == TrendOf(next.isIncreasing)
  {
    match FirstOf(selectedQuery)
    case None => prev
    case Some(row) =>
      var end := Cell(row, Year, parse);
      var rising := Rising(FirstYearValue(row, parse), end);
      AcademyState(Some(row), YearLabels(row.keys),
                   UpdateShare(prev.contribution, end, FirstOf(totalQuery), Year, parse, false),
                   TrendOf(rising), rising)
  }

  /** The text and the colour agree: from the initial state on, the increasing text
      is shown exactly when the flag is set, and some text is shown once a row has
      arrived. */
  predicate Agrees(s: AcademyState)
  {
    (s.trend == Increasing <==> s.isIncreasing) && (s.data.Some? ==> s.trend != NoTrend)
  }

  /** Every refresh keeps the text and the flag in agreement. */
  lemma RefreshAgrees(prev: AcademyState, selectedQuery: Query, totalQuery: Query,
                      parse: string -> Option<real>)
    requires Agrees(prev)
    ensures Agrees(Refresh(prev, selectedQuery, totalQuery, parse))
  {
  }

  /** The initial state agrees; by `RefreshAgrees`, so does every state refreshes
      reach from it. */
  lemma InitialAgrees()
    ensures Agrees(Initial)
  {
  }

  /** The flag is set exactly when both values parse and 2023 is the larger. */
  lemma FlagMeans(prev: AcademyState, selectedQuery: Query, totalQuery: Query,
                  parse: string -> Option<real>)
    requires FirstOf(selectedQuery).Some?
    ensures var row := FirstOf(selectedQuery).value;
      var start, end := FirstYearValue(row, parse), Cell(row, Year, parse);
      var flag := Refresh(prev, selectedQuery, totalQuery, parse).isIncreasing;
      flag <==> start.Some? && end.Some? && end.value > start.value
  {
  }

  /** A row with no year columns at all compares NaN with NaN: falling. */
  lemma NoYearsFalls(prev: AcademyState, totalQuery: Query, parse: string -> Option<real>)
    ensures var row := Row([DistrictColumn], map[DistrictColumn := "강남구"]);
      var next := Refresh(prev, Fetched([row]), totalQuery, parse);
      next.labels == [] && !next.isIncreasing && next.trend == Decreasing
  {
    var row := Row([DistrictColumn], map[DistrictColumn := "강남구"]);
    assert YearLabels(row.keys) == [];
  }

  /** Refreshing twice with the same answers is refreshing once. */
  lemma RefreshIdempotent(prev: AcademyState, selectedQuery: Query, totalQuery: Query,
                          parse: string -> Option<real>)
    ensures var once := Refresh(prev, selectedQuery, totalQuery, parse);
      Refresh(once, selectedQuery, totalQuery, parse) == once
  {
    if FirstOf(selectedQuery).Some? {
      var row := FirstOf(selectedQuery).value;
      UpdateShareIdempotent(prev.contribution, Cell(row, Year, parse), FirstOf(totalQuery), Year, parse, false);
    }
  }
}
