/** The population panel of src/components/population.js: the district's share of
    the city's 2024 population, and the change from 2023 to 2024 with its sign. */
module Population {
  import opened Rows
  import opened Stats

  /** The columns the panel reads. */
  const Year: string := "2024"
  const PreviousYear: string := "2023"

  /** The change line: not yet computed, the change as shown (rounded to two
      decimals; NaN when 2024 does not parse) with its `+` prefix, or the "no valid
      2023 data" message. */
  datatype YearlyChange = NoChange | Change(shown: Option<real>, plus: bool) | NoValidPrevious

  /** `data`, `labels`, `totalContribution`, `yearlyChange` and `isIncrease`. */
  datatype PopulationState = PopulationState(data: Option<Row>, labels: seq<string>, totalContribution: Share,
                                             yearlyChange: YearlyChange, isIncrease: bool)

  /** The `useState` initial values. */
  const Initial: PopulationState := PopulationState(None, [], NoShare, NoChange, false)

  /** `((selected2024 - selected2023) / selected2023) * 100`, exact. */
  function ExactChange(v2023: real, v2024: real): real
    requires v2023 > 0.0
  {
    (v2024 - v2023) / v2023 * 100.0
  }

  /** `Number(changePercentage)`: the change rounded to two decimals; NaN when 2024
      does not parse. */
  function ShownChange(v2023: real, v2024: Option<real>): (r: Option<real>)
    requires v2023 > 0.0
    ensures r.Some? <==> v2024.Some?
    ensures r.Some? ==> Near(r.value, ExactChange(v2023, v2024.value))
  {
    match v2024
    case None => None
    case Some(v) => Some(ToFixed2(ExactChange(v2023, v)))
  }

  /** `changePercentage > 0`: the rounded change is positive. */
  predicate ShownPositive(c: Option<real>)
  {
    c.Some? && c.value > 0.0
  }

  /** The body of `fetchData` once the district's rows and the total row's have
      answered. The change is computed only from a positive 2023 value; otherwise
      the message replaces it and `isIncrease` keeps its previous value. */
  function Refresh(prev: PopulationState, selectedQuery: Query, totalQuery: Query,
                   parse: string -> Option<real>): (next: PopulationState)
    ensures FirstOf(selectedQuery).None? ==> next == prev
    ensures FirstOf(selectedQuery).Some? ==>
      var row := FirstOf(selectedQuery).value;
      var v2024 := Cell(row, Year, parse);
      var v2023 := Cell(row, PreviousYear, parse);
      && next.data == Some(row)
      && next.labels == YearLabels(row.keys)
      && next.totalContribution == UpdateShare(prev.totalContribution, v2024, FirstOf(totalQuery), Year, parse, true)
      && (v2023.Some? && v2023.value > 0.0 ==>
            var c := ShownChange(v2023.value, v2024);
            next.yearlyChange == Change(c, ShownPositive(c)) && next.isIncrease == ShownPositive(c))
      && (!(v2023.Some? && v2023.value > 0.0) ==>
            next.yearlyChange == NoValidPrevious && next.isIncrease == prev.isIncrease)
  {
    match FirstOf(selectedQuery)
    case None => prev
    case Some(row) =>
      var v2024 := Cell(row, Year, parse);
      var v2023 := Cell(row, PreviousYear, parse);
      var share := UpdateShare(prev.totalContribution, v2024, FirstOf(totalQuery), Year, parse, true);
      if v2023.Some? && v2023.value > 0.0 then
        var c := ShownChange(v2023.value, v2024);
        PopulationState(Some(row), YearLabels(row.keys), share, Change(c, ShownPositive(c)), ShownPositive(c))
      else
        PopulationState(Some(row), YearLabels(row.keys), share, NoValidPrevious, prev.isIncrease)
  }

  /** The population counts as increasing exactly when it grew by at least 0.005 %,
      the least growth that does not round to 0.00 %; no change, or a NaN 2024
      value, is never an increase, and the `+` prefix goes with the flag. */
  lemma IncreaseMeans(v2023: real, v2024: Option<real>)
    requires v2023 > 0.0
    ensures var c := ShownChange(v2023, v2024);
      ShownPositive(c) <==> v2024.Some? && v2024.value - v2023 >= v2023 * 0.00005
    ensures v2024 == Some(v2023) ==> !ShownPositive(ShownChange(v2023, v2024))
  {
    if v2024.Some? {
      var e := ExactChange(v2023, v2024.value);
      ToFixed2Positive(e);
      GrowthThreshold(v2023, v2024.value);
    }
  }

  lemma GrowthThreshold(a: real, b: real)
    requires a > 0.0
    ensures ExactChange(a, b) >= 0.005 <==> b - a >= a * 0.00005
  {
    var q := (b - a) / a;
    assert q * a == b - a;
    if q * 100.0 >= 0.005 {
      assert q >= 0.00005;
      assert q * a >= 0.00005 * a;
    } else {
      assert q < 0.00005;
      assert q * a < 0.00005 * a;
    }
  }

  /** A failed or empty 2023 reading leaves the previous flag standing: a district
      shown as increasing stays so after switching to one without a valid 2023. */
  lemma StaleIncreaseFlag(prev: PopulationState, selectedQuery: Query, totalQuery: Query,
                          parse: string -> Option<real>)
    requires FirstOf(selectedQuery).Some?
    requires Cell(FirstOf(selectedQuery).value, PreviousYear, parse).None?
    ensures Refresh(prev, selectedQuery, totalQuery, parse).isIncrease == prev.isIncrease
    ensures Refresh(prev, selectedQuery, totalQuery, parse).yearlyChange == NoValidPrevious
  {
  }

  /** Refreshing twice with the same answers is refreshing once. */
  lemma RefreshIdempotent(prev: PopulationState, selectedQuery: Query, totalQuery: Query,
                          parse: string -> Option<real>)
    ensures var once := Refresh(prev, selectedQuery, totalQuery, parse);
      Refresh(once, selectedQuery, totalQuery, parse) == once
  {
    if FirstOf(selectedQuery).Some? {
      var row := FirstOf(selectedQuery).value;
      UpdateShareIdempotent(prev.totalContribution, Cell(row, Year, parse), FirstOf(totalQuery), Year, parse, true);
    }
  }
}
