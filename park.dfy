/** The park panel of src/components/park.js: the district's share of the city's
    parks in 2021, and whether its 2021 count beats the median-rank count of the
    whole table. */
module Park {
  import opened Rows
  import opened Stats
  import opened Ranking

  /** The year column the panel reads, and the district name of the city-total row. */
  const Year: string := "2021"
  const TotalDistrict: string := "소계"

  /** The two ranking messages. */
  const AboveText: string := "공원 수가 많습니다."
  const BelowText: string := "공원 수가 평균 이하입니다."

  /** `data`, `labels`, `contribution`, `message` and `isAboveAverage`. */
  datatype ParkState = ParkState(data: Option<Row>, labels: seq<string>, contribution: Share,
                                 message: string, isAboveAverage: bool)

  /** The `useState` initial values. */
  const Initial: ParkState := ParkState(None, [], NoShare, "", false)

  /** `parseFloat(row['2021'])` of every row of the table, the total row included;
      none when the query failed. */
  function PoolCells(pool: Query, parse: string -> Option<real>): (r: seq<Option<real>>)
    ensures |r| == |AllOf(pool)|
    ensures forall i :: 0 <= i < |r| ==> r[i] == Cell(AllOf(pool)[i], Year, parse)
  {
    var rows := AllOf(pool);
    seq(|rows|, i requires 0 <= i < |rows| => Cell(rows[i], Year, parse))
  }

  /** `allData.map(row => parseFloat(row['2021'])).filter(num => !isNaN(num))`: one
      value per row whose 2021 count parses, in row order, copies kept; none when
      the query failed. */
  function PoolValues(pool: Query, parse: string -> Option<real>): (r: seq<real>)
    ensures forall v :: v in r <==> exists i :: 0 <= i < |AllOf(pool)| && Cell(AllOf(pool)[i], Year, parse) == Some(v)
    ensures var idx := Kept(PoolCells(pool, parse), IsPresent, 0);
      |r| == |idx| && forall j :: 0 <= j < |r| ==> Cell(AllOf(pool)[idx[j]], Year, parse) == Some(r[j])
    ensures pool.Failed? ==> r == []
  {
    var cells := PoolCells(pool, parse);
    assert forall v :: Some(v) in cells <==> exists i :: 0 <= i < |cells| && cells[i] == Some(v);
    CompactOrder(cells);
    Compact(cells)
  }

  /** `selected2021 > fiftyPercentValue`: the selected count exceeds the value at
      index `floor(n * 0.5)` of the counts sorted largest first. With no counts that
      value is undefined and the comparison false; so it is for a NaN count. */
  predicate AboveRank(selected: Option<real>, values: seq<real>)
  {
    selected.Some? && |values| > 0 && exists t :: t in values && IsRankValue(values, |values| / 2, t) && selected.value > t
  }

  /** Whichever way the threshold is found, being above it means exceeding it. */
  lemma AboveRankMeans(selected: Option<real>, values: seq<real>, t: real)
    requires IsRankValue(values, |values| / 2, t)
    ensures AboveRank(selected, values) <==> selected.Some? && selected.value > t
  {
    if AboveRank(selected, values) {
      var t' :| IsRankValue(values, |values| / 2, t') && selected.value > t';
      RankValueUnique(values, |values| / 2, t, t');
    }
  }

  /** With counts 10, 20, 30 and 40 a district with 25 parks is above, one with 15
      or with an unreadable count is not, and with no counts at all nobody is. */
  lemma RankFlagExample()
    ensures AboveRank(Some(25.0), [10.0, 20.0, 30.0, 40.0])
    ensures !AboveRank(Some(15.0), [10.0, 20.0, 30.0, 40.0])
    ensures !AboveRank(None, [10.0, 20.0, 30.0, 40.0])
    ensures forall v :: !AboveRank(v, [])
  {
    var s := [10.0, 20.0, 30.0, 40.0];
    assert CountAbove(s, 20.0) == 2 && CountAtLeast(s, 20.0) == 3;
    assert IsRankValue(s, 2, 20.0);
    AboveRankMeans(Some(25.0), s, 20.0);
    AboveRankMeans(Some(15.0), s, 20.0);
  }

  /** The 2021 count of the total row is one of the ranked counts. */
  lemma TotalRowRanked(pool: Query, parse: string -> Option<real>, i: nat, v: real)
    requires pool.Fetched? && i < |pool.rows|
    requires pool.rows[i].cells.Keys >= {DistrictColumn, Year}
    requires pool.rows[i].cells[DistrictColumn] == TotalDistrict
    requires parse(pool.rows[i].cells[Year]) == Some(v)
    ensures v in PoolValues(pool, parse)
  {
    assert Cell(AllOf(pool)[i], Year, parse) == Some(v);
  }

  /** The body of `fetchData` once the three queries have answered: the district's
      rows, the total row's, and the whole table's. */
  method Refresh(prev: ParkState, selectedQuery: Query, totalQuery: Query, pool: Query,
                 parse: string -> Option<real>) returns (next: ParkState)
    ensures FirstOf(selectedQuery).None? ==> next == prev
    ensures FirstOf(selectedQuery).Some? ==>
      var row := FirstOf(selectedQuery).value;
      var selected := Cell(row, Year, parse);
      && next.data == Some(row)
      && next.labels == YearLabels(row.keys)
      && next.contribution == UpdateShare(prev.contribution, selected, FirstOf(totalQuery), Year, parse, true)
      && (next.isAboveAverage <==> AboveRank(selected, PoolValues(pool, parse)))
      && next.message == (if next.isAboveAverage then AboveText else BelowText)
  {
    var first := FirstOf(selectedQuery);
    if first.None? {
      return prev;
    }
    var row := first.value;
    var selected := Cell(row, Year, parse);
    var contribution := UpdateShare(prev.contribution, selected, FirstOf(totalQuery), Year, parse, true);
    var values := PoolValues(pool, parse);
    var threshold := RankThreshold(values);
    var above := Greater(selected, threshold);
    if threshold.Some? {
      AboveRankMeans(selected, values, threshold.value);
    }
    next := ParkState(Some(row), YearLabels(row.keys), contribution,
                      if above then AboveText else BelowText, above);
  }
}
