/** Rows as the indicator tables return them, and the parsing every panel applies
    to them. JavaScript's number parsing is not modelled: callers pass `parseFloat`
    (or `parseInt`, `Number`) as a function, with NaN read as `None`. */
module Rows {

  datatype Option<T> = None | Some(value: T)

  /** One table row. `keys` is the order `Object.keys` yields for it (integer-like
      keys first, ascending, then the others in insertion order); `cells` maps each
      column name to its value, as text. */
  datatype Row = Row(keys: seq<string>, cells: map<string, string>)

  /** The district-name column every table carries besides its year columns. */
  const DistrictColumn: string := "자치구"

  /** `parse(row[key])`: a missing column reads as `undefined`, which parses to NaN. */
  function Cell(row: Row, key: string, parse: string -> Option<real>): Option<real>
  {
    if key in row.cells then parse(row.cells[key]) else None
  }

  /** A table query's outcome: an error, or the rows that matched. */
  datatype Query = Failed | Fetched(rows: seq<Row>)

  /** The row a panel works on: the first one fetched, none after an error or when
      nothing matched. */
  function FirstOf(q: Query): (r: Option<Row>)
    ensures r.Some? <==> q.Fetched? && |q.rows| > 0
    ensures r.Some? ==> r.value == q.rows[0]
  {
    if q.Fetched? && |q.rows| > 0 then Some(q.rows[0]) else None
  }

  /** Every row of a query; none after an error. */
  function AllOf(q: Query): (r: seq<Row>)
    ensures q.Fetched? ==> r == q.rows
    ensures q.Failed? ==> r == []
  {
    if q.Fetched? then q.rows else []
  }

  /** `Object.keys(row).filter(key => key !== '자치구')`: the year labels of a row. */
  function YearLabels(keys: seq<string>): (r: seq<string>)
    ensures forall k :: k in r <==> k in keys && k != DistrictColumn
    ensures |r| <= |keys|
    ensures DistrictColumn !in keys ==> r == keys
  {
    if |keys| == 0 then []
    else if keys[0] == DistrictColumn then YearLabels(keys[1..])
    else [keys[0]] + YearLabels(keys[1..])
  }

  /** A key other than the district column. */
  predicate IsYearKey(k: string)
  {
    k != DistrictColumn
  }

  /** The positions from `from` on whose entry passes `keep`, in increasing order:
      the entries a `filter(keep)` keeps, each once. */
  function Kept<T>(s: seq<T>, keep: T -> bool, from: nat): (idx: seq<nat>)
    ensures forall j :: 0 <= j < |idx| ==> from <= idx[j] < |s| && keep(s[idx[j]])
    ensures forall j, k :: 0 <= j < k < |idx| ==> idx[j] < idx[k]
    ensures forall i :: from <= i < |s| && keep(s[i]) ==> i in idx
    decreases |s| - from
  {
    if from >= |s| then []
    else if keep(s[from]) then [from] + Kept(s, keep, from + 1)
    else Kept(s, keep, from + 1)
  }

  /** The labels are the non-district keys in key order, each as often as it
      occurs: label `j` is the key at the `j`-th position the filter keeps. */
  lemma YearLabelsOrder(keys: seq<string>)
    ensures var r := YearLabels(keys); var idx := Kept(keys, IsYearKey, 0);
      |r| == |idx| && forall j :: 0 <= j < |r| ==> r[j] == keys[idx[j]]
  {
    assert keys[0..] == keys;
    YearLabelsFrom(keys, 0);
  }

  lemma {:induction false} YearLabelsFrom(keys: seq<string>, from: nat)
    requires from <= |keys|
    ensures var r := YearLabels(keys[from..]); var idx := Kept(keys, IsYearKey, from);
      |r| == |idx| && forall j :: 0 <= j < |r| ==> r[j] == keys[idx[j]]
    decreases |keys| - from
  {
    if from < |keys| {
      var k := keys[from];
      assert keys[from..][0] == k && keys[from..][1..] == keys[from + 1..];
      YearLabelsFrom(keys, from + 1);
      var r, idx := YearLabels(keys[from..]), Kept(keys, IsYearKey, from);
      var r', idx' := YearLabels(keys[from + 1..]), Kept(keys, IsYearKey, from + 1);
      if IsYearKey(k) {
        assert r == [k] + r' && idx == [from] + idx';
        forall j | 0 <= j < |r|
          ensures r[j] == keys[idx[j]]
        {
          if j > 0 {
            assert r[j] == r'[j - 1] && idx[j] == idx'[j - 1];
          }
        }
      } else {
        assert r == r' && idx == idx';
      }
    }
  }

  /** `parseFloat(rowData[years[0]])`: the value of the first year column; with no
      year column the key is undefined and the value NaN. */
  function FirstYearValue(row: Row, parse: string -> Option<real>): (r: Option<real>)
    ensures |YearLabels(row.keys)| == 0 ==> r.None?
    ensures |YearLabels(row.keys)| > 0 ==> r == Cell(row, YearLabels(row.keys)[0], parse)
  {
    var years := YearLabels(row.keys);
    if |years| == 0 then None else Cell(row, years[0], parse)
  }

  /** `parse` applied to each listed column of a row, NaN kept as `None`. */
  function CellsAt(row: Row, keys: seq<string>, parse: string -> Option<real>): (r: seq<Option<real>>)
    ensures |r| == |keys|
    ensures forall i :: 0 <= i < |keys| ==> r[i] == Cell(row, keys[i], parse)
  {
    seq(|keys|, i requires 0 <= i < |keys| => Cell(row, keys[i], parse))
  }

  /** `.filter(x => !isNaN(x))`: the present values, in their original order
      (`CompactOrder`). */
  function Compact(xs: seq<Option<real>>): (r: seq<real>)
    ensures |r| <= |xs|
    ensures |r| == |xs| <==> forall i :: 0 <= i < |xs| ==> xs[i].Some?
    ensures forall v :: v in r <==> Some(v) in xs
  {
    if |xs| == 0 then []
    else if xs[0].None? then Compact(xs[1..])
    else [xs[0].value] + Compact(xs[1..])
  }

  /** A reading that is not NaN. */
  predicate IsPresent(x: Option<real>)
  {
    x.Some?
  }

  /** The kept values are the present readings in their original order, each as
      often as it occurs: value `j` is the reading at the `j`-th present position. */
  lemma CompactOrder(xs: seq<Option<real>>)
    ensures var r := Compact(xs); var idx := Kept(xs, IsPresent, 0);
      |r| == |idx| && forall j :: 0 <= j < |r| ==> Some(r[j]) == xs[idx[j]]
  {
    assert xs[0..] == xs;
    CompactFrom(xs, 0);
  }

  lemma {:induction false} CompactFrom(xs: seq<Option<real>>, from: nat)
    requires from <= |xs|
    ensures var r := Compact(xs[from..]); var idx := Kept(xs, IsPresent, from);
      |r| == |idx| && forall j :: 0 <= j < |r| ==> Some(r[j]) == xs[idx[j]]
    decreases |xs| - from
  {
    if from < |xs| {
      var x := xs[from];
      assert xs[from..][0] == x && xs[from..][1..] == xs[from + 1..];
      CompactFrom(xs, from + 1);
      var r, idx := Compact(xs[from..]), Kept(xs, IsPresent, from);
      var r', idx' := Compact(xs[from + 1..]), Kept(xs, IsPresent, from + 1);
      if IsPresent(x) {
        assert r == [x.value] + r' && idx == [from] + idx';
        forall j | 0 <= j < |r|
          ensures Some(r[j]) == xs[idx[j]]
        {
          if j > 0 {
            assert r[j] == r'[j - 1] && idx[j] == idx'[j - 1];
          }
        }
      } else {
        assert r == r' && idx == idx';
      }
    }
  }

  /** How many readings are `v`. */
  function Occurrences(xs: seq<Option<real>>, v: real): (n: nat)
    ensures n <= |xs|
  {
    if |xs| == 0 then 0 else (if xs[0] == Some(v) then 1 else 0) + Occurrences(xs[1..], v)
  }

  /** The filter keeps every copy: a value occurs in the result as often as it
      was read. */
  lemma {:induction false} CompactCounts(xs: seq<Option<real>>, v: real)
    ensures multiset(Compact(xs))[v] == Occurrences(xs, v)
  {
    if |xs| > 0 {
      CompactCounts(xs[1..], v);
    }
  }

  /** When nothing is NaN, the filter drops nothing: the values stay at their indices. */
  lemma {:induction false} CompactAllPresent(xs: seq<Option<real>>)
    requires forall i :: 0 <= i < |xs| ==> xs[i].Some?
    ensures |Compact(xs)| == |xs|
    ensures forall i :: 0 <= i < |xs| ==> Compact(xs)[i] == xs[i].value
  {
    if |xs| > 0 {
      CompactAllPresent(xs[1..]);
      assert forall i :: 1 <= i < |xs| ==> Compact(xs)[i] == Compact(xs[1..])[i - 1];
    }
  }
}
