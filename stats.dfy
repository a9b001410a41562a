/** The guarded derivations the indicator panels share: trend direction,
    share of a total, and `toFixed(2)` rounding. */
module Stats {
  import opened Rows

  /** `a > b` in JavaScript: any comparison with NaN (or undefined) is false. */
  predicate Greater(a: Option<real>, b: Option<real>)
  {
    a.Some? && b.Some? && a.value > b.value
  }

  /** `end > start`, the trend test of every panel. */
  predicate Rising(start: Option<real>, end: Option<real>)
  {
    Greater(end, start)
  }

  /** `values[values.length - 1] > values[0]`; an empty list compares undefined with undefined. */
  predicate EndpointsRising(values: seq<Option<real>>)
  {
    |values| > 0 && Rising(values[0], values[|values| - 1])
  }

  /** A trend and its reverse cannot both be rising; equal or NaN endpoints rise in neither order. */
  lemma RisingAntisymmetric(a: Option<real>, b: Option<real>)
    ensures !(Rising(a, b) && Rising(b, a))
    ensures a == b ==> !Rising(a, b)
    ensures a.None? || b.None? ==> !Rising(a, b) && !Rising(b, a)
    ensures a.Some? && b.Some? && a.value != b.value ==> Rising(a, b) != Rising(b, a)
  {
  }

  /** The trend of the series read backwards is never also rising. */
  lemma {:induction false} EndpointsRisingReversed(values: seq<Option<real>>, backwards: seq<Option<real>>)
    requires |backwards| == |values|
    requires forall i :: 0 <= i < |values| ==> backwards[i] == values[|values| - 1 - i]
    ensures !(EndpointsRising(values) && EndpointsRising(backwards))
    ensures |values| > 0 && values[0].Some? && values[|values| - 1].Some?
              && values[0].value != values[|values| - 1].value
            ==> EndpointsRising(values) != EndpointsRising(backwards)
  {
    if |values| > 0 {
      assert backwards[0] == values[|values| - 1];
      assert backwards[|values| - 1] == values[0];
      RisingAntisymmetric(values[0], values[|values| - 1]);
    }
  }

  /** `(selected / total) * 100`, produced only when both values parse and the total
      is positive; otherwise no percentage (never a division by zero). */
  function ShareOfTotal(selected: Option<real>, total: Option<real>): (r: Option<real>)
    ensures r.Some? <==> selected.Some? && total.Some? && total.value > 0.0
    ensures r.Some? ==> r.value * total.value == selected.value * 100.0
    ensures r.Some? && 0.0 <= selected.value <= total.value ==> 0.0 <= r.value <= 100.0
  {
    if selected.Some? && total.Some? && total.value > 0.0
    then Some(selected.value / total.value * 100.0)
    else None
  }

  /** The integer nearest to `y`, a tie going up. */
  function RoundHalfUp(y: real): (n: int)
    ensures y - 0.5 < n as real <= y + 0.5
  {
    (y + 0.5).Floor
  }

  /** `Number(x.toFixed(2))` on an exact value: the nearest multiple of 0.01, a tie going
      away from zero (toFixed rounds the magnitude and prefixes the sign). */
  function ToFixed2(x: real): (r: real)
    ensures (r * 100.0).Floor as real == r * 100.0
    ensures x >= 0.0 ==> x - 0.005 < r <= x + 0.005
    ensures x < 0.0 ==> x - 0.005 <= r < x + 0.005
  {
    if x >= 0.0 then
      var n := RoundHalfUp(x * 100.0);
      Hundredths(n);
      HalfUpScaled(x, n);
      n as real / 100.0
    else
      var n := -RoundHalfUp(-x * 100.0);
      Hundredths(n);
      HalfDownScaled(x, n);
      n as real / 100.0
  }

  /** `n / 100` is a whole number of hundredths. */
  lemma Hundredths(n: int)
    ensures (n as real / 100.0 * 100.0).Floor as real == n as real / 100.0 * 100.0
  {
    assert n as real / 100.0 * 100.0 == n as real;
  }

  /** Rounding `x * 100` half up and scaling back stays within half a hundredth. */
  lemma HalfUpScaled(x: real, n: int)
    requires x * 100.0 - 0.5 < n as real <= x * 100.0 + 0.5
    ensures x - 0.005 < n as real / 100.0 <= x + 0.005
  {
  }

  /** The same for a negative value, whose magnitude was rounded. */
  lemma HalfDownScaled(x: real, n: int)
    requires -x * 100.0 - 0.5 < -n as real <= -x * 100.0 + 0.5
    ensures x - 0.005 <= n as real / 100.0 < x + 0.005
  {
  }

  /** The rounded value is positive exactly when the value is at least 0.005. */
  lemma ToFixed2Positive(x: real)
    ensures ToFixed2(x) > 0.0 <==> x >= 0.005
  {
    if x >= 0.0 {
      var n := (x * 100.0 + 0.5).Floor;
      assert n as real <= x * 100.0 + 0.5 < n as real + 1.0;
      if x >= 0.005 {
        assert n >= 1;
      } else {
        assert n <= 0;
      }
    } else {
      var n := ((-x) * 100.0 + 0.5).Floor;
      assert n >= 0;
    }
  }

  /** A panel's share line: not yet computed, a percentage as shown (rounded to two
      decimals), or the panel's "no valid data" message. */
  datatype Share = NoShare | Percent(shown: real) | NoValidData

  /** The share line after a refresh. Without a total row it stays as it was. With
      one, a valid share is shown rounded; an invalid one shows the message when the
      panel has one (`fallback`) and otherwise leaves the line as it was. */
  function UpdateShare(prev: Share, selected: Option<real>, total: Option<Row>, column: string,
                       parse: string -> Option<real>, fallback: bool): (r: Share)
    ensures total.None? ==> r == prev
    ensures total.Some? ==>
      var exact := ShareOfTotal(selected, Cell(total.value, column, parse));
      && (exact.Some? ==> r == Percent(ToFixed2(exact.value)))
      && (exact.None? && fallback ==> r == NoValidData)
      && (exact.None? && !fallback ==> r == prev)
    ensures r.Percent? && r != prev ==>
      && total.Some? && selected.Some?
      && var t := Cell(total.value, column, parse);
         t.Some? && t.value > 0.0 && Near(r.shown, selected.value / t.value * 100.0)
  {
    match total
    case None => prev
    case Some(row) =>
      match ShareOfTotal(selected, Cell(row, column, parse))
      case Some(p) => Percent(ToFixed2(p))
      case None => if fallback then NoValidData else prev
  }

  /** Refreshing the share line twice with the same rows is refreshing it once. */
  lemma UpdateShareIdempotent(prev: Share, selected: Option<real>, total: Option<Row>, column: string,
                              parse: string -> Option<real>, fallback: bool)
    ensures var once := UpdateShare(prev, selected, total, column, parse, fallback);
      UpdateShare(once, selected, total, column, parse, fallback) == once
  {
  }

  /** Within the rounding of two decimals. */
  predicate Near(shown: real, exact: real)
  {
    exact - 0.005 <= shown <= exact + 0.005
  }

  /** A panel's trend line: not yet computed, or the text for a rising or a falling
      series. */
  datatype Trend = NoTrend | Increasing | Decreasing

  /** The trend text picked by `rising ? increasingText : decreasingText`. */
  function TrendOf(rising: bool): (r: Trend)
    ensures r.Increasing? <==> rising
    ensures r != NoTrend
  {
    if rising then Increasing else Decreasing
  }
}
