/** `createPredictions` of src/components/main.js: read the year columns of the
    first crime row, turn each of the seven indicator rows into a series, refuse
    when a query came back empty or a series is too short, fit one linear model per
    indicator, predict 2024..2030 and score the 2030 predictions. */
module Forecast {
  import opened Rows
  import opened Livability

  /** The JavaScript number conversions the forecast relies on, NaN read as `None`. */
  datatype JsNumbers = JsNumbers(
    parseFloat: string -> Option<real>,
    parseInt: string -> Option<int>,   // parseInt(text, 10)
    toNumber: string -> Option<real>,  // Number(key), as `isNaN(key)` and `.map(Number)` use it
    toKey: real -> string)             // the property name a number becomes in `row[year]`

  /** A fitted linear model: `predict(x)` gives `slope * x + intercept`. */
  datatype Line = Line(slope: real, intercept: real)

  function Predict(l: Line, x: real): real
  {
    l.slope * x + l.intercept
  }

  /** One regression input pair `[year, series[index]]`; `value` is `None` where the
      filtered series is shorter than the years and the index falls off its end. */
  datatype Point = Point(year: real, value: Option<real>)

  /** What `createPredictions` publishes: the seven 7-year predictions and the score. */
  datatype Forecast = Forecast(predicted: Seven<seq<real>>, score: real)

  /** `Number(key)` for each key of the row, in key order. */
  function KeyNumbers(row: Row, js: JsNumbers): (r: seq<Option<real>>)
    ensures |r| == |row.keys|
    ensures forall i :: 0 <= i < |row.keys| ==> r[i] == js.toNumber(row.keys[i])
  {
    seq(|row.keys|, i requires 0 <= i < |row.keys| => js.toNumber(row.keys[i]))
  }

  /** `Object.keys(row).filter(year => !isNaN(year)).map(Number)`. */
  function Years(row: Row, js: JsNumbers): seq<real>
  {
    Compact(KeyNumbers(row, js))
  }

  /** `years.map(year => parseFloat(row[year]))`, before the NaN filter. */
  function Readings(row: Row, years: seq<real>, js: JsNumbers): (r: seq<Option<real>>)
    ensures |r| == |years|
    ensures forall i :: 0 <= i < |years| ==> r[i] == Cell(row, js.toKey(years[i]), js.parseFloat)
  {
    seq(|years|, i requires 0 <= i < |years| => Cell(row, js.toKey(years[i]), js.parseFloat))
  }

  /** A parseFloat series: the readings with every NaN dropped, the rest kept in
      year order. Entry `j` is the reading of the `j`-th year that parses. */
  function FloatSeries(row: Row, years: seq<real>, js: JsNumbers): (r: seq<real>)
    ensures |r| <= |years|
    ensures |r| == |years| <==> forall i :: 0 <= i < |years| ==> Readings(row, years, js)[i].Some?
    ensures var idx := Kept(Readings(row, years, js), IsPresent, 0);
      |r| == |idx| && forall j :: 0 <= j < |r| ==> Cell(row, js.toKey(years[idx[j]]), js.parseFloat) == Some(r[j])
  {
    CompactOrder(Readings(row, years, js));
    Compact(Readings(row, years, js))
  }

  /** `parseInt(row[year], 10)`, with NaN turned into 0. */
  function ParkCount(row: Row, key: string, js: JsNumbers): real
  {
    if key in row.cells then
      match js.parseInt(row.cells[key])
      case Some(n) => n as real
      case None => 0.0
    else 0.0
  }

  /** The park series: one entry per year, 0 where the text does not parse. */
  function ParkSeries(row: Row, years: seq<real>, js: JsNumbers): (r: seq<real>)
    ensures |r| == |years|
    ensures forall i :: 0 <= i < |years| ==> r[i] == ParkCount(row, js.toKey(years[i]), js)
  {
    seq(|years|, i requires 0 <= i < |years| => ParkCount(row, js.toKey(years[i]), js))
  }

  /** All seven query results returned at least one row. */
  predicate NoneEmpty(data: Seven<seq<Row>>)
  {
    |data.crime| > 0 && |data.population| > 0 && |data.hospital| > 0
      && |data.kindergarten| > 0 && |data.academy| > 0 && |data.traffic| > 0 && |data.park| > 0
  }

  /** The first row of each query result. */
  function FirstRows(data: Seven<seq<Row>>): Seven<Row>
    requires NoneEmpty(data)
  {
    Seven(data.crime[0], data.population[0], data.hospital[0], data.kindergarten[0],
          data.academy[0], data.traffic[0], data.park[0])
  }

  /** The seven series, every one read at the years of the crime row. */
  function AllSeries(rows: Seven<Row>, years: seq<real>, js: JsNumbers): Seven<seq<real>>
  {
    Seven(FloatSeries(rows.crime, years, js), FloatSeries(rows.population, years, js),
          FloatSeries(rows.hospital, years, js), FloatSeries(rows.kindergarten, years, js),
          FloatSeries(rows.academy, years, js), FloatSeries(rows.traffic, years, js),
          ParkSeries(rows.park, years, js))
  }

  /** Every series and the year list have at least two entries. */
  predicate LongEnough(years: seq<real>, s: Seven<seq<real>>)
  {
    |years| >= 2 && |s.crime| >= 2 && |s.population| >= 2 && |s.hospital| >= 2
      && |s.kindergarten| >= 2 && |s.academy| >= 2 && |s.traffic| >= 2 && |s.park| >= 2
  }

  /** `years.map((year, index) => [year, series[index]])`. */
  function Pair(years: seq<real>, series: seq<real>): (r: seq<Point>)
    ensures |r| == |years|
    ensures forall i :: 0 <= i < |years| ==> r[i].year == years[i]
    ensures forall i :: 0 <= i < |years| ==> (r[i].value.Some? <==> i < |series|)
    ensures forall i :: 0 <= i < |years| && i < |series| ==> r[i].value == Some(series[i])
  {
    seq(|years|, i requires 0 <= i < |years| =>
      Point(years[i], if i < |series| then Some(series[i]) else None))
  }

  /** `Array.from({ length: 7 }, (_, i) => 2024 + i)`. */
  const FutureYears: seq<real> := seq(7, i requires 0 <= i < 7 => 2024.0 + i as real)

  /** The model's predictions for the seven future years. */
  function Horizon(l: Line): (r: seq<real>)
    ensures |r| == 7
    ensures forall i :: 0 <= i < 7 ==> r[i] == Predict(l, 2024.0 + i as real)
  {
    seq(7, i requires 0 <= i < 7 => Predict(l, FutureYears[i]))
  }

  /** One regression per indicator, each predicted over the horizon. */
  function Predictions(years: seq<real>, s: Seven<seq<real>>, fit: seq<Point> -> Line): Seven<seq<real>>
  {
    Seven(Horizon(fit(Pair(years, s.crime))), Horizon(fit(Pair(years, s.population))),
          Horizon(fit(Pair(years, s.hospital))), Horizon(fit(Pair(years, s.kindergarten))),
          Horizon(fit(Pair(years, s.academy))), Horizon(fit(Pair(years, s.traffic))),
          Horizon(fit(Pair(years, s.park))))
  }

  /** Element 6 of each prediction sequence: the value for 2030. */
  function Terminal(p: Seven<seq<real>>): Seven<real>
    requires |p.crime| == 7 && |p.population| == 7 && |p.hospital| == 7 && |p.kindergarten| == 7
    requires |p.academy| == 7 && |p.traffic| == 7 && |p.park| == 7
  {
    Seven(p.crime[6], p.population[6], p.hospital[6], p.kindergarten[6],
          p.academy[6], p.traffic[6], p.park[6])
  }

  /** `createPredictions`, with `regression.linear` passed in as `fit`. `None` is the
      function returning `undefined`: a query came back empty, or too little data. */
  function CreatePredictions(data: Seven<seq<Row>>, js: JsNumbers, fit: seq<Point> -> Line): (r: Option<Forecast>)
    ensures r.Some? <==> (NoneEmpty(data)
      && var rows := FirstRows(data);
         var years := Years(rows.crime, js);
         LongEnough(years, AllSeries(rows, years, js)))
    ensures r.Some? ==> 0.0 <= r.value.score <= 100.0
  {
    if !NoneEmpty(data) then None
    else
      var rows := FirstRows(data);
      var years := Years(rows.crime, js);
      var series := AllSeries(rows, years, js);
      if !LongEnough(years, series) then None
      else
        var predicted := Predictions(years, series, fit);
        Some(Forecast(predicted, LivabilityScore(Terminal(predicted))))
  }

  /** A produced forecast covers exactly 2024..2030 for each indicator, fitted on the
      years paired with that indicator's series, and the score is taken from the
      2030 prediction of each. */
  lemma ForecastShape(data: Seven<seq<Row>>, js: JsNumbers, fit: seq<Point> -> Line)
    requires CreatePredictions(data, js, fit).Some?
    ensures var f := CreatePredictions(data, js, fit).value;
      var rows := FirstRows(data);
      var years := Years(rows.crime, js);
      var s := AllSeries(rows, years, js);
      && |f.predicted.crime| == 7 && |f.predicted.population| == 7 && |f.predicted.hospital| == 7
      && |f.predicted.kindergarten| == 7 && |f.predicted.academy| == 7
      && |f.predicted.traffic| == 7 && |f.predicted.park| == 7
      && (forall i :: 0 <= i < 7 ==>
            && f.predicted.crime[i] == Predict(fit(Pair(years, s.crime)), 2024.0 + i as real)
            && f.predicted.population[i] == Predict(fit(Pair(years, s.population)), 2024.0 + i as real)
            && f.predicted.hospital[i] == Predict(fit(Pair(years, s.hospital)), 2024.0 + i as real)
            && f.predicted.kindergarten[i] == Predict(fit(Pair(years, s.kindergarten)), 2024.0 + i as real)
            && f.predicted.academy[i] == Predict(fit(Pair(years, s.academy)), 2024.0 + i as real)
            && f.predicted.traffic[i] == Predict(fit(Pair(years, s.traffic)), 2024.0 + i as real)
            && f.predicted.park[i] == Predict(fit(Pair(years, s.park)), 2024.0 + i as real))
      && FutureYears[6] == 2030.0
      && f.score == LivabilityScore(Seven(
           Predict(fit(Pair(years, s.crime)), 2030.0),
           Predict(fit(Pair(years, s.population)), 2030.0),
           Predict(fit(Pair(years, s.hospital)), 2030.0),
           Predict(fit(Pair(years, s.kindergarten)), 2030.0),
           Predict(fit(Pair(years, s.academy)), 2030.0),
           Predict(fit(Pair(years, s.traffic)), 2030.0),
           Predict(fit(Pair(years, s.park)), 2030.0)))
  {
    var rows := FirstRows(data);
    var years := Years(rows.crime, js);
    var s := AllSeries(rows, years, js);
    var p := Predictions(years, s, fit);
    assert 2024.0 + 6 as real == 2030.0;
    assert Terminal(p).crime == Predict(fit(Pair(years, s.crime)), 2030.0);
  }

  /** The park series never loses an entry, so its length guard is the years' guard;
      each parseFloat series is exactly as long as the years when no reading is NaN,
      and then every regression point has its partner. */
  lemma SeriesLengths(row: Row, park: Row, years: seq<real>, js: JsNumbers)
    ensures |ParkSeries(park, years, js)| == |years|
    ensures (forall i :: 0 <= i < |years| ==> Readings(row, years, js)[i].Some?) ==>
      var ps := Pair(years, FloatSeries(row, years, js));
      forall i :: 0 <= i < |years| ==> ps[i].value == Readings(row, years, js)[i]
  {
    var rd := Readings(row, years, js);
    if forall i :: 0 <= i < |years| ==> rd[i].Some? {
      CompactAllPresent(rd);
    }
  }

  /** A missing table row anywhere suppresses the score, whatever the rest holds. */
  lemma NoScoreWithoutRows(data: Seven<seq<Row>>, js: JsNumbers, fit: seq<Point> -> Line)
    requires |data.crime| == 0 || |data.population| == 0 || |data.hospital| == 0
      || |data.kindergarten| == 0 || |data.academy| == 0 || |data.traffic| == 0 || |data.park| == 0
    ensures CreatePredictions(data, js, fit) == None
  {
  }

  // ---------------------------------------------------------------------------
  // Ordinary least squares over exact reals, a reference for `fit` on complete data.

  /** The running sums of `n`, x, y, x² and x·y over the points. */
  datatype Sums = Sums(n: real, sx: real, sy: real, sxx: real, sxy: real)

  function SumsOf(ps: seq<(real, real)>): (r: Sums)
    ensures r.n >= 0.0
    ensures |ps| > 0 ==> r.n >= 1.0
  {
    if |ps| == 0 then Sums(0.0, 0.0, 0.0, 0.0, 0.0)
    else AddPoint(SumsOf(ps[1..]), ps[0].0, ps[0].1)
  }

  /** The sums with one more point `(x, y)`. */
  function AddPoint(s: Sums, x: real, y: real): Sums
  {
    Sums(s.n + 1.0, s.sx + x, s.sy + y, s.sxx + x * x, s.sxy + x * y)
  }

  /** The sums of two point lists taken together. */
  function Plus(a: Sums, b: Sums): Sums
  {
    Sums(a.n + b.n, a.sx + b.sx, a.sy + b.sy, a.sxx + b.sxx, a.sxy + b.sxy)
  }

  /** The sums add over concatenation: they do not depend on how the points are
      grouped, and with the sums of one point they determine `SumsOf`. */
  lemma {:induction false} SumsAppend(a: seq<(real, real)>, b: seq<(real, real)>)
    ensures SumsOf(a + b) == Plus(SumsOf(a), SumsOf(b))
  {
    if |a| == 0 {
      assert a + b == b;
    } else {
      var p := a[0];
      assert (a + b)[0] == p && (a + b)[1..] == a[1..] + b;
      SumsAppend(a[1..], b);
      assert SumsOf(a + b) == AddPoint(Plus(SumsOf(a[1..]), SumsOf(b)), p.0, p.1);
      PlusAddPoint(SumsOf(a[1..]), SumsOf(b), p.0, p.1);
    }
  }

  lemma PlusAddPoint(s: Sums, u: Sums, x: real, y: real)
    ensures AddPoint(Plus(s, u), x, y) == Plus(AddPoint(s, x, y), u)
  {
  }

  /** One point counts once and adds its own x, y, x² and x·y. */
  lemma SumsOfOne(x: real, y: real)
    ensures SumsOf([(x, y)]) == Sums(1.0, x, y, x * x, x * y)
  {
    assert [(x, y)][1..] == [];
  }

  /** The count sum is the number of points. */
  lemma {:induction false} SumsCount(ps: seq<(real, real)>)
    ensures SumsOf(ps).n == |ps| as real
  {
    if |ps| > 0 {
      SumsCount(ps[1..]);
    }
  }

  /** `n·Σx² − (Σx)²`, zero exactly when the years give no slope to fit. */
  function Run(s: Sums): real
  {
    s.n * s.sxx - s.sx * s.sx
  }

  /** The least-squares line of the summed points; a zero `Run` gives slope 0. */
  function LineOfSums(s: Sums): Line
    requires s.n != 0.0
  {
    var rise := s.n * s.sxy - s.sx * s.sy;
    var slope := if Run(s) == 0.0 then 0.0 else rise / Run(s);
    Line(slope, s.sy / s.n - slope * s.sx / s.n)
  }

  /** The least-squares line through the points. */
  function Ols(ps: seq<(real, real)>): Line
    requires |ps| > 0
  {
    LineOfSums(SumsOf(ps))
  }

  /** Every point lies on the line `a·x + b`. */
  predicate OnLine(ps: seq<(real, real)>, a: real, b: real)
  {
    |ps| == 0 || (ps[0].1 == a * ps[0].0 + b && OnLine(ps[1..], a, b))
  }

  /** The sums of y and x·y are what the line makes of the sums of 1, x and x². */
  predicate Balanced(s: Sums, a: real, b: real)
  {
    s.sy == a * s.sx + b * s.n && s.sxy == a * s.sxx + b * s.sx
  }

  /** Adding one more point of the line keeps the sums balanced. */
  lemma LineStep(a: real, b: real, rest: Sums, x: real, y: real)
    requires Balanced(rest, a, b)
    requires y == a * x + b
    ensures Balanced(AddPoint(rest, x, y), a, b)
  {
  }

  /** On points of a line, the sums of y and x·y follow from those of 1, x and x². */
  lemma {:induction false} SumsOnLine(ps: seq<(real, real)>, a: real, b: real)
    requires OnLine(ps, a, b)
    ensures Balanced(SumsOf(ps), a, b)
  {
    if |ps| == 0 {
      assert SumsOf(ps) == Sums(0.0, 0.0, 0.0, 0.0, 0.0);
    } else {
      SumsOnLine(ps[1..], a, b);
      LineStep(a, b, SumsOf(ps[1..]), ps[0].0, ps[0].1);
      assert SumsOf(ps) == AddPoint(SumsOf(ps[1..]), ps[0].0, ps[0].1);
    }
  }

  /** The algebra behind the slope: on a line, `n·Σxy − Σx·Σy = a·(n·Σx² − (Σx)²)`. */
  lemma RiseOnLine(s: Sums, a: real, b: real)
    requires Balanced(s, a, b)
    ensures s.n * s.sxy - s.sx * s.sy == a * (s.n * s.sxx - s.sx * s.sx)
  {
  }

  /** Balanced sums with a slope to fit give back the line. */
  lemma LineOfBalancedSums(s: Sums, a: real, b: real)
    requires s.n != 0.0 && Run(s) != 0.0 && Balanced(s, a, b)
    ensures LineOfSums(s) == Line(a, b)
  {
    SlopeOfBalanced(s, a, b);
    InterceptOfBalanced(s, a, b);
  }

  lemma SlopeOfBalanced(s: Sums, a: real, b: real)
    requires s.n != 0.0 && Run(s) != 0.0 && Balanced(s, a, b)
    ensures LineOfSums(s).slope == a
  {
    RiseOnLine(s, a, b);
    DivideProduct(a, Run(s));
  }

  lemma InterceptOfBalanced(s: Sums, a: real, b: real)
    requires s.n != 0.0 && Balanced(s, a, b) && LineOfSums(s).slope == a
    ensures LineOfSums(s).intercept == b
  {
    DivideSum(a * s.sx, b, s.n);
  }

  /** Least squares recovers a line exactly, from any points on it spanning two years. */
  lemma OlsRecoversLine(ps: seq<(real, real)>, a: real, b: real)
    requires |ps| > 0 && Run(SumsOf(ps)) != 0.0
    requires OnLine(ps, a, b)
    ensures Ols(ps) == Line(a, b)
  {
    SumsOnLine(ps, a, b);
    LineOfBalancedSums(SumsOf(ps), a, b);
  }

  lemma DivideProduct(a: real, d: real)
    requires d != 0.0
    ensures (a * d) / d == a
  {
  }

  lemma DivideSum(u: real, b: real, n: real)
    requires n != 0.0
    ensures (u + b * n) / n - u / n == b
  {
  }

  /** The series 10, 12, 14, 16, 18 over 2019..2023 (slope 2) predicts 20 for 2024. */
  lemma PerfectSeriesExample()
    ensures Predict(Ols(PerfectSeries), 2024.0) == 20.0
  {
    FiveYearRun(PerfectSeries);
    PerfectSeriesOnLine();
    OlsRecoversLine(PerfectSeries, 2.0, -4028.0);
  }

  /** Five yearly points, 10 to 18 in steps of 2 over 2019..2023. */
  const PerfectSeries: seq<(real, real)> :=
    [(2019.0, 10.0), (2020.0, 12.0), (2021.0, 14.0), (2022.0, 16.0), (2023.0, 18.0)]

  /** The sums of any five points at the years 2019..2023, whatever their values. */
  lemma FiveYearRun(ps: seq<(real, real)>)
    requires |ps| == 5
    requires ps[0].0 == 2019.0 && ps[1].0 == 2020.0 && ps[2].0 == 2021.0 && ps[3].0 == 2022.0 && ps[4].0 == 2023.0
    ensures Run(SumsOf(ps)) == 50.0
  {
    var s5 := SumsOf(ps[5..]);
    assert s5 == Sums(0.0, 0.0, 0.0, 0.0, 0.0);
    var s4 := SumsOf(ps[4..]);
    assert ps[4..][1..] == ps[5..] && ps[4..][0] == ps[4];
    assert s4 == AddPoint(s5, 2023.0, ps[4].1);
    assert s4.n == 1.0 && s4.sx == 2023.0 && s4.sxx == 4092529.0;
    var s3 := SumsOf(ps[3..]);
    assert ps[3..][1..] == ps[4..] && ps[3..][0] == ps[3];
    assert s3 == AddPoint(s4, 2022.0, ps[3].1);
    assert s3.n == 2.0 && s3.sx == 4045.0 && s3.sxx == 8181013.0;
    var s2 := SumsOf(ps[2..]);
    assert ps[2..][1..] == ps[3..] && ps[2..][0] == ps[2];
    assert s2 == AddPoint(s3, 2021.0, ps[2].1);
    assert s2.n == 3.0 && s2.sx == 6066.0 && s2.sxx == 12265454.0;
    var s1 := SumsOf(ps[1..]);
    assert ps[1..][1..] == ps[2..] && ps[1..][0] == ps[1];
    assert s1 == AddPoint(s2, 2020.0, ps[1].1);
    assert s1.n == 4.0 && s1.sx == 8086.0 && s1.sxx == 16345854.0;
    var s0 := SumsOf(ps);
    assert s0 == AddPoint(s1, 2019.0, ps[0].1);
    assert s0.n == 5.0 && s0.sx == 10105.0 && s0.sxx == 20422215.0;
    RunOfFive(s0);
  }

  lemma RunOfFive(s: Sums)
    requires s.n == 5.0 && s.sx == 10105.0 && s.sxx == 20422215.0
    ensures Run(s) == 50.0
  {
  }

  lemma PerfectSeriesOnLine()
    ensures OnLine(PerfectSeries, 2.0, -4028.0)
  {
    var ps := PerfectSeries;
    assert OnLine(ps[4..], 2.0, -4028.0);
    assert ps[3..][1..] == ps[4..];
    assert OnLine(ps[3..], 2.0, -4028.0);
    assert ps[2..][1..] == ps[3..];
    assert OnLine(ps[2..], 2.0, -4028.0);
    assert ps[1..][1..] == ps[2..];
    assert OnLine(ps[1..], 2.0, -4028.0);
  }
}
