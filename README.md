# Uridongne: the verified core

Uridongne is a React app for the districts of Seoul. It has an SVG map of the districts and of their neighbourhoods, which the user can zoom, pan, hover and click. Beside the map, indicator panels show statistics for the selected district read from database tables: parks, population, hospitals, academies, crime and traffic. A forecast panel fits one linear model per indicator, predicts 2024..2030 and turns the 2030 predictions into a livability score.

This project models the deterministic logic inside those components and proves properties of it:

- **Livability** (`livability.dfy`) covers `calculateLivabilityScore`. It normalises each of seven values with clamps, accumulates the weighted sum in a loop (a method with a loop invariant) and clamps the total to [0, 100]. The weights add up to 1.03; the final clamp is what keeps the score at 100 or below.
- **Forecast** (`forecast.dfy`) covers `createPredictions`. It has:
  - the year list and the seven series, where park values that fail to parse become 0 and the other series drop their NaN entries;
  - the empty-row and length guards;
  - the pairing of years with series positions;
  - the 2024..2030 horizon, and the hand-off of element 6 to the score.

  `regression.linear` is a function parameter. An exact least-squares fit over the reals is given beside it as a reference, with a proof that it recovers a line.
- **Geometry** (`geometry.dfy`) covers the bounding box of the district map, its centre offset, the projection of points, and the mean-of-ring centroid that label anchors use.
- **Scene** (`scene.dfy`) covers what one zoom level draws:
  - which map is active;
  - each polygon's label (the last space-separated word of the neighbourhood name, or the district name);
  - caption font size and visibility;
  - the highlight;
  - that only `Polygon` features are drawn.
- **Viewport** (`viewport.dfy`) covers the map's interaction state: zoom, drag, pan, hover and selection. `Step` is a pure reducer giving one event's effect. The class `MapView` holds the same state in fields, and its handler methods are each proved to perform `Step`.
- **Ranking** (`ranking.dfy`) covers the park panel's ranking. The parsed counts are copied into an array and sorted in place, largest first, by a selection sort proved sorted and a permutation; JavaScript does not fix the sorting algorithm, only the order. The value at index `floor(n / 2)` is proved to be the rank value of the unsorted counts.
- **Park**, **Population**, **Hospital**, **Educational**, **Crime** and **Traffic** (one file each) cover one panel each. A panel's state after a refresh is stated as a function of the previous state and the query answers. The panels share these pieces:
  - share-of-total with its guards and two-decimal rounding (`stats.dfy`);
  - the first-versus-end trend test (`stats.dfy`);
  - row parsing (`rows.dfy`).

JavaScript's numbers are exact reals here. `parseFloat`, `parseInt` and `Number` are function parameters, with every NaN (and `undefined`) read as `None`, so any comparison with them is false as in JavaScript. Rounding by `toFixed(2)` is modelled as rounding half up to two decimals, and the rounded number is what the panels compare. A row is its list of keys in `Object.keys` order plus a map from column names to their text; the key order is taken as given. A database query is an input: it either failed or answered with rows.

## Model

| member | source | states |
|---|---|---|
| Rows.FirstOf | src/components/park.js:22-25 | a panel works on a row exactly when its query answered with at least one row, and then on the first one |
| Rows.AllOf | src/components/park.js:72-83 | a failed query yields no rows, a successful one all its rows |
| Rows.YearLabels | src/components/park.js:27 | the year labels are exactly the row's keys other than the district column; with no district column they are the keys |
| Rows.Kept | src/components/park.js:27 | the positions a filter keeps: in range, passing the test, strictly increasing, and every passing position among them |
| Rows.YearLabelsOrder | src/components/park.js:27 | label j is the key at the j-th non-district position: key order and every copy kept |
| Rows.YearLabelsFrom | src/components/park.js:27 | helper of Rows.YearLabelsOrder: the same for the keys from any position on |
| Rows.CellsAt | src/components/crime.js:29 | the series holds, position by position, the parse of each listed column |
| Rows.Compact | src/components/main.js:122-127 | the NaN filter keeps exactly the values that parsed, never lengthens the list, and drops nothing only when nothing was NaN |
| Rows.CompactOrder | src/components/main.js:122-127 | value j is the reading at the j-th non-NaN position: original order, every copy kept |
| Rows.CompactFrom | src/components/main.js:122-127 | helper of Rows.CompactOrder: the same for the readings from any position on |
| Rows.Occurrences | src/components/main.js:122-127 | how many readings are a given value, never more than the readings |
| Rows.CompactCounts | src/components/main.js:122-127 | each value occurs in the filtered list as often as it was read |
| Rows.CompactAllPresent | src/components/main.js:122-127 | when nothing is NaN, every value stays at its index |
| Rows.FirstYearValue | src/components/hospital.js:46 | the start value is the parse of the first year label, NaN when the row has no year label |
| Stats.RisingAntisymmetric | src/components/hospital.js:48 | a comparison and its reverse are never both true; equal values or a NaN on either side make both false |
| Stats.EndpointsRisingReversed | src/components/crime.js:40 | the series read backwards never also rises, and with distinct valid endpoints exactly one direction rises |
| Stats.ShareOfTotal | src/components/park.js:42-43 | a share exists exactly when both values parse and the total is positive, and then share × total = selected × 100, within [0, 100] when the selected value lies between 0 and the total |
| Stats.RoundHalfUp | src/components/park.js:43 | the integer rounding lies within half a unit of its argument |
| Stats.ToFixed2 | src/components/park.js:43 | a two-decimal value within 0.005 of the exact one |
| Stats.Hundredths | src/components/park.js:43 | helper of Stats.ToFixed2: a whole number over 100 is a whole number of hundredths |
| Stats.HalfUpScaled | src/components/park.js:43 | helper of Stats.ToFixed2: rounding x·100 half up and dividing by 100 stays within half a hundredth of x |
| Stats.HalfDownScaled | src/components/population.js:51 | helper of Stats.ToFixed2: the same for a negative x, whose magnitude is rounded |
| Stats.ToFixed2Positive | src/components/population.js:52-53 | the shown value is positive exactly when the exact one is at least 0.005 |
| Stats.UpdateShare | src/components/park.js:39-47 | with no total row the share line is unchanged; a valid share shows rounded; an invalid one shows the message where the panel has one and is otherwise unchanged; a newly shown percentage is within rounding of selected / total × 100 with a positive total |
| Stats.UpdateShareIdempotent | src/components/hospital.js:36-43 | updating the share line twice with the same rows is updating it once |
| Stats.TrendOf | src/components/hospital.js:48-50 | the increasing text is chosen exactly when the series rises, and some text is always chosen |
| Livability.Seven.Values | src/components/main.js:200-213 | the seven values in the key order the loop visits |
| Livability.SubScores | src/components/main.js:199-207 | the seven normalised sub-scores; SubScoreBounds states their ranges |
| Livability.RawScore | src/components/main.js:210-213 | the weighted sum of the sub-scores; RawScoreFormula and ScoreMonotone state its properties |
| Livability.LivabilityScore | src/components/main.js:215 | the score lies in [0, 100] for any seven inputs |
| Livability.WeightedSumStep | src/components/main.js:211-213 | one loop iteration adds the next value times its weight |
| Livability.RawScoreFormula | src/components/main.js:188-213 | the raw sum is 0.03·crime + 0.2·population + 0.25·hospital + 0.3·kindergarten + 0.15·academy + 0.05·traffic + 0.05·park of the sub-scores |
| Livability.SubScoreBounds | src/components/main.js:200-208 | crime and traffic sub-scores lie in [0, 100]; the other five are at most 100 and negative exactly when their input is |
| Livability.AllZeroScore | src/components/main.js:188-215 | all-zero inputs give the score 8 |
| Livability.SaturatedScore | src/components/main.js:188-215 | saturated sub-scores give a raw sum of 103, clamped to 100 |
| Livability.ScoreMonotone | src/components/main.js:200-215 | the score never falls as population, hospitals, kindergartens, academies or parks grow or as crime and traffic shrink |
| Livability.CalculateLivabilityScore | src/components/main.js:187-217 | the loop's total is the weighted sum of the sub-scores, so the method returns the clamped score, in [0, 100] |
| Forecast.Years | src/components/main.js:121 | the keys that are numbers, in key order; Rows.CompactOrder states the order and ForecastShape its use |
| Forecast.KeyNumbers | src/components/main.js:121 | `Number` of each key, in key order |
| Forecast.Readings | src/components/main.js:122 | one reading per year: entry i is parseFloat of the row's cell for year i, NaN or a missing column as none |
| Forecast.FloatSeries | src/components/main.js:122-127 | a parseFloat series is never longer than the years, as long exactly when no reading is NaN, and entry j is the reading of the j-th year that parses |
| Forecast.ParkSeries | src/components/main.js:129-132 | the park series has one entry per year, 0 where the count does not parse |
| Forecast.Pair | src/components/main.js:140-145 | the i-th point pairs years[i] with the i-th series value, and has no value where the filtered series is shorter |
| Forecast.Horizon | src/components/main.js:147-156 | exactly seven predictions, the i-th for year 2024 + i |
| Forecast.CreatePredictions | src/components/main.js:115-184 | a forecast exists exactly when no query came back empty and the years and every series have at least two entries; its score lies in [0, 100] whenever `fit` returns a real line (see Left out) |
| Forecast.ForecastShape | src/components/main.js:140-169 | each of the seven indicators gets seven predictions, the i-th the fit of its own series at 2024 + i, and the score is taken from the 2030 prediction of each |
| Forecast.SeriesLengths | src/components/main.js:122-145 | the park series is as long as the years, and with no NaN reading every regression point has its partner |
| Forecast.NoScoreWithoutRows | src/components/main.js:116-119 | an empty query anywhere means no forecast |
| Forecast.SumsOf | src/components/main.js:140 | the count sum is never negative and at least 1 for a nonempty point list; the content is in SumsCount and SumsAppend |
| Forecast.SumsAppend | src/components/main.js:140 | the sums of two point lists together are the sums of each added |
| Forecast.SumsOfOne | src/components/main.js:140 | one point counts once and adds its x, y, x² and x·y |
| Forecast.SumsCount | src/components/main.js:140 | the count sum is the number of points |
| Forecast.LineStep | src/components/main.js:140 | one more point of a line keeps the least-squares sums balanced |
| Forecast.SumsOnLine | src/components/main.js:140 | on points of a line, the sums of y and x·y follow from those of 1, x and x² |
| Forecast.RiseOnLine | src/components/main.js:140 | on a line, the slope's numerator is the slope times its denominator |
| Forecast.LineOfBalancedSums | src/components/main.js:140 | balanced sums with a slope to fit give back the line |
| Forecast.SlopeOfBalanced | src/components/main.js:140 | balanced sums with a slope to fit give back the slope |
| Forecast.InterceptOfBalanced | src/components/main.js:140 | balanced sums with the right slope give back the intercept |
| Forecast.OlsRecoversLine | src/components/main.js:140 | exact least squares recovers any line from points on it spanning two years |
| Forecast.PerfectSeriesExample | src/components/main.js:147-148 | 10, 12, 14, 16, 18 over 2019..2023 predicts 20 for 2024 |
| Forecast.FiveYearRun | src/components/main.js:140-148 | any five points at 2019..2023 leave the least-squares denominator at 50, so a slope can be fitted |
| Forecast.PerfectSeriesOnLine | src/components/main.js:140-148 | the five points lie on 2·x − 4028 |
| Geometry.OuterPoints | src/Home.js:16-18 | a Polygon contributes its outer ring; a MultiPolygon exactly the points of the outer ring of each polygon, no hole point |
| Geometry.Outers | src/Home.js:18 | exactly the points of the outer rings |
| Geometry.Coordinates | src/Home.js:15-19 | the box points are exactly the outer-ring points of the district features |
| Geometry.MinOf | src/Home.js:21-24 | the minimum is one of the values and below all of them |
| Geometry.MaxOf | src/Home.js:21-24 | the maximum is one of the values and above all of them |
| Geometry.Xs | src/Home.js:21-22 | the x of each point |
| Geometry.Ys | src/Home.js:23-24 | the y of each point |
| Geometry.Bounds | src/Home.js:21-24 | a box exists exactly for a nonempty point list; it contains every point and each bound is attained |
| Geometry.BoundsOfBox | src/Home.js:21-24 | a box holding every point, each side touching one, is the bounding box |
| Geometry.MinOfExact | src/Home.js:21-24 | a value of the list below all of them is the minimum |
| Geometry.MaxOfExact | src/Home.js:21-24 | a value of the list above all of them is the maximum |
| Geometry.Offset | src/Home.js:26-30 | the scaled centre of the box; BoxCentred and ProjectedInside state its properties |
| Geometry.MapOffset | src/Home.js:15-30 | the offset exists exactly when the district map has points |
| Geometry.Project | src/Home.js:122-123 | a coordinate in drawing units; ProjectInverse and ProjectedInside state its properties |
| Geometry.ProjectInverse | src/Home.js:122-123 | projection is invertible |
| Geometry.BoxCentred | src/Home.js:26-30 | under projection the box is centred at the origin: the projected minimum is minus the projected maximum in x and y |
| Geometry.ProjectedInside | src/Home.js:122-123 | every projected point lies within half the scaled box around the origin |
| Geometry.Count | src/Home.js:133 | the point count is never negative and at least 1 for a nonempty ring; the content is in CountIsLength |
| Geometry.CountIsLength | src/Home.js:133 | the count is the ring's length |
| Geometry.Centroid | src/Home.js:127-133 | a centroid exists exactly for a nonempty ring |
| Geometry.SumTranslated | src/Home.js:127-132 | moving every point by d adds d once per point to the coordinate sums |
| Geometry.SumTranslatedX | src/Home.js:127-132 | helper of Geometry.SumTranslated, x part: the moved x sum is the x sum plus count × d.x |
| Geometry.SumTranslatedY | src/Home.js:127-132 | helper of Geometry.SumTranslated, y part: the moved y sum is the y sum plus count × d.y |
| Geometry.CentroidTranslated | src/Home.js:127-133 | moving every point of a ring by d moves its centroid by d |
| Geometry.CentroidOfPoint | src/Home.js:127-136 | a one-point ring has that point as centroid, and its label anchor is the projected point 10 units lower |
| Geometry.Anchor | src/Home.js:135-136 | an anchor exists exactly for a nonempty ring |
| Geometry.ProjectAll | src/Home.js:121-125 | the drawn points are the ring's points projected one by one |
| Geometry.SumProjected | src/Home.js:121-133 | projecting every point projects their sum |
| Geometry.SumProjectedX | src/Home.js:121-133 | helper of Geometry.SumProjected, x part: the sum of projected x is the scaled x sum less count × offset |
| Geometry.SumProjectedY | src/Home.js:121-133 | helper of Geometry.SumProjected, y part: the sum of projected y is the scaled y sum less count × offset |
| Geometry.AnchorIsDrawnCentroid | src/Home.js:121-136 | the label anchor is the mean of the drawn polygon's points, 10 lower in y |
| Geometry.AnchorX | src/Home.js:121-135 | the anchor's x is the mean x of the drawn points |
| Geometry.AnchorY | src/Home.js:121-136 | the anchor's y is the mean y of the drawn points, less 10 |
| Geometry.SumBetweenX | src/Home.js:127-133 | points within an x-range sum to within count × that range |
| Geometry.SumBetweenY | src/Home.js:127-133 | points within a y-range sum to within count × that range |
| Geometry.CentroidInBox | src/Home.js:127-133 | the centroid of a ring lies in any box holding all its points |
| Geometry.SquareCentroid | src/Home.js:127-133 | the square (0,0),(2,0),(2,2),(0,2) has centroid (1,1) |
| Geometry.SquareBounds | src/Home.js:21-24 | the square's box is [0,2]×[0,2] |
| Geometry.SquareAnchor | src/Home.js:127-136 | with that box the offset is (2100, 2100) and the label anchors at (0, −10) |
| Scene.ActiveFeatures | src/Home.js:100 | the neighbourhood map from zoom 2 on, the district map below; LevelOfDetail and OnlyPolygonsDrawn use it |
| Scene.Split | src/Home.js:144 | the pieces contain no space and joined with single spaces give back the text |
| Scene.JoinSnoc | src/Home.js:144 | joining one more piece appends a space and that piece |
| Scene.JoinExtend | src/Home.js:144 | extending the last piece by a character extends the joined text by it |
| Scene.LastToken | src/Home.js:144 | the label is a space-free suffix of the full name, preceded by a space unless it is the whole name |
| Scene.LastTokenIsLastPiece | src/Home.js:144 | the label is the last piece of the split |
| Scene.NeighbourhoodName | src/Home.js:144 | "서울특별시 종로구 사직동" is labelled "사직동" |
| Scene.Label | src/Home.js:143-145 | the caption text; LabelChoice states its properties |
| Scene.LabelChoice | src/Home.js:143-145 | from zoom 2 on the label is a single word ending the neighbourhood name; below, the district name |
| Scene.CaptionSize | src/Home.js:162 | the font size is 6 from zoom 2 on and 15 below |
| Scene.DrawFeature | src/Home.js:119-174 | a feature draws exactly when it is a Polygon, with its projected points, highlighted exactly when it is hovered, captioned exactly from zoom 1 on, at its anchor with its label and size |
| Scene.Render | src/Home.js:119-175 | one entry per feature of the active map, each drawn with the district map's offset |
| Scene.OneHighlighted | src/Home.js:138 | at most one polygon is highlighted, the hovered one |
| Scene.LevelOfDetail | src/Home.js:143-162 | captions appear exactly from zoom 1 on; from zoom 2 on the neighbourhood map is active with size-6 neighbourhood labels, and between 1 and 2 the district map with size-15 district names |
| Scene.OnlyPolygonsDrawn | src/Home.js:119-174 | a feature draws exactly when it is a Polygon; a MultiPolygon's points still enter the box |
| Viewport.Step | src/Home.js:72-97 | one event's effect on the view state; its properties are stated by WheelZoom, IdleMove, DragTelescopes, ReleaseEndsDrag, HoverStep and ClickSelectsCaption |
| Viewport.Zoomed | src/Home.js:75 | the wheel's new zoom; WheelZoom, ZoomFloor and WheelRoundTrip state its properties |
| Viewport.Panned | src/Home.js:87-90 | the translation after a move; DragTelescopes and PressAndDrag state its properties |
| Viewport.WheelZoom | src/Home.js:72-76 | a wheel event out sets zoom to max(0.1, zoom − 0.1), any other adds 0.1, the zoom stays at or above 0.1 and nothing else changes |
| Viewport.ZoomFloor | src/Home.js:72-76 | from any zoom at or above 0.1, zoom stays at or above 0.1 after any events |
| Viewport.WheelRoundTrip | src/Home.js:72-76 | zooming in then out restores the state; out then in restores it from zoom 0.2 on, and at the floor ends at 0.2 |
| Viewport.IdleMove | src/Home.js:83-93 | a move while not dragging changes nothing |
| Viewport.Moves | src/Home.js:114 | one move event per point, in order |
| Viewport.DragTelescopes | src/Home.js:83-93 | during a drag, moves to p1..pk add pk minus the anchor to the translation and leave pk as the anchor |
| Viewport.PressAndDrag | src/Home.js:78-93 | a press at p0 and moves to p1..pk translate the map by pk − p0 |
| Viewport.ReleaseEndsDrag | src/Home.js:95-116 | mouse-up and leaving the map both clear the drag and change nothing else |
| Viewport.MovesAfterRelease | src/Home.js:83-97 | every move after a release is idle |
| Viewport.HoverHighlights | src/Home.js:138-156 | entering a polygon highlights exactly that polygon; leaving highlights none |
| Viewport.HoverStep | src/Home.js:155-156 | entering and leaving change the hovered polygon alone |
| Viewport.DrawnAt | src/Home.js:119-138 | a polygon of the active map is drawn, highlighted exactly when it is the hovered one |
| Viewport.ClickSelectsCaption | src/Home.js:143-157 | a click selects the district name below zoom 2 and the neighbourhood name from zoom 2, changing nothing else |
| Viewport.MapView.constructor | src/Home.js:34-39 | the fields start as the initial state, zoom 1 |
| Viewport.MapView.HandleWheel | src/Home.js:72-76 | the fields become the wheel step of the old state, the zoom floor kept |
| Viewport.MapView.HandleMouseDown | src/Home.js:78-81 | the fields become the press step of the old state |
| Viewport.MapView.HandleMouseMove | src/Home.js:83-93 | the fields become the move step of the old state |
| Viewport.MapView.HandleMouseUp | src/Home.js:95-97 | the fields become the release step of the old state |
| Viewport.MapView.HandleEnter | src/Home.js:155 | the fields become the hover step of the old state |
| Viewport.MapView.HandleLeave | src/Home.js:156 | the fields become the leave step of the old state |
| Viewport.MapView.HandleClick | src/Home.js:157 | the fields become the click step of the old state |
| Ranking.SortDescending | src/components/park.js:53 | the array ends sorted largest first and holds the same values |
| Ranking.PlaceMax | src/components/park.js:53 | one step extends the part in its final place by one value and keeps the values |
| Ranking.MaxIndex | src/components/park.js:53 | the index found holds a largest value of the unsorted part |
| Ranking.CountAbove | src/components/park.js:54-55 | at most as many values exceed a threshold as there are values |
| Ranking.CountAtLeast | src/components/park.js:54-55 | at most as many values reach a threshold as there are values |
| Ranking.CountAppend | src/components/park.js:53-55 | counts over a concatenation add up |
| Ranking.CountPermutation | src/components/park.js:53 | reordering the values changes no count |
| Ranking.RemoveAt | src/components/park.js:53 | dropping one entry drops one copy of its value |
| Ranking.CountRemoveAt | src/components/park.js:53-55 | dropping one entry drops its share of each count |
| Ranking.DescendingRank | src/components/park.js:53-55 | in descending order the value at index k is the rank-k value |
| Ranking.AboveBefore | src/components/park.js:53-55 | only values before index k can exceed the value at k |
| Ranking.AboveNone | src/components/park.js:53-55 | nothing exceeds an upper bound of all values |
| Ranking.AtLeastThrough | src/components/park.js:53-55 | every value up to index k reaches the value at k |
| Ranking.CountsOrdered | src/components/park.js:53-55 | fewer values reach a larger threshold than exceed a smaller one |
| Ranking.RankValueUnique | src/components/park.js:53-55 | the rank-k value depends only on the values |
| Ranking.RankThreshold | src/components/park.js:51-55 | no threshold exactly when there are no values; otherwise the threshold is the rank-floor(n/2) value of the unsorted values, which are left as they were |
| Ranking.RankExample | src/components/park.js:53-55 | 10, 20, 30, 40 have threshold 20 |
| Park.PoolCells | src/components/park.js:50 | one 2021 reading per row of the table, none after a failed query |
| Park.PoolValues | src/components/park.js:50-51 | the pool holds one value per row whose 2021 count parses, in row order with every copy kept, and nothing when that query failed |
| Park.AboveRank | src/components/park.js:57 | the test `selected2021 > fiftyPercentValue`; AboveRankMeans and RankFlagExample state its meaning |
| Park.AboveRankMeans | src/components/park.js:57-63 | above-ranking means exceeding the rank threshold |
| Park.RankFlagExample | src/components/park.js:53-63 | among 10, 20, 30, 40 a count of 25 is above, 15 or NaN is not, and with no counts nothing is |
| Park.TotalRowRanked | src/components/park.js:72-75 | the total row's count is in the ranking pool |
| Park.Refresh | src/components/park.js:24-64 | with no row nothing changes; otherwise the row, its labels, the share line with its message, the above flag exactly when the count exceeds the rank threshold, and the message that goes with the flag |
| Population.ExactChange | src/components/population.js:51 | the exact percentage change; GrowthThreshold states when its rounding is positive |
| Population.ShownPositive | src/components/population.js:52-53 | the test `changePercentage > 0`; IncreaseMeans states the flag it sets |
| Population.ShownChange | src/components/population.js:51 | a change is shown exactly when 2024 parses, within rounding of (v2024 − v2023) / v2023 × 100 |
| Population.Refresh | src/components/population.js:24-56 | with no row nothing changes; otherwise the share line with its message, and from a positive 2023 the rounded change with a `+` and the flag exactly when it is positive; from any other 2023 the message and the old flag |
| Population.IncreaseMeans | src/components/population.js:51-53 | the flag and `+` are set exactly when the population grew by at least 0.005 %, never for no change |
| Population.GrowthThreshold | src/components/population.js:51-53 | a change of at least 0.005 % is growth of at least 0.00005 times the 2023 value |
| Population.StaleIncreaseFlag | src/components/population.js:54-56 | an unreadable 2023 value shows the message and leaves the previous flag standing |
| Population.RefreshIdempotent | src/components/population.js:24-56 | refreshing twice with the same answers is refreshing once |
| Hospital.Refresh | src/components/hospital.js:24-51 | with no row nothing changes; otherwise the row, its labels, the share line without a fallback, and the trend of the 2023 value against the first year |
| Hospital.NoFallbackMessage | src/components/hospital.js:39-43 | the share line becomes a percentage or stays as it was, never a message |
| Hospital.TrendMeans | src/components/hospital.js:46-50 | increasing exactly when both values parse and 2023 is larger; equal or NaN values read decreasing |
| Hospital.EndIsFixedYear | src/components/hospital.js:47 | the end point is 2023, not the last column: a row that rises to its last column can still read decreasing |
| Hospital.RefreshIdempotent | src/components/hospital.js:24-51 | refreshing twice with the same answers is refreshing once |
| Educational.Refresh | src/components/educational.js:24-54 | with no row nothing changes; otherwise the share line without a fallback, the flag of 2023 against the first year, and the text that goes with it |
| Educational.RefreshAgrees | src/components/educational.js:49-53 | every refresh keeps the trend text and the flag in agreement |
| Educational.InitialAgrees | src/components/educational.js:12-13 | the initial text and flag agree |
| Educational.FlagMeans | src/components/educational.js:47-53 | the flag is set exactly when both values parse and 2023 is larger |
| Educational.NoYearsFalls | src/components/educational.js:47-53 | a row without year columns compares NaN with NaN: decreasing text and a false flag |
| Educational.RefreshIdempotent | src/components/educational.js:24-54 | refreshing twice with the same answers is refreshing once |
| Crime.AnalyzeTrend | src/components/crime.js:39-43 | the flag is set exactly when the first and last values parse and the last is larger, and the increasing text goes with the flag |
| Crime.Refresh | src/components/crime.js:25-30 | with no row nothing changes; otherwise the trend of the row's values over all year columns, in key order |
| Crime.FlagMeans | src/components/crime.js:27-42 | the flag compares the first and last year columns and is never set without one; the message agrees with it |
| Crime.EndpointsOnly | src/components/crime.js:40 | the years between the endpoints change nothing |
| Crime.SingleYearFalls | src/components/crime.js:40-42 | a single year never reads increasing |
| Crime.RefreshIdempotent | src/components/crime.js:24-31 | refreshing twice with the same answer is refreshing once |
| Traffic.AnalyzeTrend | src/components/traffic.js:40-45 | the increasing text exactly when the first and last values parse and the last is larger |
| Traffic.Refresh | src/components/traffic.js:24-30 | with no row nothing changes; otherwise the trend of the row's values over all year columns, in key order |
| Traffic.ReversedTrend | src/components/traffic.js:41-43 | the series read backwards never also rises; with distinct valid endpoints the trend flips |
| Traffic.TrendPersists | src/components/traffic.js:24-30 | once a row has answered a trend text is shown, and a later empty or failed answer leaves it |
| Traffic.RisingExample | src/components/traffic.js:41-43 | 10, 15, 12 reads increasing |

## Left out

- Database queries and their wiring (every component's `fetchData`, and the query block and `try/catch` of `src/components/main.js`) are network I/O. Query answers are inputs, `Failed` or `Fetched(rows)`. The order in which concurrent answers arrive is not modelled, and neither are stale answers.
- The `if (selectedPolygon)` guard that decides whether a panel queries at all is not modelled. A refresh is modelled as if the query was made.
- The news lookup (`src/components/news.js`, `fetchArticles` in `src/Home.js`) is an HTTP call with no logic. `src/components/news.js` is not part of this model.
- `src/components/kindergarten.js` only fetches a row and draws a chart. `src/components/kindergarten.js` is not part of this model.
- Chart and SVG output is not modelled: colours, chart options, transform strings, the `showPredictions` toggle, and the text of the trend, share and ranking messages beyond which message is chosen. Trend texts are the values of `Trend`; the share message is `NoValidData`.
- `regression.linear` belongs to a library. It is a function parameter, `fit`. The exact least-squares fit beside it is a reference and is not claimed to match the library's output, which may round.
- Forecast.CreatePredictions: when a parseFloat series lost a NaN reading but still has two entries, the guard passes and the last years are paired with `undefined`. In JavaScript the fitted line is then NaN unless `regression.linear` drops those points, and so is the score. The model gives such points the value `None` and assumes `fit` still returns a real line, so the [0, 100] score bound is the model's there and need not be the program's.
- Forecast.JsNumbers: `Number(key)` and the conversion of a number back to a property name (`toKey`) are parameters. No claim is made that `toKey(Number(k)) == k`.
- IEEE-754 doubles are not modelled; numbers are exact reals. This covers rounding errors, overflow, and NaN other than as `None`.
- Stats.ToFixed2: rounds half up to two decimals on exact reals. It does not model the string `toFixed(2)` produces or the binary representation behind its rounding.
- Population.ShownChange: the string-to-number coercion in `changePercentage > 0` is read as the rounded value.
- String formatting is not modelled: the `%` suffix, the `+` prefix as text, and the surrounding message text.
- `Object.keys` order is taken as the row's `keys` field and not derived: integer-like keys first, ascending, then the rest in insertion order.
- Viewport.Step, Viewport.DragTelescopes, Viewport.PressAndDrag: `handleMouseMove` reads `isDragging` and `startCoords` from the render it was created in, and only `setTranslate` takes a functional update. The model applies each event to the state the previous event left, as if React re-rendered between any two events. Two moves handled before a re-render would both measure from the same `startCoords` and count the first stretch twice. That interleaving is not modelled.
- Viewport.ViewState: `hoveredPolygon` is kept as the polygon's index rather than its decimal string. `isHovered` compares that string with the index's string, so the two agree.
- Scene.Render: requires the district map to have at least one point. With none, `Math.min` of nothing gives Infinity and the offset is NaN, which exact reals cannot express.
- Geometry.Centroid: an empty outer ring divides by zero in the source (NaN coordinates). The model returns `None` for it instead.
- `width`, `height`, `viewBox`, the `transform` wiring of zoom and translate into the SVG, and `event.preventDefault()` are presentation only.
