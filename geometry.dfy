/** The map projection of src/Home.js: every outer-ring point of the district map
    enters one bounding box, whose centre, scaled, is the offset every polygon and
    label is shifted by; label anchors are the mean of a polygon's outer ring. */
module Geometry {
  import opened Rows

  /** A longitude/latitude pair, or a point of the drawing. */
  datatype Vec = Vec(x: real, y: real)

  /** One GeoJSON polygon: its outer ring and its holes. */
  datatype Area = Area(outer: seq<Vec>, holes: seq<seq<Vec>>)

  /** A feature's geometry, the two GeoJSON types the map files use. */
  datatype Shape = Polygon(area: Area) | MultiPolygon(areas: seq<Area>)

  /** A map feature with its two name properties: `SIG_KOR_NM` is the district name
      of the district map, `adm_nm` the full administrative name of the
      neighbourhood map. */
  datatype Feature = Feature(shape: Shape, sigKorNm: string, admNm: string)

  /** Degrees to drawing units. */
  const Scale: real := 2100.0

  /** The outer rings of every polygon of a shape, one after the other. */
  function OuterPoints(s: Shape): (r: seq<Vec>)
    ensures s.Polygon? ==> r == s.area.outer
    ensures s.MultiPolygon? ==> forall k, p :: 0 <= k < |s.areas| && p in s.areas[k].outer ==> p in r
    ensures s.MultiPolygon? ==> forall p :: p in r ==> exists k :: 0 <= k < |s.areas| && p in s.areas[k].outer
  {
    match s
    case Polygon(a) => a.outer
    case MultiPolygon(areas) => Outers(areas)
  }

  /** `areas.flatMap(polygon => polygon[0])`. */
  function Outers(areas: seq<Area>): (r: seq<Vec>)
    ensures forall k, p :: 0 <= k < |areas| && p in areas[k].outer ==> p in r
    ensures forall p :: p in r ==> exists k :: 0 <= k < |areas| && p in areas[k].outer
  {
    if |areas| == 0 then [] else areas[0].outer + Outers(areas[1..])
  }

  /** The points of every feature that enter the bounding box: outer rings only,
      of Polygon and MultiPolygon features alike. */
  function Coordinates(fs: seq<Feature>): (r: seq<Vec>)
    ensures forall i, p :: 0 <= i < |fs| && p in OuterPoints(fs[i].shape) ==> p in r
    ensures forall p :: p in r ==> exists i :: 0 <= i < |fs| && p in OuterPoints(fs[i].shape)
  {
    if |fs| == 0 then [] else OuterPoints(fs[0].shape) + Coordinates(fs[1..])
  }

  /** `Math.min(...xs)` of a non-empty list. */
  function MinOf(xs: seq<real>): (m: real)
    requires |xs| > 0
    ensures m in xs
    ensures forall i :: 0 <= i < |xs| ==> m <= xs[i]
  {
    if |xs| == 1 then xs[0]
    else var rest := MinOf(xs[1..]); if xs[0] <= rest then xs[0] else rest
  }

  /** `Math.max(...xs)` of a non-empty list. */
  function MaxOf(xs: seq<real>): (m: real)
    requires |xs| > 0
    ensures m in xs
    ensures forall i :: 0 <= i < |xs| ==> xs[i] <= m
  {
    if |xs| == 1 then xs[0]
    else var rest := MaxOf(xs[1..]); if xs[0] >= rest then xs[0] else rest
  }

  function Xs(ps: seq<Vec>): (r: seq<real>)
    ensures |r| == |ps| && forall i :: 0 <= i < |ps| ==> r[i] == ps[i].x
  {
    seq(|ps|, i requires 0 <= i < |ps| => ps[i].x)
  }

  function Ys(ps: seq<Vec>): (r: seq<real>)
    ensures |r| == |ps| && forall i :: 0 <= i < |ps| ==> r[i] == ps[i].y
  {
    seq(|ps|, i requires 0 <= i < |ps| => ps[i].y)
  }

  /** `minX, maxX, minY, maxY`. */
  datatype Box = Box(minX: real, maxX: real, minY: real, maxY: real)

  /** The bounding box of the points; no box for no points (where the source's
      `Math.min()` of nothing would be Infinity). */
  function Bounds(ps: seq<Vec>): (r: Option<Box>)
    ensures r.Some? <==> |ps| > 0
    ensures r.Some? ==> forall i :: 0 <= i < |ps| ==>
              r.value.minX <= ps[i].x <= r.value.maxX && r.value.minY <= ps[i].y <= r.value.maxY
    ensures r.Some? ==> exists i, j :: 0 <= i < |ps| && 0 <= j < |ps| && ps[i].x == r.value.minX && ps[j].x == r.value.maxX
    ensures r.Some? ==> exists i, j :: 0 <= i < |ps| && 0 <= j < |ps| && ps[i].y == r.value.minY && ps[j].y == r.value.maxY
  {
    if |ps| == 0 then None
    else
      var xs, ys := Xs(ps), Ys(ps);
      var b := Box(MinOf(xs), MaxOf(xs), MinOf(ys), MaxOf(ys));
      assert b.minX in xs && b.maxX in xs && b.minY in ys && b.maxY in ys;
      Some(b)
  }

  /** `offsetX, offsetY`: the centre of the box, scaled. */
  function Offset(b: Box): Vec
  {
    Vec((b.minX + b.maxX) / 2.0 * Scale, (b.minY + b.maxY) / 2.0 * Scale)
  }

  /** The offset of the district map, the one both maps are drawn with. */
  function MapOffset(coarse: seq<Feature>): (r: Option<Vec>)
    ensures r.Some? <==> |Coordinates(coarse)| > 0
  {
    match Bounds(Coordinates(coarse))
    case None => None
    case Some(b) => Some(Offset(b))
  }

  /** A coordinate in drawing units: `coord * scale - offset`. */
  function Project(p: Vec, offset: Vec): Vec
  {
    Vec(p.x * Scale - offset.x, p.y * Scale - offset.y)
  }

  /** The coordinate a drawing point came from. */
  function Unproject(q: Vec, offset: Vec): Vec
  {
    Vec((q.x + offset.x) / Scale, (q.y + offset.y) / Scale)
  }

  /** Projection loses nothing: it is undone by `Unproject`, both ways round. */
  lemma ProjectInverse(p: Vec, q: Vec, offset: Vec)
    ensures Unproject(Project(p, offset), offset) == p
    ensures Project(Unproject(q, offset), offset) == q
  {
  }

  /** The box is centred at the origin of the drawing: its corners project to
      opposite points. */
  lemma BoxCentred(b: Box)
    ensures Project(Vec(b.minX, b.minY), Offset(b)).x == -Project(Vec(b.maxX, b.maxY), Offset(b)).x
    ensures Project(Vec(b.minX, b.minY), Offset(b)).y == -Project(Vec(b.maxX, b.maxY), Offset(b)).y
  {
  }

  /** Every point of the box's points lands in the symmetric rectangle of half-widths
      `(maxX - minX) * scale / 2` and `(maxY - minY) * scale / 2`. */
  lemma ProjectedInside(ps: seq<Vec>, i: nat)
    requires i < |ps|
    ensures var b := Bounds(ps).value; var q := Project(ps[i], Offset(b));
      && -(b.maxX - b.minX) * Scale / 2.0 <= q.x <= (b.maxX - b.minX) * Scale / 2.0
      && -(b.maxY - b.minY) * Scale / 2.0 <= q.y <= (b.maxY - b.minY) * Scale / 2.0
  {
    var b := Bounds(ps).value;
    assert b.minX <= ps[i].x <= b.maxX && b.minY <= ps[i].y <= b.maxY;
    ScaledBetween(b.minX, ps[i].x, b.maxX);
    ScaledBetween(b.minY, ps[i].y, b.maxY);
  }

  lemma ScaledBetween(lo: real, v: real, hi: real)
    requires lo <= v <= hi
    ensures -(hi - lo) * Scale / 2.0 <= v * Scale - (lo + hi) / 2.0 * Scale <= (hi - lo) * Scale / 2.0
  {
  }

  /** The coordinate sums of a ring, the `reduce` that starts from `[0, 0]`. */
  function Sum(ps: seq<Vec>): Vec
  {
    if |ps| == 0 then Vec(0.0, 0.0)
    else var rest := Sum(ps[1..]); Vec(ps[0].x + rest.x, ps[0].y + rest.y)
  }

  /** The ring's length as a real number, counted point by point. */
  function Count(ps: seq<Vec>): (n: real)
    ensures n >= 0.0
    ensures |ps| > 0 ==> n >= 1.0
  {
    if |ps| == 0 then 0.0 else 1.0 + Count(ps[1..])
  }

  lemma {:induction false} CountIsLength(ps: seq<Vec>)
    ensures Count(ps) == |ps| as real
  {
    if |ps| > 0 {
      CountIsLength(ps[1..]);
    }
  }

  lemma CountSameLength(a: seq<Vec>, b: seq<Vec>)
    requires |a| == |b|
    ensures Count(a) == Count(b)
  {
    CountIsLength(a);
    CountIsLength(b);
  }

  /** `centerLatLng`: the mean of the ring's points. An empty ring divides 0 by 0,
      which gives no centroid. */
  function Centroid(ring: seq<Vec>): (r: Option<Vec>)
    ensures r.Some? <==> |ring| > 0
  {
    if |ring| == 0 then None
    else
      Some(Vec(Sum(ring).x / Count(ring), Sum(ring).y / Count(ring)))
  }

  /** `centerXText, centerYText`: the centroid in drawing units, 10 units lower. */
  function Anchor(ring: seq<Vec>, offset: Vec): (r: Option<Vec>)
    ensures r.Some? <==> |ring| > 0
  {
    match Centroid(ring)
    case None => None
    case Some(c) => Some(Vec(c.x * Scale - offset.x, c.y * Scale - 10.0 - offset.y))
  }

  /** The projected ring, point by point. */
  function ProjectAll(ps: seq<Vec>, offset: Vec): (r: seq<Vec>)
    ensures |r| == |ps| && forall i :: 0 <= i < |ps| ==> r[i] == Project(ps[i], offset)
  {
    seq(|ps|, i requires 0 <= i < |ps| => Project(ps[i], offset))
  }

  /** Summing and projecting commute: the sum of the projected points is the
      projection of the sum, with the offset counted once per point. */
  lemma SumProjected(ps: seq<Vec>, offset: Vec)
    ensures Sum(ProjectAll(ps, offset)).x == Sum(ps).x * Scale - Count(ps) * offset.x
    ensures Sum(ProjectAll(ps, offset)).y == Sum(ps).y * Scale - Count(ps) * offset.y
  {
    SumProjectedX(ps, offset);
    SumProjectedY(ps, offset);
  }

  lemma {:induction false} SumProjectedX(ps: seq<Vec>, offset: Vec)
    ensures Sum(ProjectAll(ps, offset)).x == Sum(ps).x * Scale - Count(ps) * offset.x
  {
    if |ps| > 0 {
      var q, rest := ProjectAll(ps, offset), ps[1..];
      var u := ProjectAll(rest, offset);
      assert q[0].x == ps[0].x * Scale - offset.x && q[1..] == u;
      SumProjectedX(rest, offset);
      SplitProjected(Sum(q).x, Sum(ps).x, Count(ps), ps[0].x, Sum(rest).x, Sum(u).x, Count(rest), offset.x);
    }
  }

  lemma {:induction false} SumProjectedY(ps: seq<Vec>, offset: Vec)
    ensures Sum(ProjectAll(ps, offset)).y == Sum(ps).y * Scale - Count(ps) * offset.y
  {
    if |ps| > 0 {
      var q, rest := ProjectAll(ps, offset), ps[1..];
      var u := ProjectAll(rest, offset);
      assert q[0].y == ps[0].y * Scale - offset.y && q[1..] == u;
      SumProjectedY(rest, offset);
      SplitProjected(Sum(q).y, Sum(ps).y, Count(ps), ps[0].y, Sum(rest).y, Sum(u).y, Count(rest), offset.y);
    }
  }

  /** One step of the sum: the projected point plus the projected rest. */
  lemma SplitProjected(drawn: real, all: real, n: real, v: real, s: real, q: real, c: real, o: real)
    requires drawn == (v * Scale - o) + q && all == v + s && n == 1.0 + c && q == s * Scale - c * o
    ensures drawn == all * Scale - n * o
  {
  }

  lemma AnchorIsDrawnCentroid(ring: seq<Vec>, offset: Vec)
    requires |ring| > 0
    ensures Anchor(ring, offset).value.x == Centroid(ProjectAll(ring, offset)).value.x
    ensures Anchor(ring, offset).value.y == Centroid(ProjectAll(ring, offset)).value.y - 10.0
  {
    AnchorX(ring, offset);
    AnchorY(ring, offset);
  }

  lemma AnchorX(ring: seq<Vec>, offset: Vec)
    requires |ring| > 0
    ensures Anchor(ring, offset).value.x == Centroid(ProjectAll(ring, offset)).value.x
  {
    var p := ProjectAll(ring, offset);
    SumProjected(ring, offset);
    AnchorFormula(ring, offset);
    CentroidMean(ring);
    CentroidMean(p);
    CountSameLength(ring, p);
    MeanOfShifted(Sum(ring).x, Sum(p).x, Count(ring), offset.x, Centroid(ring).value.x, Centroid(p).value.x);
  }

  lemma AnchorY(ring: seq<Vec>, offset: Vec)
    requires |ring| > 0
    ensures Anchor(ring, offset).value.y == Centroid(ProjectAll(ring, offset)).value.y - 10.0
  {
    var p := ProjectAll(ring, offset);
    SumProjected(ring, offset);
    AnchorFormula(ring, offset);
    CentroidMean(ring);
    CentroidMean(p);
    CountSameLength(ring, p);
    MeanOfShifted(Sum(ring).y, Sum(p).y, Count(ring), offset.y, Centroid(ring).value.y, Centroid(p).value.y);
  }

  lemma AnchorFormula(ring: seq<Vec>, offset: Vec)
    requires |ring| > 0
    ensures var c := Centroid(ring).value;
      Anchor(ring, offset) == Some(Vec(c.x * Scale - offset.x, c.y * Scale - 10.0 - offset.y))
  {
  }

  lemma CentroidMean(ring: seq<Vec>)
    requires |ring| > 0
    ensures Centroid(ring).value == Vec(Sum(ring).x / Count(ring), Sum(ring).y / Count(ring))
  {
  }

  /** Every point of the ring moved by `d`. */
  function Translate(ps: seq<Vec>, d: Vec): (r: seq<Vec>)
    ensures |r| == |ps| && forall i :: 0 <= i < |ps| ==> r[i] == Vec(ps[i].x + d.x, ps[i].y + d.y)
  {
    seq(|ps|, i requires 0 <= i < |ps| => Vec(ps[i].x + d.x, ps[i].y + d.y))
  }

  /** Moving every point by `d` adds `d` once per point to the sums. */
  lemma SumTranslated(ps: seq<Vec>, d: Vec)
    ensures Sum(Translate(ps, d)).x == Sum(ps).x + Count(ps) * d.x
    ensures Sum(Translate(ps, d)).y == Sum(ps).y + Count(ps) * d.y
  {
    SumTranslatedX(ps, d);
    SumTranslatedY(ps, d);
  }

  lemma {:induction false} SumTranslatedX(ps: seq<Vec>, d: Vec)
    ensures Sum(Translate(ps, d)).x == Sum(ps).x + Count(ps) * d.x
  {
    if |ps| > 0 {
      var q, rest := Translate(ps, d), ps[1..];
      var u := Translate(rest, d);
      assert q[0].x == ps[0].x + d.x && q[1..] == u;
      SumTranslatedX(rest, d);
      SplitTranslated(Sum(q).x, Sum(ps).x, Count(ps), ps[0].x, Sum(rest).x, Sum(u).x, Count(rest), d.x);
    }
  }

  lemma {:induction false} SumTranslatedY(ps: seq<Vec>, d: Vec)
    ensures Sum(Translate(ps, d)).y == Sum(ps).y + Count(ps) * d.y
  {
    if |ps| > 0 {
      var q, rest := Translate(ps, d), ps[1..];
      var u := Translate(rest, d);
      assert q[0].y == ps[0].y + d.y && q[1..] == u;
      SumTranslatedY(rest, d);
      SplitTranslated(Sum(q).y, Sum(ps).y, Count(ps), ps[0].y, Sum(rest).y, Sum(u).y, Count(rest), d.y);
    }
  }

  /** One step of the sum: the moved point plus the moved rest. */
  lemma SplitTranslated(moved: real, all: real, n: real, v: real, s: real, q: real, c: real, o: real)
    requires moved == (v + o) + q && all == v + s && n == 1.0 + c && q == s + c * o
    ensures moved == all + n * o
  {
  }

  /** The centroid does not depend on where the ring sits: moving every point by
      `d` moves the centroid by `d`. */
  lemma CentroidTranslated(ring: seq<Vec>, d: Vec)
    requires |ring| > 0
    ensures Centroid(Translate(ring, d)).value == Vec(Centroid(ring).value.x + d.x, Centroid(ring).value.y + d.y)
  {
    var t := Translate(ring, d);
    SumTranslated(ring, d);
    CentroidMean(ring);
    CentroidMean(t);
    CountSameLength(ring, t);
    MeanOfTranslated(Sum(ring).x, Sum(t).x, Count(ring), d.x);
    MeanOfTranslated(Sum(ring).y, Sum(t).y, Count(ring), d.y);
  }

  lemma MeanOfTranslated(s: real, t: real, n: real, o: real)
    requires n > 0.0 && t == s + n * o
    ensures t / n == s / n + o
  {
    assert (s / n + o) * n == t;
  }

  /** A ring of one point has that point as its centroid, and its label sits on
      the projected point, 10 units lower. */
  lemma CentroidOfPoint(p: Vec, offset: Vec)
    ensures Centroid([p]) == Some(p)
    ensures Anchor([p], offset) == Some(Vec(Project(p, offset).x, Project(p, offset).y - 10.0))
  {
    assert [p][1..] == [];
    CentroidMean([p]);
    AnchorFormula([p], offset);
  }

  lemma MeanOfShifted(s: real, t: real, n: real, o: real, c: real, d: real)
    requires n > 0.0 && t == s * Scale - n * o && c == s / n && d == t / n
    ensures c * Scale - o == d
  {
    assert (s / n) * Scale - o == t / n;
  }

  /** The sum of a ring's x coordinates lies between its point count times the
      smallest and the largest of them. */
  lemma {:induction false} SumBetweenX(ps: seq<Vec>, lo: real, hi: real)
    requires forall i :: 0 <= i < |ps| ==> lo <= ps[i].x <= hi
    ensures Count(ps) * lo <= Sum(ps).x <= Count(ps) * hi
  {
    if |ps| > 0 {
      var rest := ps[1..];
      assert forall i :: 0 <= i < |rest| ==> rest[i] == ps[i + 1];
      SumBetweenX(rest, lo, hi);
      AddBetween(Count(rest), lo, ps[0].x, hi, Sum(rest).x);
    }
  }

  /** The same for the y coordinates. */
  lemma {:induction false} SumBetweenY(ps: seq<Vec>, lo: real, hi: real)
    requires forall i :: 0 <= i < |ps| ==> lo <= ps[i].y <= hi
    ensures Count(ps) * lo <= Sum(ps).y <= Count(ps) * hi
  {
    if |ps| > 0 {
      var rest := ps[1..];
      assert forall i :: 0 <= i < |rest| ==> rest[i] == ps[i + 1];
      SumBetweenY(rest, lo, hi);
      AddBetween(Count(rest), lo, ps[0].y, hi, Sum(rest).y);
    }
  }

  lemma AddBetween(k: real, lo: real, v: real, hi: real, s: real)
    requires lo <= v <= hi && k * lo <= s <= k * hi
    ensures (k + 1.0) * lo <= v + s <= (k + 1.0) * hi
  {
  }

  /** The centroid of a ring lies in any box that holds the ring, the ring's own
      bounding box among them. */
  lemma CentroidInBox(ring: seq<Vec>, b: Box)
    requires |ring| > 0
    requires forall i :: 0 <= i < |ring| ==> b.minX <= ring[i].x <= b.maxX && b.minY <= ring[i].y <= b.maxY
    ensures var c := Centroid(ring).value; b.minX <= c.x <= b.maxX && b.minY <= c.y <= b.maxY
  {
    CentroidBetweenX(ring, b.minX, b.maxX);
    CentroidBetweenY(ring, b.minY, b.maxY);
  }

  lemma CentroidBetweenX(ring: seq<Vec>, lo: real, hi: real)
    requires |ring| > 0
    requires forall i :: 0 <= i < |ring| ==> lo <= ring[i].x <= hi
    ensures lo <= Centroid(ring).value.x <= hi
  {
    SumBetweenX(ring, lo, hi);
    DivideBetween(Count(ring), lo, Sum(ring).x, hi);
  }

  lemma CentroidBetweenY(ring: seq<Vec>, lo: real, hi: real)
    requires |ring| > 0
    requires forall i :: 0 <= i < |ring| ==> lo <= ring[i].y <= hi
    ensures lo <= Centroid(ring).value.y <= hi
  {
    SumBetweenY(ring, lo, hi);
    DivideBetween(Count(ring), lo, Sum(ring).y, hi);
  }

  lemma DivideBetween(n: real, lo: real, s: real, hi: real)
    requires n > 0.0 && n * lo <= s <= n * hi
    ensures lo <= s / n <= hi
  {
    assert s / n * n == s;
  }

  /** A square of side 2 with a corner at the origin. */
  const Square: seq<Vec> := [Vec(0.0, 0.0), Vec(2.0, 0.0), Vec(2.0, 2.0), Vec(0.0, 2.0)]

  lemma SquareCentroid()
    ensures Centroid(Square) == Some(Vec(1.0, 1.0))
  {
    assert Sum(Square) == Vec(4.0, 4.0);
    CountIsLength(Square);
    CentroidMean(Square);
  }

  lemma SquareBounds()
    ensures Bounds(Square) == Some(Box(0.0, 2.0, 0.0, 2.0))
  {
    var b := Box(0.0, 2.0, 0.0, 2.0);
    assert Square[0].x == b.minX && Square[1].x == b.maxX && Square[0].y == b.minY && Square[2].y == b.maxY;
    BoundsOfBox(Square, b);
  }

  /** A box that holds every point and whose four sides each touch one is the
      bounding box. */
  lemma BoundsOfBox(ps: seq<Vec>, b: Box)
    requires forall i :: 0 <= i < |ps| ==> b.minX <= ps[i].x <= b.maxX && b.minY <= ps[i].y <= b.maxY
    requires exists i :: 0 <= i < |ps| && ps[i].x == b.minX
    requires exists i :: 0 <= i < |ps| && ps[i].x == b.maxX
    requires exists i :: 0 <= i < |ps| && ps[i].y == b.minY
    requires exists i :: 0 <= i < |ps| && ps[i].y == b.maxY
    ensures Bounds(ps) == Some(b)
  {
    var xs, ys := Xs(ps), Ys(ps);
    var i1 :| 0 <= i1 < |ps| && ps[i1].x == b.minX;
    var i2 :| 0 <= i2 < |ps| && ps[i2].x == b.maxX;
    var i3 :| 0 <= i3 < |ps| && ps[i3].y == b.minY;
    var i4 :| 0 <= i4 < |ps| && ps[i4].y == b.maxY;
    assert xs[i1] == b.minX && xs[i2] == b.maxX && ys[i3] == b.minY && ys[i4] == b.maxY;
    MinOfExact(xs, b.minX);
    MaxOfExact(xs, b.maxX);
    MinOfExact(ys, b.minY);
    MaxOfExact(ys, b.maxY);
    assert Bounds(ps) == Some(Box(MinOf(xs), MaxOf(xs), MinOf(ys), MaxOf(ys)));
  }

  /** A value of the list below all of them is its minimum. */
  lemma MinOfExact(xs: seq<real>, v: real)
    requires v in xs && forall i :: 0 <= i < |xs| ==> v <= xs[i]
    ensures MinOf(xs) == v
  {
  }

  /** A value of the list above all of them is its maximum. */
  lemma MaxOfExact(xs: seq<real>, v: real)
    requires v in xs && forall i :: 0 <= i < |xs| ==> xs[i] <= v
    ensures MaxOf(xs) == v
  {
  }

  /** The square, drawn on its own, is centred on itself (its box, from 0 to 2 both
      ways, gives the offset `(scale, scale)`): its label anchor is the origin of
      the drawing, 10 units down. */
  lemma SquareAnchor()
    ensures Offset(Box(0.0, 2.0, 0.0, 2.0)) == Vec(Scale, Scale)
    ensures Anchor(Square, Vec(Scale, Scale)) == Some(Vec(0.0, -10.0))
  {
    SquareCentroid();
    AnchorFormula(Square, Vec(Scale, Scale));
  }
}
