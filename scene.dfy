/** What src/Home.js draws for a zoom level: which of the two maps is active, the
    caption of each polygon and its font size, and which features are drawn at all. */
module Scene {
  import opened Rows
  import opened Geometry

  /** The caption font size at zoom levels below 2. */
  const FontSize: real := 15.0

  /** `activeGeoData`: from zoom 2 on, the neighbourhood map replaces the district map. */
  function ActiveFeatures(zoom: real, coarse: seq<Feature>, fine: seq<Feature>): seq<Feature>
  {
    if zoom >= 2.0 then fine else coarse
  }

  /** The pieces of `s.split(' ')`, assembled from the back. */
  function Split(s: string): (r: seq<string>)
    ensures |r| >= 1
    ensures forall k :: 0 <= k < |r| ==> ' ' !in r[k]
    ensures Join(r) == s
    decreases |s|
  {
    if |s| == 0 then [""]
    else
      var init := Split(s[..|s| - 1]);
      var c := s[|s| - 1];
      if c == ' ' then
        JoinSnoc(init, "");
        assert s == s[..|s| - 1] + [c];
        init + [""]
      else
        var k := |init| - 1;
        JoinExtend(init, c);
        assert s == s[..|s| - 1] + [c];
        init[..k] + [init[k] + [c]]
  }

  /** The pieces glued back together with single spaces. */
  function Join(pieces: seq<string>): string
    requires |pieces| >= 1
  {
    if |pieces| == 1 then pieces[0]
    else Join(pieces[..|pieces| - 1]) + " " + pieces[|pieces| - 1]
  }

  lemma JoinSnoc(pieces: seq<string>, last: string)
    requires |pieces| >= 1
    ensures Join(pieces + [last]) == Join(pieces) + " " + last
  {
    assert (pieces + [last])[..|pieces|] == pieces;
  }

  lemma JoinExtend(pieces: seq<string>, c: char)
    requires |pieces| >= 1
    ensures var k := |pieces| - 1; Join(pieces[..k] + [pieces[k] + [c]]) == Join(pieces) + [c]
  {
    var k := |pieces| - 1;
    if k > 0 {
      var q := pieces[..k] + [pieces[k] + [c]];
      assert q[..k] == pieces[..k];
    }
  }

  /** `s.split(' ').slice(-1)[0]`: the text after the last space, all of `s` when it
      has none. */
  function LastToken(s: string): (r: string)
    ensures ' ' !in r
    ensures |r| <= |s| && s[|s| - |r|..] == r
    ensures |r| < |s| ==> s[|s| - |r| - 1] == ' '
    decreases |s|
  {
    if |s| == 0 then ""
    else if s[|s| - 1] == ' ' then ""
    else
      var init := s[..|s| - 1];
      var t := LastToken(init);
      assert s[|s| - |t| - 1..] == init[|init| - |t|..] + [s[|s| - 1]];
      t + [s[|s| - 1]]
  }

  /** The last token is the last piece of the split. */
  lemma {:induction false} LastTokenIsLastPiece(s: string)
    ensures var pieces := Split(s); LastToken(s) == pieces[|pieces| - 1]
    decreases |s|
  {
    if |s| > 0 && s[|s| - 1] != ' ' {
      LastTokenIsLastPiece(s[..|s| - 1]);
    }
  }

  /** The neighbourhood name is the last word of the full administrative name. */
  lemma NeighbourhoodName()
    ensures LastToken("서울특별시 종로구 사직동") == "사직동"
  {
  }

  /** The caption of a feature: the neighbourhood name from zoom 2 on, the district
      name below. */
  function Label(zoom: real, f: Feature): string
  {
    if zoom >= 2.0 then LastToken(f.admNm) else f.sigKorNm
  }

  /** From zoom 2 on the caption is a single word, the end of the neighbourhood
      name; below it is the district name. */
  lemma LabelChoice(zoom: real, f: Feature)
    ensures zoom >= 2.0 ==> ' ' !in Label(zoom, f) && f.admNm[|f.admNm| - |Label(zoom, f)|..] == Label(zoom, f)
    ensures zoom < 2.0 ==> Label(zoom, f) == f.sigKorNm
  {
  }

  /** The caption font size: `fontSize * 0.4` from zoom 2 on. */
  function CaptionSize(zoom: real): (r: real)
    ensures zoom >= 2.0 ==> r == 6.0
    ensures zoom < 2.0 ==> r == FontSize
  {
    if zoom >= 2.0 then FontSize * 0.4 else FontSize
  }

  /** A caption: where it is anchored, its text and its font size. */
  datatype Caption = Caption(anchor: Option<Vec>, text: string, size: real)

  /** A drawn polygon: its points in drawing units, whether it is highlighted, and
      its caption if the zoom level shows one. */
  datatype Drawn = Drawn(points: seq<Vec>, highlighted: bool, caption: Option<Caption>)

  /** What one feature of the active map draws. A MultiPolygon draws nothing. */
  function DrawFeature(zoom: real, hovered: Option<nat>, index: nat, f: Feature, offset: Vec): (r: Option<Drawn>)
    ensures r.Some? <==> f.shape.Polygon?
    ensures r.Some? ==> r.value.points == ProjectAll(f.shape.area.outer, offset)
    ensures r.Some? ==> (r.value.highlighted <==> hovered == Some(index))
    ensures r.Some? ==> (r.value.caption.Some? <==> zoom >= 1.0)
    ensures r.Some? && r.value.caption.Some? ==>
      r.value.caption.value == Caption(Anchor(f.shape.area.outer, offset), Label(zoom, f), CaptionSize(zoom))
  {
    match f.shape
    case MultiPolygon(_) => None
    case Polygon(area) =>
      var caption := if zoom >= 1.0
        then Some(Caption(Anchor(area.outer, offset), Label(zoom, f), CaptionSize(zoom)))
        else None;
      Some(Drawn(ProjectAll(area.outer, offset), hovered == Some(index), caption))
  }

  /** The drawing of the active map at a zoom level, every polygon shifted by the
      offset of the district map whichever map is active. */
  function Render(zoom: real, hovered: Option<nat>, coarse: seq<Feature>, fine: seq<Feature>): (r: seq<Option<Drawn>>)
    requires |Coordinates(coarse)| > 0
    ensures var active := ActiveFeatures(zoom, coarse, fine);
      |r| == |active| && forall i :: 0 <= i < |active| ==> r[i] == DrawFeature(zoom, hovered, i, active[i], MapOffset(coarse).value)
  {
    var active := ActiveFeatures(zoom, coarse, fine);
    var offset := MapOffset(coarse).value;
    seq(|active|, i requires 0 <= i < |active| => DrawFeature(zoom, hovered, i, active[i], offset))
  }

  /** At most one polygon is highlighted, the hovered one, and none when nothing is
      hovered. */
  lemma OneHighlighted(zoom: real, hovered: Option<nat>, coarse: seq<Feature>, fine: seq<Feature>, i: nat, j: nat)
    requires |Coordinates(coarse)| > 0
    requires var r := Render(zoom, hovered, coarse, fine);
      i < |r| && j < |r| && r[i].Some? && r[j].Some? && r[i].value.highlighted && r[j].value.highlighted
    ensures i == j && hovered == Some(i)
  {
  }

  /** Captions appear exactly from zoom 1 on; the small font and the neighbourhood
      names come together with the neighbourhood map, from zoom 2 on. */
  lemma LevelOfDetail(zoom: real, hovered: Option<nat>, coarse: seq<Feature>, fine: seq<Feature>, i: nat)
    requires |Coordinates(coarse)| > 0
    requires var r := Render(zoom, hovered, coarse, fine); i < |r| && r[i].Some?
    ensures var r := Render(zoom, hovered, coarse, fine);
      && (r[i].value.caption.Some? <==> zoom >= 1.0)
      && (zoom >= 2.0 ==>
            (&& ActiveFeatures(zoom, coarse, fine) == fine
             && r[i].value.caption.value.size == 6.0
             && r[i].value.caption.value.text == LastToken(fine[i].admNm)))
      && (1.0 <= zoom < 2.0 ==>
            (&& ActiveFeatures(zoom, coarse, fine) == coarse
             && r[i].value.caption.value.size == FontSize
             && r[i].value.caption.value.text == coarse[i].sigKorNm))
  {
  }

  /** A feature's polygon is drawn exactly when its geometry is a Polygon; a
      MultiPolygon still widens the box the offset comes from. */
  lemma OnlyPolygonsDrawn(zoom: real, hovered: Option<nat>, coarse: seq<Feature>, fine: seq<Feature>, i: nat)
    requires |Coordinates(coarse)| > 0
    requires i < |ActiveFeatures(zoom, coarse, fine)|
    ensures var r := Render(zoom, hovered, coarse, fine);
      r[i].Some? <==> ActiveFeatures(zoom, coarse, fine)[i].shape.Polygon?
    ensures zoom < 2.0 && coarse[i].shape.MultiPolygon? ==>
      forall p :: p in OuterPoints(coarse[i].shape) ==> p in Coordinates(coarse)
  {
  }
}
