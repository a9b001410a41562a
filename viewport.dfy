/** The interaction state of the map in src/Home.js and the handlers that change
    it: wheel zoom, drag to pan, hover and click. `Step` says what one event does
    to the state; `MapView` holds the state in fields and its handler methods are
    specified by `Step`. */
module Viewport {
  import opened Rows
  import opened Geometry
  import opened Scene

  /** `zoomFactor`, and the smallest zoom the wheel can reach. */
  const ZoomStep: real := 0.1
  const MinZoom: real := 0.1

  /** `zoom`, `isDragging`, `startCoords`, `translate`, `hoveredPolygon` (the index of
      the hovered polygon, kept in the source as its decimal string) and
      `selectedPolygon` (the caption of the clicked polygon). */
  datatype ViewState = ViewState(zoom: real, dragging: bool, start: Vec, translate: Vec,
                                 hovered: Option<nat>, selected: Option<string>)

  /** The state of a freshly mounted map. */
  const Initial: ViewState := ViewState(1.0, false, Vec(0.0, 0.0), Vec(0.0, 0.0), None, None)

  /** What the map reacts to. `Up` is mouse-up and `Out` the pointer leaving the map,
      which share one handler; `Enter`, `Leave` and `Click` come from one polygon of
      the active map. */
  datatype Event =
    | Wheel(deltaY: real)
    | Down(at: Vec)
    | Move(at: Vec)
    | Up
    | Out
    | Enter(index: nat)
    | Leave
    | Click(feature: Feature)

  /** The wheel's new zoom: one step out for a positive `deltaY`, never below the
      floor; one step in otherwise. */
  function Zoomed(zoom: real, deltaY: real): real
  {
    Max(MinZoom, zoom + (if deltaY > 0.0 then -ZoomStep else ZoomStep))
  }

  function Max(a: real, b: real): real { if a >= b then a else b }

  /** The pan after a move to `at`: the move from the anchor is added to `translate`. */
  function Panned(translate: Vec, start: Vec, at: Vec): Vec
  {
    Vec(translate.x + (at.x - start.x), translate.y + (at.y - start.y))
  }

  /** What one event does to the state. */
  function Step(s: ViewState, e: Event): ViewState
  {
    match e
    case Wheel(deltaY) => s.(zoom := Zoomed(s.zoom, deltaY))
    case Down(at) => s.(dragging := true, start := at)
    case Move(at) => if s.dragging then s.(translate := Panned(s.translate, s.start, at), start := at) else s
    case Up => s.(dragging := false)
    case Out => s.(dragging := false)
    case Enter(index) => s.(hovered := Some(index))
    case Leave => s.(hovered := None)
    case Click(f) => s.(selected := Some(Label(s.zoom, f)))
  }

  /** The state after a sequence of events, in order. */
  function Run(s: ViewState, events: seq<Event>): ViewState
    decreases |events|
  {
    if |events| == 0 then s else Run(Step(s, events[0]), events[1..])
  }

  /** A wheel event out sets the zoom to `max(0.1, zoom - 0.1)`; any other wheel
      event, `deltaY == 0` included, adds 0.1 to any zoom not below 0. Nothing else
      changes. */
  lemma WheelZoom(s: ViewState, deltaY: real)
    ensures deltaY > 0.0 ==> Step(s, Wheel(deltaY)).zoom == Max(0.1, s.zoom - 0.1)
    ensures deltaY <= 0.0 && s.zoom >= 0.0 ==> Step(s, Wheel(deltaY)).zoom == s.zoom + 0.1
    ensures Step(s, Wheel(deltaY)).zoom >= MinZoom
    ensures Step(s, Wheel(deltaY)) == s.(zoom := Step(s, Wheel(deltaY)).zoom)
  {
  }

  /** The zoom never falls below 0.1, whatever the events, from the initial state
      or any other state that starts there or above. */
  lemma {:induction false} ZoomFloor(s: ViewState, events: seq<Event>)
    requires s.zoom >= MinZoom
    ensures Run(s, events).zoom >= MinZoom
    decreases |events|
  {
    if |events| > 0 {
      ZoomFloor(Step(s, events[0]), events[1..]);
    }
  }

  /** Zooming in and then out is undone exactly; zooming out and then in is undone
      exactly when the zoom was at least 0.2, and at the floor it ends 0.1 higher. */
  lemma WheelRoundTrip(s: ViewState, outDelta: real, inDelta: real)
    requires s.zoom >= MinZoom && outDelta > 0.0 && inDelta <= 0.0
    ensures Step(Step(s, Wheel(inDelta)), Wheel(outDelta)) == s
    ensures s.zoom >= 0.2 ==> Step(Step(s, Wheel(outDelta)), Wheel(inDelta)) == s
    ensures s.zoom == 0.1 ==> Step(Step(s, Wheel(outDelta)), Wheel(inDelta)).zoom == 0.2
  {
  }

  /** A move while no button is held changes nothing. */
  lemma IdleMove(s: ViewState, at: Vec)
    requires !s.dragging
    ensures Step(s, Move(at)) == s
  {
  }

  /** `Move` events at each of the points, in order. */
  function Moves(points: seq<Vec>): (r: seq<Event>)
    ensures |r| == |points| && forall i :: 0 <= i < |points| ==> r[i] == Move(points[i])
  {
    seq(|points|, i requires 0 <= i < |points| => Move(points[i]))
  }

  /** During a drag the pans telescope: after moves to p1..pk the translation has
      grown by pk minus the anchor, and the anchor is pk. */
  lemma {:induction false} DragTelescopes(s: ViewState, points: seq<Vec>)
    requires s.dragging && |points| > 0
    ensures var last := points[|points| - 1];
      Run(s, Moves(points)) == s.(translate := Panned(s.translate, s.start, last), start := last)
    decreases |points|
  {
    var s1 := Step(s, Move(points[0]));
    assert Moves(points)[1..] == Moves(points[1..]);
    if |points| > 1 {
      DragTelescopes(s1, points[1..]);
    }
  }

  /** A press at p0 and moves to p1..pk move the map by pk - p0 in all. */
  lemma PressAndDrag(s: ViewState, p0: Vec, points: seq<Vec>)
    requires |points| > 0
    ensures var last := points[|points| - 1]; var t := Run(s, [Down(p0)] + Moves(points)).translate;
      t.x == s.translate.x + (last.x - p0.x) && t.y == s.translate.y + (last.y - p0.y)
  {
    var events := [Down(p0)] + Moves(points);
    assert events[1..] == Moves(points);
    DragTelescopes(Step(s, Down(p0)), points);
  }

  /** Mouse-up and leaving the map end the drag and change nothing else. */
  lemma ReleaseEndsDrag(s: ViewState)
    ensures Step(s, Up) == Step(s, Out)
    ensures !Step(s, Up).dragging
    ensures Step(s, Up).(dragging := s.dragging) == s
  {
  }

  /** Every move after a release is idle, however many there are. */
  lemma {:induction false} MovesAfterRelease(s: ViewState, points: seq<Vec>)
    ensures Run(Step(s, Up), Moves(points)) == Step(s, Up)
    decreases |points|
  {
    if |points| > 0 {
      assert Moves(points)[1..] == Moves(points[1..]);
      MovesAfterRelease(s, points[1..]);
    }
  }

  /** Entering a polygon highlights that polygon alone; leaving it highlights none. */
  lemma HoverHighlights(s: ViewState, index: nat, coarse: seq<Feature>, fine: seq<Feature>, i: nat)
    requires |Coordinates(coarse)| > 0
    requires i < |ActiveFeatures(s.zoom, coarse, fine)| && ActiveFeatures(s.zoom, coarse, fine)[i].shape.Polygon?
    ensures var h := Step(s, Enter(index)); var r := Render(h.zoom, h.hovered, coarse, fine);
      i < |r| && r[i].Some? && (r[i].value.highlighted <==> i == index)
    ensures var g := Step(Step(s, Enter(index)), Leave); var r := Render(g.zoom, g.hovered, coarse, fine);
      i < |r| && r[i].Some? && !r[i].value.highlighted
  {
    var h := Step(s, Enter(index));
    HoverStep(s, index);
    DrawnAt(h.zoom, h.hovered, coarse, fine, i);
    var g := Step(h, Leave);
    HoverStep(s, index);
    DrawnAt(g.zoom, g.hovered, coarse, fine, i);
  }

  /** Entering and leaving change the hovered polygon alone. */
  lemma HoverStep(s: ViewState, index: nat)
    ensures Step(s, Enter(index)) == s.(hovered := Some(index))
    ensures Step(Step(s, Enter(index)), Leave) == s.(hovered := None)
  {
  }

  /** The i-th entry of the drawing, when the i-th active feature is a polygon. */
  lemma DrawnAt(zoom: real, hovered: Option<nat>, coarse: seq<Feature>, fine: seq<Feature>, i: nat)
    requires |Coordinates(coarse)| > 0
    requires i < |ActiveFeatures(zoom, coarse, fine)| && ActiveFeatures(zoom, coarse, fine)[i].shape.Polygon?
    ensures var r := Render(zoom, hovered, coarse, fine);
      i < |r| && r[i].Some? && (r[i].value.highlighted <==> hovered == Some(i))
  {
    var f := ActiveFeatures(zoom, coarse, fine)[i];
    assert Render(zoom, hovered, coarse, fine)[i] == DrawFeature(zoom, hovered, i, f, MapOffset(coarse).value);
  }

  /** A click selects the polygon's caption at the current zoom: the district name
      below zoom 2, the neighbourhood name from zoom 2 on. */
  lemma ClickSelectsCaption(s: ViewState, f: Feature)
    ensures s.zoom < 2.0 ==> Step(s, Click(f)).selected == Some(f.sigKorNm)
    ensures s.zoom >= 2.0 ==> Step(s, Click(f)).selected == Some(LastToken(f.admNm))
    ensures Step(s, Click(f)).(selected := s.selected) == s
  {
    assert Step(s, Click(f)) == s.(selected := Some(Label(s.zoom, f)));
  }

  /** The component's state fields, updated in place by its handlers. */
  class MapView {
    var zoom: real
    var isDragging: bool
    var startCoords: Vec
    var translate: Vec
    var hoveredPolygon: Option<nat>
    var selectedPolygon: Option<string>

    /** The fields, read as one state. */
    function State(): ViewState
      reads this
    {
      ViewState(zoom, isDragging, startCoords, translate, hoveredPolygon, selectedPolygon)
    }

    /** Zoom holds at or above its floor. */
    predicate Valid()
      reads this
    {
      zoom >= MinZoom
    }

    /** The `useState` initial values. */
    constructor()
      ensures State() == Initial && Valid()
    {
      zoom := 1.0;
      isDragging := false;
      startCoords := Vec(0.0, 0.0);
      translate := Vec(0.0, 0.0);
      hoveredPolygon := None;
      selectedPolygon := None;
    }

    /** `handleWheel`. */
    method HandleWheel(deltaY: real)
      requires Valid()
      modifies this
      ensures State() == Step(old(State()), Wheel(deltaY)) && Valid()
    {
      var delta := if deltaY > 0.0 then -ZoomStep else ZoomStep;
      zoom := Max(MinZoom, zoom + delta);
    }

    /** `handleMouseDown`: the drag starts, anchored at the pointer. */
    method HandleMouseDown(clientX: real, clientY: real)
      requires Valid()
      modifies this
      ensures State() == Step(old(State()), Down(Vec(clientX, clientY))) && Valid()
    {
      isDragging := true;
      startCoords := Vec(clientX, clientY);
    }

    /** `handleMouseMove`: while dragging, pans by the move from the anchor and
        re-anchors at the pointer. */
    method HandleMouseMove(clientX: real, clientY: real)
      requires Valid()
      modifies this
      ensures State() == Step(old(State()), Move(Vec(clientX, clientY))) && Valid()
    {
      if isDragging {
        var dx := clientX - startCoords.x;
        var dy := clientY - startCoords.y;
        translate := Vec(translate.x + dx, translate.y + dy);
        startCoords := Vec(clientX, clientY);
      }
    }

    /** `handleMouseUp`, the handler of mouse-up and of leaving the map. */
    method HandleMouseUp()
      requires Valid()
      modifies this
      ensures State() == Step(old(State()), Up) && Valid()
    {
      isDragging := false;
    }

    /** A polygon's `onMouseEnter`. */
    method HandleEnter(index: nat)
      requires Valid()
      modifies this
      ensures State() == Step(old(State()), Enter(index)) && Valid()
    {
      hoveredPolygon := Some(index);
    }

    /** A polygon's `onMouseLeave`. */
    method HandleLeave()
      requires Valid()
      modifies this
      ensures State() == Step(old(State()), Leave) && Valid()
    {
      hoveredPolygon := None;
    }

    /** A polygon's `onClick`: selects the caption that polygon shows at this zoom. */
    method HandleClick(f: Feature)
      requires Valid()
      modifies this
      ensures State() == Step(old(State()), Click(f)) && Valid()
    {
      var caption := Label(zoom, f);
      selectedPolygon := Some(caption);
    }
  }
}
