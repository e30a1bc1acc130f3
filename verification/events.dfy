/**
 Sequences of input events fed to the handlers in order, the invariants the
 handlers keep, and what a run of events does to the zoom and the pan.
 */
module Events {
  import opened Callbacks

  /** One event delivered by the event poll, carrying the handler's arguments
      (the window handle is dropped). */
  datatype Event =
    | Resize(width: int, height: int)
    | Key(key: int, scancode: int, action: int, mods: int)
    | Scroll(dx: real, dy: real)
    | CursorPos(x: real, y: real)
    | MouseButton(button: int, action: int, mods: int)

  function Step(s: State, e: Event): (r: State) {
    match e
    case Resize(w, h) => ResizeCallback(s, w, h)
    case Key(k, sc, a, m) => KeyCallback(s, k, sc, a, m)
    case Scroll(dx, dy) => ScrollCallback(s, dx, dy)
    case CursorPos(x, y) => CursorPosCallback(s, x, y)
    case MouseButton(b, a, m) => MouseButtonCallback(s, b, a, m)
  }

  /** Delivers the events one after the other. */
  function Run(s: State, es: seq<Event>): (r: State)
    decreases |es|
  {
    if |es| == 0 then s else Run(Step(s, es[0]), es[1..])
  }

  /** The two modes of the drag machine. */
  datatype DragMode = Idle | Dragging

  function Mode(s: State): (m: DragMode) {
    if s.isDragging then Dragging else Idle
  }

  /** Outside a drag the anchor holds the sentinel. */
  predicate SentinelWhenIdle(s: State) {
    !s.isDragging ==> s.dragPrev == Sentinel
  }

  /** During a drag the anchor is the last known cursor position. */
  predicate AnchorAtCursor(s: State) {
    s.isDragging ==> s.dragPrev == s.mouse
  }

  predicate Inv(s: State) {
    SentinelWhenIdle(s) && AnchorAtCursor(s)
  }

  lemma InitSatisfiesInv(width: real, height: real, zoom: real, xOff: real, yOff: real)
    ensures Inv(Init(width, height, zoom, xOff, yOff))
    ensures Mode(Init(width, height, zoom, xOff, yOff)) == Idle
  {
  }

  /** Every handler keeps the invariant, so the anchor is always either the
      sentinel (idle) or the cursor (dragging). */
  lemma StepPreservesInv(s: State, e: Event)
    requires Inv(s)
    ensures Inv(Step(s, e))
  {
  }

  lemma {:induction false} RunPreservesInv(s: State, es: seq<Event>)
    requires Inv(s)
    ensures Inv(Run(s, es))
    decreases |es|
  {
    if |es| > 0 {
      StepPreservesInv(s, es[0]);
      RunPreservesInv(Step(s, es[0]), es[1..]);
    }
  }

  lemma InvReachable(width: real, height: real, zoom: real, xOff: real, yOff: real, es: seq<Event>)
    ensures Inv(Run(Init(width, height, zoom, xOff, yOff), es))
  {
    InitSatisfiesInv(width, height, zoom, xOff, yOff);
    RunPreservesInv(Init(width, height, zoom, xOff, yOff), es);
  }

  /** The drag machine: Idle --left press--> Dragging, Dragging --left
      release--> Idle, and every other event keeps the mode. */
  lemma ModeTransitions(s: State, e: Event)
    ensures e.MouseButton? && IsLeftPress(e.button, e.action) ==> Mode(Step(s, e)) == Dragging
    ensures e.MouseButton? && IsLeftRelease(e.button, e.action) ==> Mode(Step(s, e)) == Idle
    ensures !(e.MouseButton? && (IsLeftPress(e.button, e.action) || IsLeftRelease(e.button, e.action))) ==>
      Mode(Step(s, e)) == Mode(s)
  {
  }

  /** Only cursor moves during a drag change the pan. */
  lemma PanChangesOnlyByDragMove(s: State, e: Event)
    requires Step(s, e).xOff != s.xOff || Step(s, e).yOff != s.yOff
    ensures e.CursorPos? && s.isDragging
  {
  }

  /** Only scroll events change the zoom. */
  lemma ZoomChangesOnlyByScroll(s: State, e: Event)
    requires Step(s, e).zoom != s.zoom
    ensures e.Scroll?
  {
  }

  /** A zoom at or above the floor stays there whatever the events. */
  lemma {:induction false} RunKeepsZoomFloor(s: State, es: seq<Event>)
    requires s.zoom >= ZoomFloor
    ensures Run(s, es).zoom >= ZoomFloor
    decreases |es|
  {
    if |es| > 0 {
      RunKeepsZoomFloor(Step(s, es[0]), es[1..]);
    }
  }

  /** Once any scroll event has been delivered the zoom is at or above the
      floor, whatever it was before and however large the scroll. */
  lemma {:induction false} ZoomFloorAfterScroll(s: State, es: seq<Event>, i: nat)
    requires i < |es| && es[i].Scroll?
    ensures Run(s, es).zoom >= ZoomFloor
    decreases i
  {
    if i == 0 {
      RunKeepsZoomFloor(Step(s, es[0]), es[1..]);
    } else {
      ZoomFloorAfterScroll(Step(s, es[0]), es[1..], i - 1);
    }
  }

  /** The horizontal scroll component has no effect. */
  lemma ScrollIgnoresX(s: State, x1: real, x2: real, y: real)
    ensures ScrollCallback(s, x1, y) == ScrollCallback(s, x2, y)
  {
  }

  /** Resizing twice is the same as resizing once to the second size. */
  lemma ResizeLastWins(s: State, w1: int, h1: int, w2: int, h2: int)
    ensures ResizeCallback(ResizeCallback(s, w1, h1), w2, h2) == ResizeCallback(s, w2, h2)
  {
  }

  /** With the invariant, a press during a drag and a release while idle
      leave the state exactly as it was. */
  lemma RepeatedEdgeIsNoOp(s: State, mods: int)
    requires Inv(s)
    ensures s.isDragging ==> MouseButtonCallback(s, MouseButtonLeft, Press, mods) == s
    ensures !s.isDragging ==> MouseButtonCallback(s, MouseButtonLeft, Release, mods) == s
  {
  }

  /** Pressing and releasing the left button without moving, starting from
      an idle state that keeps the invariant, gives back that state. */
  lemma PressReleaseRoundTrip(s: State, m1: int, m2: int)
    requires Inv(s) && !s.isDragging
    ensures MouseButtonCallback(MouseButtonCallback(s, MouseButtonLeft, Press, m1), MouseButtonLeft, Release, m2) == s
  {
  }

  /** With the invariant, a drag move pans by the cursor's own displacement. */
  lemma DragMoveFollowsCursor(s: State, x: real, y: real)
    requires Inv(s) && s.isDragging
    ensures CursorPosCallback(s, x, y).xOff == s.xOff - (x - s.mouse.x)
    ensures CursorPosCallback(s, x, y).yOff == s.yOff + (y - s.mouse.y)
  {
  }

  /** The cursor-move events that visit the given positions in order. */
  function Moves(ps: seq<Point>): (es: seq<Event>)
    ensures |es| == |ps|
    ensures forall i :: 0 <= i < |ps| ==> es[i] == CursorPos(ps[i].x, ps[i].y)
  {
    if |ps| == 0 then [] else [CursorPos(ps[0].x, ps[0].y)] + Moves(ps[1..])
  }

  /** Sum of the per-step displacements of a path that starts at `start`
      and then visits `ps`. */
  function PathDelta(start: Point, ps: seq<Point>): (d: Point)
    decreases |ps|
  {
    if |ps| == 0 then Point(0.0, 0.0)
    else
      var rest := PathDelta(ps[0], ps[1..]);
      Point((ps[0].x - start.x) + rest.x, (ps[0].y - start.y) + rest.y)
  }

  /** The per-step displacements sum to the displacement from the start to
      the last position. */
  lemma {:induction false} PathDeltaTelescopes(start: Point, ps: seq<Point>)
    requires |ps| > 0
    ensures PathDelta(start, ps) == Point(ps[|ps| - 1].x - start.x, ps[|ps| - 1].y - start.y)
    decreases |ps|
  {
    if |ps| > 1 {
      PathDeltaTelescopes(ps[0], ps[1..]);
    }
  }

  /** A run of cursor moves during a drag applies every step's delta to the
      pan (x subtracted, y added), ends anchored at the last position, and
      touches nothing else. */
  lemma {:induction false} DragMovesSumDeltas(s: State, ps: seq<Point>)
    requires s.isDragging && |ps| > 0
    ensures Run(s, Moves(ps)).xOff == s.xOff - PathDelta(s.dragPrev, ps).x
    ensures Run(s, Moves(ps)).yOff == s.yOff + PathDelta(s.dragPrev, ps).y
    ensures Run(s, Moves(ps)).isDragging
    ensures Run(s, Moves(ps)).mouse == ps[|ps| - 1]
    ensures Run(s, Moves(ps)).dragPrev == ps[|ps| - 1]
    ensures Run(s, Moves(ps)).zoom == s.zoom
    ensures Run(s, Moves(ps)).windowWidth == s.windowWidth
    ensures Run(s, Moves(ps)).windowHeight == s.windowHeight
    decreases |ps|
  {
    var s1 := Step(s, Moves(ps)[0]);
    assert Moves(ps)[1..] == Moves(ps[1..]);
    if |ps| > 1 {
      DragMovesSumDeltas(s1, ps[1..]);
    }
  }

  /** Telescoping: the whole run of drag moves changes the pan by the single
      displacement from the anchor to the last position, with the same signs. */
  lemma {:induction false} DragMovesTelescope(s: State, ps: seq<Point>)
    requires s.isDragging && |ps| > 0
    ensures Run(s, Moves(ps)).xOff == s.xOff - (ps[|ps| - 1].x - s.dragPrev.x)
    ensures Run(s, Moves(ps)).yOff == s.yOff + (ps[|ps| - 1].y - s.dragPrev.y)
  {
    DragMovesSumDeltas(s, ps);
    PathDeltaTelescopes(s.dragPrev, ps);
  }

  /** Cursor moves outside a drag only track the cursor. */
  lemma {:induction false} IdleMovesKeepView(s: State, ps: seq<Point>)
    requires !s.isDragging && |ps| > 0
    ensures Run(s, Moves(ps)) == s.(mouse := ps[|ps| - 1])
    decreases |ps|
  {
    var s1 := Step(s, Moves(ps)[0]);
    assert Moves(ps)[1..] == Moves(ps[1..]);
    if |ps| > 1 {
      IdleMovesKeepView(s1, ps[1..]);
    }
  }

  /** A worked session: zoom 1 and pan (0, 0); one scroll step, a burst of
      large scrolls, a drag from (100, 100) to (120, 90), a release and a
      further move. The drag displaces the cursor by (+20, -10); x is
      subtracted and y added, so the pan becomes (-20, -10). */
  lemma ExampleSession(width: real, height: real)
    ensures
      var s0 := Init(width, height, 1.0, 0.0, 0.0);
      var s1 := Step(s0, Scroll(0.0, 1.0));
      var s2 := Run(s1, Scrolls(10, 20.0));
      var s3 := Step(Step(Step(s2, CursorPos(100.0, 100.0)), MouseButton(MouseButtonLeft, Press, 0)), CursorPos(120.0, 90.0));
      var s4 := Step(Step(s3, MouseButton(MouseButtonLeft, Release, 0)), CursorPos(300.0, 7.0));
      && s1.zoom == 0.9
      && s2.zoom == ZoomFloor
      && s3.xOff == -20.0 && s3.yOff == -10.0
      && s4.xOff == -20.0 && s4.yOff == -10.0 && !s4.isDragging
  {
  }

  /** `count` identical vertical scroll events. */
  function Scrolls(count: nat, dy: real): (es: seq<Event>)
    ensures |es| == count
    ensures forall i :: 0 <= i < count ==> es[i] == Scroll(0.0, dy)
  {
    if count == 0 then [] else [Scroll(0.0, dy)] + Scrolls(count - 1, dy)
  }

  /** Scroll events alone leave the pan and the drag state as they were. */
  lemma {:induction false} ScrollsKeepPanAndDrag(s: State, es: seq<Event>)
    requires forall i :: 0 <= i < |es| ==> es[i].Scroll?
    ensures Run(s, es).(zoom := s.zoom) == s
    decreases |es|
  {
    if |es| > 0 {
      ScrollsKeepPanAndDrag(Step(s, es[0]), es[1..]);
    }
  }

  /** Once a scroll has clamped the zoom to the floor, further scrolls with
      a non-negative vertical component keep it exactly at the floor. */
  lemma {:induction false} ClampedZoomStaysAtFloor(s: State, es: seq<Event>)
    requires forall i :: 0 <= i < |es| ==> es[i].Scroll? && es[i].dy >= 0.0
    requires |es| > 0 && s.zoom - ZoomStep * es[0].dy <= ZoomFloor
    ensures Run(s, es).zoom == ZoomFloor
    decreases |es|
  {
    var s1 := Step(s, es[0]);
    if |es| > 1 {
      ClampedZoomStaysAtFloor(s1, es[1..]);
    }
  }
}
