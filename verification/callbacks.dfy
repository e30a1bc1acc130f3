/**
 The input handlers of a small OpenGL program: five callbacks that the windowing library
 invokes while polling events, and the handful of globals they update.

 The C globals (`window_width`, `window_height`, `zoom`, `x_off`, `y_off`,
 `mouse_x`, `mouse_y`, `drag_prev_x`, `drag_prev_y`, `is_dragging`) become the
 fields of one immutable `State`, and each callback becomes a pure function
 from the state before the event to the state after it. The C `float`s are
 modelled as `real`, so every equation below is exact.
 */
module Callbacks {

  /** A position in window coordinates (a cursor position, or the drag anchor). */
  datatype Point = Point(x: real, y: real)

  /** Amount by which one unit of vertical scroll changes the zoom (`ZOOM_AMT`). */
  const ZoomStep: real := 0.1

  /** The lowest zoom the scroll handler lets through. */
  const ZoomFloor: real := 0.1

  /** The drag anchor held while no drag is in progress. */
  const Sentinel: Point := Point(-1.0, -1.0)

  /** Mouse-button and action codes of the windowing library. */
  const MouseButtonLeft: int := 0
  const Release: int := 0
  const Press: int := 1

  /** All the globals the handlers read or write. */
  datatype State = State(
    windowWidth: real,
    windowHeight: real,
    zoom: real,
    xOff: real,
    yOff: real,
    mouse: Point,
    dragPrev: Point,
    isDragging: bool)

  /** The state at program start. The cursor globals have static storage
      duration, hence start at zero; the drag globals start as the sentinel
      and "not dragging". Zoom, pan and window size are defined elsewhere
      and come in as parameters. */
  function Init(width: real, height: real, zoom: real, xOff: real, yOff: real): (s: State)
    ensures !s.isDragging && s.dragPrev == Sentinel
    ensures s.mouse == Point(0.0, 0.0)
    ensures s.zoom == zoom && s.xOff == xOff && s.yOff == yOff
    ensures s.windowWidth == width && s.windowHeight == height
  {
    State(width, height, zoom, xOff, yOff, Point(0.0, 0.0), Sentinel, false)
  }

  function Max(a: real, b: real): (m: real) {
    if a >= b then a else b
  }

  /** Window resize: records the new size exactly (an int converted to the
      float globals), with no clamping; nothing else changes. */
  function ResizeCallback(s: State, width: int, height: int): (r: State)
    ensures r.windowWidth == width as real && r.windowHeight == height as real
    ensures r.(windowWidth := s.windowWidth, windowHeight := s.windowHeight) == s
  {
    s.(windowWidth := width as real, windowHeight := height as real)
  }

  /** Key handler: returns at once, whatever the key. */
  function KeyCallback(s: State, key: int, scancode: int, action: int, mods: int): (r: State)
    ensures r == s
  {
    s
  }

  /** Scroll: the zoom moves down by a tenth of the vertical component `y`,
      and a result at or below the floor is replaced by the floor. The
      horizontal component is ignored. */
  function ScrollCallback(s: State, x: real, y: real): (r: State)
    ensures r.zoom == Max(s.zoom - ZoomStep * y, ZoomFloor)
    ensures r.zoom >= ZoomFloor
    ensures r.zoom == ZoomFloor <==> s.zoom - ZoomStep * y <= ZoomFloor
    ensures r.(zoom := s.zoom) == s
  {
    var z := s.zoom - ZoomStep * y;
    if z <= ZoomFloor then s.(zoom := ZoomFloor) else s.(zoom := z)
  }

  /** Cursor motion: always records the position. While a drag is in
      progress, the pan follows the displacement from the drag anchor with
      x subtracted and y added, and the anchor moves to the new position. */
  function CursorPosCallback(s: State, x: real, y: real): (r: State)
    ensures r.mouse == Point(x, y)
    ensures r.isDragging == s.isDragging
    ensures !s.isDragging ==> r.(mouse := s.mouse) == s
    ensures s.isDragging ==>
      && r.xOff == s.xOff - (x - s.dragPrev.x)
      && r.yOff == s.yOff + (y - s.dragPrev.y)
      && r.dragPrev == r.mouse
      && r.(xOff := s.xOff, yOff := s.yOff, mouse := s.mouse, dragPrev := s.dragPrev) == s
  {
    var s1 := s.(mouse := Point(x, y));
    if s1.isDragging then
      var xDrag := s1.mouse.x - s1.dragPrev.x;
      var yDrag := s1.mouse.y - s1.dragPrev.y;
      s1.(xOff := s1.xOff - xDrag, yOff := s1.yOff + yDrag, dragPrev := s1.mouse)
    else
      s1
  }

  predicate IsLeftPress(button: int, action: int) {
    button == MouseButtonLeft && action == Press
  }

  predicate IsLeftRelease(button: int, action: int) {
    button == MouseButtonLeft && action == Release
  }

  /** Mouse button: a left press starts a drag anchored at the last known
      cursor position; a left release ends it and puts the sentinel back.
      The two tests run one after the other, as in the handler. */
  function MouseButtonCallback(s: State, button: int, action: int, mods: int): (r: State)
    ensures IsLeftPress(button, action) ==>
      r == s.(isDragging := true, dragPrev := s.mouse)
    ensures IsLeftRelease(button, action) ==>
      r == s.(isDragging := false, dragPrev := Sentinel)
    ensures !IsLeftPress(button, action) && !IsLeftRelease(button, action) ==> r == s
    ensures r.zoom == s.zoom && r.xOff == s.xOff && r.yOff == s.yOff && r.mouse == s.mouse
  {
    var s1 := if IsLeftPress(button, action) then s.(isDragging := true, dragPrev := s.mouse) else s;
    if IsLeftRelease(button, action) then s1.(isDragging := false, dragPrev := Sentinel) else s1
  }
}
