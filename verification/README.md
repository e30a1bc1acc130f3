# Input handlers of MandelbrotVis

This project models `src/callbacks.c`, the input handlers of a small
OpenGL program. They update a window size, a zoom, a pan offset
(`x_off`, `y_off`) and a drag state: the last cursor position, the drag
anchor (`drag_prev_x/y`) and a dragging flag.

- `callbacks.dfy`, module `Callbacks`: the globals as one immutable `State`
  record, and each of the five callbacks (resize, key, scroll, cursor
  position, mouse button) as a pure function from the state before the event
  to the state after it.
- `events.dfy`, module `Events`: an `Event` datatype with one constructor per
  callback, `Step` (dispatch) and `Run` (deliver a sequence of events), the
  drag machine's two modes, the state invariant, and the lemmas about runs of
  events (zoom floor, telescoping of drag moves, idle moves).

Abstractions:

- The C `float` globals and the `double` event arguments are `real`. The
  literal `0.1f` is modelled as exactly 0.1, and `(float)` casts are exact.
- The custom one-byte boolean (`0xFF`/`0x00`) is a Dafny `bool`.
- The button and action codes are the windowing library's own values
  (left button 0, release 0, press 1). They are defined in the library's
  header, which is not part of this model.
- The window handle argument of every callback is dropped.
- The zoom, pan and window size are defined outside `src/callbacks.c`, so
  their initial values are parameters of `Init`. The cursor globals are
  globals with static storage duration, hence zero-initialised, so the
  cursor starts at (0, 0). The drag anchor
  starts at the sentinel (-1, -1), and the dragging flag starts false.

The invariant `Inv` is stronger than "idle implies the anchor is the
sentinel". Pressing copies the cursor into the anchor, and every drag move
updates both, so during a drag the anchor always equals the last cursor
position. With `Inv`, a second press during a drag and a release while idle
change nothing.

Two consequences of the code worth stating:

- The key handler returns at once (src/callbacks.c:31-33) and reacts to no
  key, so `KeyCallback` is the identity.
- A drag from (100, 100) to (120, 90) adds 90 - 100 = -10 to `y_off`
  (src/callbacks.c:52), so the pan becomes (-20, -10).
  `Events.ExampleSession` states this.

## Model

| member | source | states |
|---|---|---|
| Callbacks.Init | src/callbacks.c:20-22 | the start state: not dragging, anchor at the sentinel, cursor at (0, 0), zoom/pan/size as given |
| Callbacks.ResizeCallback | src/callbacks.c:24-29 | the window size becomes exactly the event's width and height, unclamped; every other field is unchanged |
| Callbacks.KeyCallback | src/callbacks.c:31-33 | the key handler leaves the whole state unchanged |
| Callbacks.ScrollCallback | src/callbacks.c:35-41 | the zoom becomes max(zoom - 0.1*y, 0.1); it is at least 0.1; it equals the floor exactly when the unclamped value is at or below it; nothing but the zoom changes |
| Callbacks.CursorPosCallback | src/callbacks.c:43-57 | the cursor always becomes the event position; when idle nothing else changes; when dragging x_off falls by x - anchor.x, y_off rises by y - anchor.y, the anchor moves to the new position and dragging stays set |
| Callbacks.MouseButtonCallback | src/callbacks.c:59-71 | a left press sets dragging and copies the cursor into the anchor; a left release clears dragging and resets the anchor to (-1, -1); any other button or action changes nothing; zoom, pan and cursor are never touched |
| Events.InitSatisfiesInv | src/callbacks.c:20-22 | the start state satisfies the invariant and is Idle |
| Events.StepPreservesInv | src/callbacks.c:24-71 | every handler preserves the invariant: idle implies anchor is the sentinel, dragging implies anchor is the cursor |
| Events.RunPreservesInv | src/callbacks.c:24-71 | any sequence of events preserves the invariant |
| Events.InvReachable | src/callbacks.c:20-71 | every state reachable from the start state satisfies the invariant |
| Events.ModeTransitions | src/callbacks.c:59-71 | left press leads to Dragging, left release to Idle, every other event keeps the mode |
| Events.PanChangesOnlyByDragMove | src/callbacks.c:47-56 | if an event changes the pan, it is a cursor move delivered while dragging |
| Events.ZoomChangesOnlyByScroll | src/callbacks.c:35-41 | if an event changes the zoom, it is a scroll |
| Events.RunKeepsZoomFloor | src/callbacks.c:37-40 | a zoom at or above 0.1 stays at or above 0.1 under any sequence of events |
| Events.ZoomFloorAfterScroll | src/callbacks.c:37-40 | after any sequence that contains a scroll, the zoom is at least 0.1, whatever the initial zoom |
| Events.ScrollIgnoresX | src/callbacks.c:35-37 | the horizontal scroll component has no effect on the result |
| Events.ResizeLastWins | src/callbacks.c:27-28 | two resizes in a row equal a single resize to the second size |
| Events.RepeatedEdgeIsNoOp | src/callbacks.c:61-70 | under the invariant, a left press while dragging and a left release while idle leave the state unchanged |
| Events.PressReleaseRoundTrip | src/callbacks.c:61-70 | from an idle state satisfying the invariant, a left press followed by a left release gives back the original state |
| Events.DragMoveFollowsCursor | src/callbacks.c:44-55 | under the invariant, a drag move changes the pan by the cursor's own displacement (x subtracted, y added) |
| Events.PathDeltaTelescopes | src/callbacks.c:48-54 | the per-step displacements of a path sum to the displacement from its start to its last point |
| Events.DragMovesSumDeltas | src/callbacks.c:47-56 | a run of moves while dragging changes the pan by the summed per-step deltas (x subtracted, y added), leaves dragging set, ends with cursor and anchor at the last position, and keeps zoom and size |
| Events.DragMovesTelescope | src/callbacks.c:47-56 | a run of moves while dragging changes the pan by the single displacement from the first anchor to the last position, with the same signs |
| Events.IdleMovesKeepView | src/callbacks.c:43-47 | a run of moves while idle only updates the cursor to the last position |
| Events.ScrollsKeepPanAndDrag | src/callbacks.c:35-41 | a run of scrolls changes nothing but the zoom |
| Events.ClampedZoomStaysAtFloor | src/callbacks.c:37-40 | once a scroll clamps the zoom to the floor, further non-negative scrolls keep it exactly at 0.1 |
| Events.ExampleSession | src/callbacks.c:35-70 | from zoom 1 and pan (0, 0): one scroll gives 0.9, ten scrolls of 20 give 0.1, dragging (100, 100) to (120, 90) gives pan (-20, -10), and after a release a move leaves the pan alone |

## Left out

- The `glViewport` call in the resize handler: a graphics-driver call with no effect on the modelled state.
- IEEE-754 single-precision rounding, NaN and infinity, and the `double` to `float` and `int` to `float` conversions: the model works over `real`. The telescoping identity holds exactly only over reals; with floats, each drag step rounds.
- The exact binary value of `0.1f`: the model uses 0.1 for both the zoom step and the floor.
- `src/main.c`: window and context creation, the swap and poll loop, and teardown. These are library calls and I/O with no logic of their own. Only the key handler is registered there (src/main.c:52), so in the program as written the scroll, cursor, button and resize handlers are never called. The model covers the handlers themselves.
- `include/callbacks.h`: declarations only.
