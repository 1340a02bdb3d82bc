/**
 * The mouse callback of the paint tool: a small state machine over
 * "is the left button held" and "where is the pointer".
 */
module Pointer {
  import opened Maybe
  import opened Image

  /** OpenCV's mouse event codes the callback reacts to. */
  const MouseMove := 0
  const LeftButtonDown := 1
  const LeftButtonUp := 4

  /** One callback invocation: the event code and the pointer position. */
  datatype MouseEvent = MouseEvent(event: int, x: int, y: int)

  /** The callback's state: `ispressed` and `center_mouse`. */
  datatype Mouse = Mouse(pressed: bool, center: Option<Point>)

  /** While the button is held, the pointer position is known. */
  predicate Consistent(m: Mouse) {
    m.pressed ==> m.center.Some?
  }

  /**
   * `onMouse`: a press records the position and starts a drag, a move while
   * pressed follows the pointer, a release forgets the position; any other
   * event leaves the state alone.
   */
  function OnMouse(m: Mouse, e: MouseEvent): (r: Mouse)
    ensures e.event == LeftButtonDown ==> r == Mouse(true, Some(Point(e.x, e.y)))
    ensures e.event == LeftButtonUp ==> r == Mouse(false, None)
    ensures e.event == MouseMove && m.pressed ==> r == Mouse(true, Some(Point(e.x, e.y)))
    ensures e.event == MouseMove && !m.pressed ==> r == m
    ensures e.event !in {MouseMove, LeftButtonDown, LeftButtonUp} ==> r == m
    ensures Consistent(m) ==> Consistent(r)
  {
    var moved := if e.event == MouseMove && m.pressed then m.(center := Some(Point(e.x, e.y))) else m;
    var down := if e.event == LeftButtonDown then Mouse(true, Some(Point(e.x, e.y))) else moved;
    if e.event == LeftButtonUp then Mouse(false, None) else down
  }

  /** The callbacks delivered, in order, while the loop waits for a key. */
  function Deliver(m: Mouse, events: seq<MouseEvent>): (r: Mouse)
    ensures Consistent(m) ==> Consistent(r)
    decreases |events|
  {
    if |events| == 0 then m else Deliver(OnMouse(m, events[0]), events[1..])
  }

  /** Delivering one event is running the callback once. */
  lemma DeliverOne(m: Mouse, e: MouseEvent)
    ensures Deliver(m, [e]) == OnMouse(m, e)
  {
    assert [e][1..] == [];
  }

  /** Delivering two batches is delivering their concatenation. */
  lemma {:induction false} DeliverAppend(m: Mouse, a: seq<MouseEvent>, b: seq<MouseEvent>)
    ensures Deliver(m, a + b) == Deliver(Deliver(m, a), b)
    decreases |a|
  {
    if |a| != 0 {
      assert (a + b)[0] == a[0] && (a + b)[1..] == a[1..] + b;
      DeliverAppend(OnMouse(m, a[0]), a[1..], b);
    } else {
      assert a + b == b;
    }
  }

  /** Whatever happened before, a release leaves the button up and no pointer position. */
  lemma ReleaseForgets(m: Mouse, events: seq<MouseEvent>, x: int, y: int)
    ensures Deliver(m, events + [MouseEvent(LeftButtonUp, x, y)]) == Mouse(false, None)
  {
    DeliverAppend(m, events, [MouseEvent(LeftButtonUp, x, y)]);
  }

  /** Moves that are not preceded by a press (and contain none) change nothing. */
  lemma {:induction false} HoverIsIgnored(m: Mouse, events: seq<MouseEvent>)
    requires !m.pressed
    requires forall k :: 0 <= k < |events| ==> events[k].event == MouseMove
    ensures Deliver(m, events) == m
    decreases |events|
  {
    if |events| != 0 {
      HoverIsIgnored(m, events[1..]);
    }
  }

  /** During a drag, the recorded position is that of the last move. */
  lemma {:induction false} DragFollowsLastMove(m: Mouse, events: seq<MouseEvent>)
    requires m.pressed && |events| > 0
    requires forall k :: 0 <= k < |events| ==> events[k].event == MouseMove
    ensures Deliver(m, events) == Mouse(true, Some(Point(events[|events| - 1].x, events[|events| - 1].y)))
    decreases |events|
  {
    if |events| > 1 {
      DragFollowsLastMove(OnMouse(m, events[0]), events[1..]);
    }
  }
}
