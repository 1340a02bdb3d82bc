/**
 * One iteration of the paint tool's main loop: the key dispatch, the
 * rectangle and circle gestures, and the freehand stroke, as a pure step
 * over an explicit state. OpenCV's drawing calls are parameters.
 */
module Paint {
  import opened Maybe
  import opened Image
  import opened Numeric
  import opened Pointer

  type Canvas = Grid<Pixel>

  /**
   * `cv2.line`, `cv2.rectangle` and `cv2.circle`, left uninterpreted: each
   * takes a canvas and returns it with one shape drawn in the given colour
   * and thickness.
   */
  datatype Pen = Pen(
    line: (Canvas, Point, Point, Pixel, int) -> Canvas,
    rectangle: (Canvas, Point, Point, Pixel, int) -> Canvas,
    circle: (Canvas, Point, int, Pixel, int) -> Canvas)

  const Blue := Pixel(255, 0, 0)
  const Green := Pixel(0, 255, 0)
  const Red := Pixel(0, 0, 255)

  /** `cv2.waitKey`'s value when no key was pressed. */
  const NoKey := -1

  /** The exceptions a loop iteration can raise. */
  datatype Error =
    | NameError   // a name read before it was ever bound
    | IndexError  // `[-2]` on a one-element list

  /**
   * Everything the loop keeps between iterations. Two pointers exist: the
   * mouse (`mouse`, `centerPrevMouse`, and the `cacheMouse` snapshot with its
   * anchor) and the tracked blob (`centerPrev`, and the `cache` snapshot with
   * its anchor). `lastLogged` is the newest entry of the log of mouse
   * positions, `None` while the log is empty; `lastKey` is the previous
   * iteration's key.
   */
  datatype State = State(
    color: Pixel,
    size: int,
    mousePainting: bool,
    canvas: Canvas,
    height: nat,
    width: nat,
    mouse: Mouse,
    centerPrev: Point,
    centerPrevMouse: Point,
    cache: Option<Canvas>,
    startPoint: Option<Point>,
    cacheMouse: Option<Canvas>,
    startPointMouse: Option<Point>,
    lastLogged: Option<Option<Point>>,
    lastKey: int)

  /**
   * What every reachable state satisfies: a non-negative pen size, a known
   * pointer while the button is held, and a canvas and snapshots of the
   * frame's size.
   */
  predicate Valid(s: State) {
    && 0 <= s.size
    && Consistent(s.mouse)
    && HasShape(s.canvas, s.height, s.width)
    && (s.cache.Some? ==> HasShape(s.cache.value, s.height, s.width))
    && (s.cacheMouse.Some? ==> HasShape(s.cacheMouse.value, s.height, s.width))
  }

  /** OpenCV draws in place: every drawing call returns a canvas of the shape it was given. */
  ghost predicate KeepsShape(pen: Pen) {
    && (forall c, a, b, color, t :: SameShape(pen.line(c, a, b, color, t), c))
    && (forall c, a, b, color, t :: SameShape(pen.rectangle(c, a, b, color, t), c))
    && (forall c, a, radius, color, t :: SameShape(pen.circle(c, a, radius, color, t), c))
  }

  /** The state before the first iteration, for a frame of `height` rows and `width` columns. */
  function Init(height: nat, width: nat): (s: State)
    ensures Valid(s)
    ensures HasShape(s.canvas, height, width)
    ensures forall i, j :: 0 <= i < height && 0 <= j < width ==> s.canvas[i][j] == White
  {
    State(Blue, 6, true, Filled(height, width, White), height, width,
          Mouse(false, Some(Point(200, 200))), Point(200, 200), Point(200, 200),
          None, None, None, None, None, NoKey)
  }

  /*** Key dispatch ***/

  /** The keys the dispatch chain recognises; "w" only writes a file. */
  predicate IsCommandKey(key: int) {
    key in {'b' as int, 'g' as int, 'r' as int, '+' as int, '-' as int, 'm' as int, 'n' as int, 'c' as int}
  }

  /**
   * The key dispatch: colour, pen size (never below 0), pointer mode, and
   * clearing the canvas to white at the frame's size. Nothing else changes.
   */
  function Dispatch(s: State, key: int): (r: State)
    ensures r == s.(color := r.color, size := r.size, mousePainting := r.mousePainting, canvas := r.canvas)
    ensures key == 'b' as int ==> r.color == Blue
    ensures key == 'g' as int ==> r.color == Green
    ensures key == 'r' as int ==> r.color == Red
    ensures key == '+' as int ==> r.size == s.size + 1
    ensures key == '-' as int ==> r.size == if s.size <= 0 then 0 else s.size - 1
    ensures key == 'm' as int ==> r.mousePainting
    ensures key == 'n' as int ==> !r.mousePainting
    ensures key == 'c' as int ==>
      && HasShape(r.canvas, s.height, s.width)
      && forall i, j :: 0 <= i < s.height && 0 <= j < s.width ==> r.canvas[i][j] == White
    ensures !IsCommandKey(key) ==> r == s
    ensures key !in {'b' as int, 'g' as int, 'r' as int} ==> r.color == s.color
    ensures key != '+' as int && key != '-' as int ==> r.size == s.size
    ensures key != 'm' as int && key != 'n' as int ==> r.mousePainting == s.mousePainting
    ensures key != 'c' as int ==> r.canvas == s.canvas
    ensures 0 <= s.size ==> 0 <= r.size
  {
    if key == 'b' as int then s.(color := Blue)
    else if key == 'g' as int then s.(color := Green)
    else if key == 'r' as int then s.(color := Red)
    else if key == '+' as int then s.(size := s.size + 1)
    else if key == '-' as int then
      var smaller := s.size - 1;
      s.(size := if smaller < 0 then 0 else smaller)
    else if key == 'm' as int then s.(mousePainting := true)
    else if key == 'n' as int then s.(mousePainting := false)
    else if key == 'c' as int then s.(canvas := Filled(s.height, s.width, White))
    else s
  }

  /** "-" undoes "+". */
  lemma ShrinkUndoesGrow(s: State)
    ensures Dispatch(Dispatch(s, '+' as int), '-' as int) == s.(size := if s.size < 0 then 0 else s.size)
  {
  }

  /** "+" undoes "-" on a positive size; at size 0, "-" does nothing. */
  lemma GrowUndoesShrink(s: State)
    requires 0 <= s.size
    ensures 0 < s.size ==> Dispatch(Dispatch(s, '-' as int), '+' as int) == s
    ensures s.size == 0 ==> Dispatch(s, '-' as int) == s
  {
  }

  /** The loop ends when the low byte of the key is "q" (`key & 0xFF == ord('q')`). */
  predicate Quits(key: int) {
    key % 256 == 'q' as int
  }

  /** Among the values `waitKey` returns for plain keys, only "q" ends the loop; "no key" never does. */
  lemma QuitOnlyOnQ(key: int)
    requires NoKey <= key < 256
    ensures Quits(key) <==> key == 'q' as int
  {
  }

  /*** Shape gestures ***/

  datatype Shape = Rectangle | Circle

  /** The shape a held key draws: "s" a rectangle, "o" a circle. */
  function ShapeOf(key: int): Option<Shape> {
    if key == 's' as int then Some(Rectangle)
    else if key == 'o' as int then Some(Circle)
    else None
  }

  function KeyOf(shape: Shape): int {
    match shape
    case Rectangle => 's' as int
    case Circle => 'o' as int
  }

  function Square(d: int): nat {
    d * d
  }

  /** The circle radius `int(sqrt(dx**2 + dy**2))`: the distance rounded down. */
  function Radius(a: Point, b: Point): (r: nat)
    ensures r * r <= Square(a.x - b.x) + Square(a.y - b.y) < (r + 1) * (r + 1)
  {
    ISqrt(Square(a.x - b.x) + Square(a.y - b.y))
  }

  /** The radius truncates: a distance of sqrt(8), about 2.83, gives radius 2, not 3. */
  lemma RadiusTruncates()
    ensures Radius(Point(0, 0), Point(2, 2)) == 2
  {
    ISqrtUnique(8, 2);
  }

  /** Draw `shape` on `canvas` from `anchor` to `end`: corners of a rectangle, or centre and rim point of a circle. */
  function Render(pen: Pen, shape: Shape, canvas: Canvas, anchor: Point, end: Point, color: Pixel, size: int): Canvas {
    match shape
    case Rectangle => pen.rectangle(canvas, anchor, end, color, size)
    case Circle => pen.circle(canvas, anchor, Radius(anchor, end), color, size)
  }

  /** Only the canvas and the given gesture's snapshot and anchor may differ. */
  predicate GestureFrame(s: State, r: State) {
    r == s.(canvas := r.canvas, cache := r.cache, startPoint := r.startPoint,
            cacheMouse := r.cacheMouse, startPointMouse := r.startPointMouse)
  }

  /**
   * A held shape key in mouse mode. `previous` is the mouse position logged
   * one iteration earlier. If it was `None`, the gesture starts: the canvas is
   * snapshotted and the pointer becomes the anchor, and nothing is drawn.
   * Otherwise the canvas becomes the snapshot with the shape drawn from the
   * anchor to the pointer (a missing snapshot or anchor is taken from now).
   */
  function MouseGesture(pen: Pen, s: State, shape: Shape, previous: Option<Point>): (r: State)
    requires s.mouse.center.Some?
    ensures GestureFrame(s, r) && r.cache == s.cache && r.startPoint == s.startPoint
    ensures previous.None? ==> r == s.(cacheMouse := Some(s.canvas), startPointMouse := s.mouse.center)
    ensures previous.Some? ==>
      && r.cacheMouse == Some(s.cacheMouse.GetOr(s.canvas))
      && r.startPointMouse == Some(s.startPointMouse.GetOr(s.mouse.center.value))
      && r.canvas == Render(pen, shape, r.cacheMouse.value, r.startPointMouse.value, s.mouse.center.value, s.color, s.size)
  {
    var here := s.mouse.center.value;
    if previous.None? then
      s.(cacheMouse := Some(s.canvas), startPointMouse := Some(here))
    else
      var anchor := s.startPointMouse.GetOr(here);
      var snapshot := s.cacheMouse.GetOr(s.canvas);
      s.(startPointMouse := Some(anchor), cacheMouse := Some(snapshot),
         canvas := Render(pen, shape, snapshot, anchor, here, s.color, s.size))
  }

  /** A preview with a snapshot in hand does not depend on what the canvas shows now. */
  lemma MousePreviewIgnoresCanvas(pen: Pen, s: State, shape: Shape, previous: Option<Point>, other: Canvas)
    requires s.mouse.center.Some? && previous.Some? && s.cacheMouse.Some?
    ensures MouseGesture(pen, s.(canvas := other), shape, previous).canvas == MouseGesture(pen, s, shape, previous).canvas
  {
  }

  /** Repeating a preview with the pointer where it was changes nothing: previews never pile up. */
  lemma MousePreviewIdempotent(pen: Pen, s: State, shape: Shape, p: Point, q: Point)
    requires s.mouse.center.Some?
    ensures var once := MouseGesture(pen, s, shape, Some(p));
      MouseGesture(pen, once, shape, Some(q)) == once
  {
  }

  /** The rounded centroid, the point the mask mode draws to. */
  function RoundPoint(c: RealPoint): Point {
    Point(Round(c.x), Round(c.y))
  }

  /** The truncated centroid, the point the mask mode remembers. */
  function TruncPoint(c: RealPoint): Point {
    Point(Trunc(c.x), Trunc(c.y))
  }

  /**
   * A held shape key in mask mode as evidently intended: the gesture starts
   * when the previous iteration's key was a different one, and otherwise
   * draws from the snapshot to the rounded centroid.
   */
  function MaskGesture(pen: Pen, s: State, shape: Shape, c: RealPoint, previousKey: int): (r: State)
    ensures GestureFrame(s, r) && r.cacheMouse == s.cacheMouse && r.startPointMouse == s.startPointMouse
    ensures previousKey != KeyOf(shape) ==> r == s.(cache := Some(s.canvas), startPoint := Some(RoundPoint(c)))
    ensures previousKey == KeyOf(shape) ==>
      && r.cache == Some(s.cache.GetOr(s.canvas))
      && r.startPoint == Some(s.startPoint.GetOr(RoundPoint(c)))
      && r.canvas == Render(pen, shape, r.cache.value, r.startPoint.value, RoundPoint(c), s.color, s.size)
  {
    var here := RoundPoint(c);
    if previousKey != KeyOf(shape) then
      s.(cache := Some(s.canvas), startPoint := Some(here))
    else
      var snapshot := s.cache.GetOr(s.canvas);
      var anchor := s.startPoint.GetOr(here);
      s.(cache := Some(snapshot), startPoint := Some(anchor),
         canvas := Render(pen, shape, snapshot, anchor, here, s.color, s.size))
  }

  /** In mask mode too, a repeated preview at the same centroid changes nothing. */
  lemma MaskPreviewIdempotent(pen: Pen, s: State, shape: Shape, c: RealPoint)
    ensures var once := MaskGesture(pen, s, shape, c, KeyOf(shape));
      MaskGesture(pen, once, shape, c, KeyOf(shape)) == once
  {
  }

  /**
   * The gesture branch as the source has it. In mask mode with a blob in view
   * it reads a list that is never defined and raises; in mouse mode it reads
   * the second-newest logged mouse position, which does not exist on the first
   * iteration.
   */
  function GestureAsWritten(pen: Pen, s: State, shape: Shape, centroid: Option<RealPoint>, logged: Option<Option<Point>>): (r: Result<State, Error>)
    ensures r == Err(NameError) <==> !s.mousePainting && centroid.Some?
    ensures r == Err(IndexError) <==> s.mousePainting && s.mouse.center.Some? && logged.None?
    ensures r.Ok? ==> GestureFrame(s, r.value)
    ensures (!s.mousePainting && centroid.None?) || (s.mousePainting && s.mouse.center.None?) ==> r == Ok(s)
    ensures s.mousePainting && s.mouse.center.Some? && logged.Some? ==> r == Ok(MouseGesture(pen, s, shape, logged.value))
  {
    if !s.mousePainting && centroid.Some? then Err(NameError)
    else if s.mousePainting && s.mouse.center.Some? then
      match logged
      case None => Err(IndexError)
      case Some(previous) => Ok(MouseGesture(pen, s, shape, previous))
    else Ok(s)
  }

  /**
   * The gesture branch as evidently intended: mask mode compares against the
   * previous iteration's key, and a missing mouse log entry counts as "no
   * pointer then", which starts the gesture.
   */
  function GestureIntended(pen: Pen, s: State, shape: Shape, centroid: Option<RealPoint>, logged: Option<Option<Point>>, previousKey: int): (r: State)
    ensures GestureFrame(s, r)
  {
    if !s.mousePainting && centroid.Some? then MaskGesture(pen, s, shape, centroid.value, previousKey)
    else if s.mousePainting && s.mouse.center.Some? then MouseGesture(pen, s, shape, logged.GetOr(None))
    else s
  }

  /*** Freehand stroke ***/

  /**
   * The freehand stroke, skipped at pen size 0 and while a shape key is held.
   * In mouse mode with the button held, a line joins the previous pointer to
   * the current one, which becomes the previous. In mask mode with a
   * centroid, the canvas is snapshotted, a line joins the previous point to
   * the ROUNDED centroid, and the TRUNCATED centroid becomes the previous
   * point.
   */
  function Freehand(pen: Pen, s: State, key: int, centroid: Option<RealPoint>): (r: State)
    requires Consistent(s.mouse)
    ensures r == s.(canvas := r.canvas, centerPrev := r.centerPrev, centerPrevMouse := r.centerPrevMouse,
                    cache := r.cache, startPoint := r.startPoint)
    ensures s.size == 0 || ShapeOf(key).Some? ==> r == s
    ensures s.mousePainting && !s.mouse.pressed ==> r == s
    ensures !s.mousePainting && centroid.None? ==> r == s
    ensures s.size != 0 && ShapeOf(key).None? && s.mousePainting && s.mouse.pressed ==>
      && r.canvas == pen.line(s.canvas, s.centerPrevMouse, s.mouse.center.value, s.color, s.size)
      && r.centerPrevMouse == s.mouse.center.value
      && r.centerPrev == s.centerPrev && r.cache == s.cache && r.startPoint == s.startPoint
    ensures s.size != 0 && ShapeOf(key).None? && !s.mousePainting && centroid.Some? ==>
      && r.canvas == pen.line(s.canvas, s.centerPrev, RoundPoint(centroid.value), s.color, s.size)
      && r.centerPrev == TruncPoint(centroid.value)
      && r.cache == Some(s.canvas)
      && r.startPoint == Some(RoundPoint(centroid.value))
      && r.centerPrevMouse == s.centerPrevMouse
  {
    if s.size == 0 then s
    else if s.mouse.pressed && s.mousePainting && key != 's' as int && key != 'o' as int then
      var here := s.mouse.center.value;
      s.(canvas := pen.line(s.canvas, s.centerPrevMouse, here, s.color, s.size), centerPrevMouse := here)
    else if !s.mousePainting && key != 's' as int && key != 'o' as int then
      match centroid
      case None => s
      case Some(c) =>
        var end := RoundPoint(c);
        s.(cache := Some(s.canvas), startPoint := Some(end),
           canvas := pen.line(s.canvas, s.centerPrev, end, s.color, s.size),
           centerPrev := TruncPoint(c))
    else s
  }

  /** Two mouse strokes in a row join up: the second starts where the first ended. */
  lemma MouseStrokesJoin(pen: Pen, s: State, key: int, centroid: Option<RealPoint>, p: Point)
    requires Consistent(s.mouse) && s.size != 0 && ShapeOf(key).None? && s.mousePainting && s.mouse.pressed
    ensures var t := Freehand(pen, s, key, centroid);
      var u := Freehand(pen, t.(mouse := Mouse(true, Some(p))), key, centroid);
      u.canvas == pen.line(t.canvas, s.mouse.center.value, p, s.color, s.size)
  {
  }

  /**
   * Two mask strokes in a row need not join: the first ends at the rounded
   * centroid, the second starts at the truncated one. They are at most one
   * pixel apart on each axis, and for a centroid at (2.75, 2.75) they differ.
   */
  lemma MaskStrokesGap(pen: Pen, s: State, key: int, c: RealPoint, d: RealPoint)
    requires Consistent(s.mouse) && s.size != 0 && ShapeOf(key).None? && !s.mousePainting
    ensures var t := Freehand(pen, s, key, Some(c));
      var u := Freehand(pen, t, key, Some(d));
      && u.canvas == pen.line(t.canvas, TruncPoint(c), RoundPoint(d), s.color, s.size)
      && -1 <= RoundPoint(c).x - TruncPoint(c).x <= 1
      && -1 <= RoundPoint(c).y - TruncPoint(c).y <= 1
      && (c == RealPoint(2.75, 2.75) ==> RoundPoint(c) != TruncPoint(c))
  {
  }

  /*** One iteration ***/

  /**
   * The start of an iteration: the mouse position is logged, the callbacks
   * that arrive while waiting for a key run, the key is remembered, and a
   * pressed key goes through the dispatch chain.
   */
  function BeginTick(s: State, events: seq<MouseEvent>, key: int): (r: State)
    ensures Valid(s) ==> Valid(r)
    ensures r == Dispatch(s.(lastLogged := Some(s.mouse.center), lastKey := key, mouse := Deliver(s.mouse, events)), key)
    ensures r.lastLogged == Some(s.mouse.center) && r.lastKey == key
    ensures r.mouse == Deliver(s.mouse, events)
    ensures r.mousePainting == (if key == 'm' as int then true else if key == 'n' as int then false else s.mousePainting)
    ensures r.height == s.height && r.width == s.width
  {
    var logged := s.(lastLogged := Some(s.mouse.center), lastKey := key, mouse := Deliver(s.mouse, events));
    if key != NoKey then Dispatch(logged, key) else logged
  }

  /**
   * One iteration of the loop as the source has it, given the mouse events
   * delivered during it, the key read, and the blob centroid of this frame.
   * It raises `NameError` for a shape key in mask mode with a blob in view,
   * and `IndexError` for a shape key in mouse mode with a pointer on the
   * very first iteration; otherwise it keeps the state valid.
   */
  function Step(pen: Pen, s: State, events: seq<MouseEvent>, key: int, centroid: Option<RealPoint>): (r: Result<State, Error>)
    requires Valid(s) && KeepsShape(pen)
    ensures r == Err(NameError) <==> ShapeOf(key).Some? && !s.mousePainting && centroid.Some?
    ensures r == Err(IndexError) <==>
      ShapeOf(key).Some? && s.mousePainting && Deliver(s.mouse, events).center.Some? && s.lastLogged.None?
    ensures r.Ok? ==> Valid(r.value) && r.value.lastLogged == Some(s.mouse.center) && r.value.lastKey == key
    ensures r.Ok? ==> r.value.height == s.height && r.value.width == s.width
  {
    var t := BeginTick(s, events, key);
    match ShapeOf(key)
    case None => Ok(Freehand(pen, t, key, centroid))
    case Some(shape) =>
      match GestureAsWritten(pen, t, shape, centroid, s.lastLogged)
      case Err(e) => Err(e)
      case Ok(u) => Ok(Freehand(pen, u, key, centroid))
  }

  /** One iteration with both gesture branches as evidently intended; it never raises. */
  function StepIntended(pen: Pen, s: State, events: seq<MouseEvent>, key: int, centroid: Option<RealPoint>): (r: State)
    requires Valid(s) && KeepsShape(pen)
    ensures Valid(r) && r.lastLogged == Some(s.mouse.center) && r.lastKey == key
  {
    var t := BeginTick(s, events, key);
    match ShapeOf(key)
    case None => Freehand(pen, t, key, centroid)
    case Some(shape) => Freehand(pen, GestureIntended(pen, t, shape, centroid, s.lastLogged, s.lastKey), key, centroid)
  }

  /** Wherever the source does not raise, the corrected iteration does exactly what it does. */
  lemma IntendedAgrees(pen: Pen, s: State, events: seq<MouseEvent>, key: int, centroid: Option<RealPoint>)
    requires Valid(s) && KeepsShape(pen)
    requires Step(pen, s, events, key, centroid).Ok?
    ensures StepIntended(pen, s, events, key, centroid) == Step(pen, s, events, key, centroid).value
  {
  }

  /** The inputs of one iteration. */
  datatype Input = Input(events: seq<MouseEvent>, key: int, centroid: Option<RealPoint>)

  /**
   * A run of iterations, ending after one whose key quits or at the first
   * exception. Every state it reaches is valid.
   */
  function Run(pen: Pen, s: State, inputs: seq<Input>): (r: Result<State, Error>)
    requires Valid(s) && KeepsShape(pen)
    ensures r.Ok? ==> Valid(r.value) && r.value.height == s.height && r.value.width == s.width
    decreases |inputs|
  {
    if |inputs| == 0 then Ok(s)
    else
      match Step(pen, s, inputs[0].events, inputs[0].key, inputs[0].centroid)
      case Err(e) => Err(e)
      case Ok(t) => if Quits(inputs[0].key) then Ok(t) else Run(pen, t, inputs[1..])
  }

  /*** Scenarios ***/

  function Press(p: Point): MouseEvent { MouseEvent(LeftButtonDown, p.x, p.y) }
  function Drag(p: Point): MouseEvent { MouseEvent(MouseMove, p.x, p.y) }
  function Release(p: Point): MouseEvent { MouseEvent(LeftButtonUp, p.x, p.y) }

  /**
   * Holding "s" in mouse mode: press at `p`, hold, drag to `q`, release.
   * The first two iterations only take the snapshot and anchor; the third
   * draws exactly one rectangle, from `p` to `q`, on the original canvas; and
   * after the release that rectangle stays on the canvas.
   */
  lemma RectangleGesture(pen: Pen, s: State, p: Point, q: Point, c: Option<RealPoint>)
    requires Valid(s) && KeepsShape(pen) && s.mousePainting && s.mouse == Mouse(false, None) && s.lastLogged == Some(None)
    ensures var t1 := Step(pen, s, [Press(p)], 's' as int, c);
      && t1.Ok? && t1.value.canvas == s.canvas
      && var t2 := Step(pen, t1.value, [], 's' as int, c);
      && t2.Ok? && t2.value.canvas == s.canvas
      && var t3 := Step(pen, t2.value, [Drag(q)], 's' as int, c);
      && t3.Ok? && t3.value.canvas == pen.rectangle(s.canvas, p, q, s.color, s.size)
      && var t4 := Step(pen, t3.value, [Release(q)], NoKey, c);
      && t4.Ok? && t4.value.canvas == t3.value.canvas
  {
    DeliverOne(s.mouse, Press(p));
    var t1 := Step(pen, s, [Press(p)], 's' as int, c);
    assert t1.value.mouse == Mouse(true, Some(p));
    var t2 := Step(pen, t1.value, [], 's' as int, c);
    assert t2.value.mouse == Mouse(true, Some(p)) && t2.value.lastLogged == Some(Some(p));
    assert t2.value.cacheMouse == Some(s.canvas) && t2.value.startPointMouse == Some(p);
    DeliverOne(t2.value.mouse, Drag(q));
    var t3 := Step(pen, t2.value, [Drag(q)], 's' as int, c);
    assert t3.value.mouse == Mouse(true, Some(q));
    DeliverOne(t3.value.mouse, Release(q));
    var t4 := Step(pen, t3.value, [Release(q)], NoKey, c);
    assert t4.value.mouse == Mouse(false, None);
  }

  /** Holding a shape key with the button held and the pointer still redraws the same canvas every iteration. */
  lemma HeldPreviewIsStable(pen: Pen, s: State, key: int, c: Option<RealPoint>)
    requires Valid(s) && KeepsShape(pen) && s.mousePainting && s.mouse.pressed && ShapeOf(key).Some?
    requires s.lastLogged.Some? && s.lastLogged.value.Some?
    ensures var t1 := Step(pen, s, [], key, c);
      t1.Ok? && var t2 := Step(pen, t1.value, [], key, c);
      t2.Ok? && t2.value.canvas == t1.value.canvas
  {
  }

  /** The mask-mode shape branch raises `NameError` as soon as a shape key is held with a blob in view. */
  lemma MaskShapeRaises(pen: Pen, s: State, events: seq<MouseEvent>, c: RealPoint)
    requires Valid(s) && KeepsShape(pen) && !s.mousePainting
    ensures Step(pen, s, events, 's' as int, Some(c)) == Err(NameError)
    ensures Step(pen, s, events, 'o' as int, Some(c)) == Err(NameError)
  {
  }

  /**
   * With the intended mask-mode branch, holding "o" with the blob at `a` then
   * at `b` draws one circle centred at the rounded `a`, on the canvas as it
   * was before the gesture began.
   */
  lemma MaskCircleGesture(pen: Pen, s: State, a: RealPoint, b: RealPoint)
    requires Valid(s) && KeepsShape(pen) && !s.mousePainting && s.lastKey != 'o' as int
    ensures var t1 := StepIntended(pen, s, [], 'o' as int, Some(a));
      && t1.canvas == s.canvas
      && var t2 := StepIntended(pen, t1, [], 'o' as int, Some(b));
      && t2.canvas == pen.circle(s.canvas, RoundPoint(a), Radius(RoundPoint(a), RoundPoint(b)), s.color, s.size)
  {
  }

  /** Holding a shape key in mouse mode during the very first iteration raises `IndexError`. */
  lemma FirstTickShapeRaises(pen: Pen, h: nat, w: nat)
    requires KeepsShape(pen)
    ensures Step(pen, Init(h, w), [], 's' as int, None) == Err(IndexError)
  {
  }

  /** The corrected first iteration just starts the gesture: the snapshot is taken, nothing is drawn. */
  lemma FirstTickShapeAnchors(pen: Pen, h: nat, w: nat)
    requires KeepsShape(pen)
    ensures var t := StepIntended(pen, Init(h, w), [], 's' as int, None);
      t.canvas == Init(h, w).canvas && t.cacheMouse == Some(Init(h, w).canvas) && t.startPointMouse == Some(Point(200, 200))
  {
  }
}
