# AR paint: blob tracking and stroke compositing, modelled in Dafny

The paint tool reads a webcam frame on every loop iteration and thresholds it against a calibrated
B/G/R range. It keeps the largest connected blob and uses that blob's centroid, or the mouse, as a
brush on a persistent white canvas. Keys pick the colour, the pen size and the pointer mode. They also
clear the canvas, and while "s" or "o" is held they preview and leave a rectangle or a circle.

The model covers two parts:

- **The image functions** of `my_functions.py` (`createMask`, `getCentroid`, `maxArea`, `createBlend`).
  They are pure functions over immutable `seq<seq<Pixel>>` grids.
- **The per-iteration logic** of `ar_paint.py`: the `onMouse` callback, plus one iteration of `main`
  as a pure step over an explicit `State`.

The model has these files:

- `maybe.dfy` holds `Option` and `Result`.
- `image.dfy` holds `Byte`, `Pixel` (B, G, R order), `Grid`, `Point` and `RealPoint`.
- `numeric.dfy` models Python's `int()` (truncation), `round()` (half to even), and `int(sqrt(n))` as an
  integer square root.
- `segmentation.dfy` models `my_functions.py`.
- `pointer.dfy` models `onMouse`.
- `paint.dfy` models the loop body: `Dispatch`, `MouseGesture`, `MaskGesture`, `Freehand`, `Step`
  and `Run`.

Design choices:

- **Drawing calls.** `cv2.line`, `cv2.rectangle` and `cv2.circle` are the three function-valued fields
  of a `Pen`. They stay uninterpreted. The lemmas say which call is applied, to which canvas, with
  which endpoints, and what state is left afterwards.
- **Connected components.** The labeller's output is an input (`Labelling`). `Labels(mask, lab)`
  states when a labelling is consistent with a mask.
- **Iteration order.** The order follows the loop. The mouse position is logged first (line 144).
  Mouse callbacks run while `waitKey` waits (line 146). Then come the key dispatch, the gesture
  branch and the freehand stroke. So `listmouse[-2]` is the position logged one iteration earlier.
- **Circle radius.** The radius is `int(sqrt(...))`, which truncates the distance.
- **Drawing keeps the canvas size.** OpenCV draws in place, so a drawing call returns a canvas of the shape it
  was given. `KeepsShape(pen)` states this, and the canvas and both snapshots keep the frame's size over a run.

## Model

| member | source | states |
|---|---|---|
| Numeric.Trunc | ar_paint.py:299 | `int(x)` truncates toward zero: the result is within one of `x` on the side of zero |
| Numeric.Round | ar_paint.py:302 | `round(x)` is at most 1/2 from `x`, and a tie goes to the even integer |
| Numeric.RoundUnique | ar_paint.py:302 | those two properties determine `round(x)` uniquely |
| Numeric.RoundNearTrunc | ar_paint.py:299-302 | the rounded and the truncated centroid coordinate differ by at most one |
| Numeric.RoundAndTruncDiffer | ar_paint.py:299-302 | they do differ: 2.75 rounds to 3 and truncates to 2 |
| Numeric.ISqrt | ar_paint.py:259-260 | `int(sqrt(n))` is the `r` with `r*r <= n < (r+1)*(r+1)` |
| Numeric.ISqrtUnique | ar_paint.py:276-278 | only one natural number satisfies that bracket |
| Segmentation.BoundVectors | my_functions.py:48-49 | the bound vectors exist exactly when the "B", "G" and "R" keys each have "min" and "max"; each has three entries, and checking a pixel's channels in storage order against them is exactly checking B, G and R against the keys of the same name |
| Segmentation.CreateMask | my_functions.py:39-54 | a mask pixel is 255 iff the B value is within the "B" bounds, G within "G" and R within "R" (inclusive), else 0; same shape as the frame; a missing key fails |
| Segmentation.AcceptAllMask | my_functions.py:52 | a calibration of 0..255 on every channel accepts every pixel |
| Segmentation.Winner | my_functions.py:66-83 | the scan returns 0 iff no foreground label has positive area; otherwise a label >= 1 whose area is maximal and strictly larger than every lower label's |
| Segmentation.WinnerIsLargest | my_functions.py:76-83 | a label is the "largest, lowest on ties, never background" label iff the scan returns it |
| Segmentation.GetCentroid | my_functions.py:57-95 | with no foreground label: the input mask unchanged and no centroid; otherwise the mask is true exactly at the winner's pixels and the centroid is the winner's |
| Segmentation.NoBlobIffEmptyMask | my_functions.py:85-93 | under a consistent labelling: no centroid iff the mask has no foreground pixel |
| Segmentation.SingleBlob | my_functions.py:86-89 | with one blob: its centroid is returned, and the refined mask is exactly the foreground |
| Segmentation.MaxArea | my_functions.py:98-117 | the output has the frame's shape with B and R at 0; for a boolean mask G is 255 where the mask is true and 0 elsewhere; for a `uint8` mask G is `v*255` modulo 256 |
| Segmentation.ByteMaskWraps | my_functions.py:111 | on a `uint8` mask, a 255 cell would come out as green level 1 |
| Segmentation.NoBlobGreenIsBlack | my_functions.py:111 | the `uint8` mask only comes back when it is all zero, so with no blob the green image is black |
| Segmentation.CreateBlend | my_functions.py:140-155 | each output pixel is the canvas pixel where the canvas is not exactly white, else the frame pixel; same shape as the frame |
| Segmentation.BlankBlendIsFrame | my_functions.py:148-153 | an all-white canvas leaves the frame unchanged |
| Segmentation.BlendIdempotent | my_functions.py:152-153 | blending the same canvas again changes nothing |
| Pointer.OnMouse | ar_paint.py:12-33 | a press sets pressed and the position; a move updates the position only while pressed; a release clears both; other events change nothing; "pressed implies a position" is kept |
| Pointer.Deliver | ar_paint.py:146 | any sequence of callbacks keeps "pressed implies a position" |
| Pointer.ReleaseForgets | ar_paint.py:31-33 | after a release, whatever came before: not pressed, no position |
| Pointer.HoverIsIgnored | ar_paint.py:23-25 | moves with the button up change nothing |
| Pointer.DragFollowsLastMove | ar_paint.py:23-25 | during a drag, the position is that of the last move |
| Paint.Init | ar_paint.py:39-51 | the initial state is valid, and its canvas is all white at the frame's size (that canvas is created at ar_paint.py:116-118) |
| Paint.Dispatch | ar_paint.py:149-207 | "b", "g" and "r" select (255,0,0), (0,255,0) and (0,0,255); "+" grows the size; "-" shrinks it, floored at 0; "m" and "n" select mouse and mask mode; "c" whitens the canvas at the frame's size; other state is untouched; other keys change nothing; size >= 0 is kept |
| Paint.ShrinkUndoesGrow | ar_paint.py:173-185 | "-" after "+" restores a non-negative size |
| Paint.GrowUndoesShrink | ar_paint.py:173-185 | "+" after "-" restores a positive size; "-" at size 0 is a no-op |
| Paint.QuitOnlyOnQ | ar_paint.py:316 | for key values up to 255 (and no key), the loop ends only on "q" |
| Paint.Radius | ar_paint.py:276-278 | the circle radius is the anchor-to-pointer distance rounded down |
| Paint.RadiusTruncates | ar_paint.py:259-260 | a distance of sqrt(8) gives radius 2, not 3 |
| Paint.MouseGesture | ar_paint.py:229-241 | if no pointer was logged an iteration earlier: snapshot and anchor only, nothing drawn; otherwise the canvas is the snapshot with one shape from the anchor to the pointer |
| Paint.MousePreviewIgnoresCanvas | ar_paint.py:237-241 | a preview does not depend on the current canvas, only on the snapshot |
| Paint.MousePreviewIdempotent | ar_paint.py:234-241 | a repeated preview is a no-op, so previews never pile up |
| Paint.MaskGesture | ar_paint.py:212-226 | (intended branch) a changed key starts the gesture at the rounded centroid; a repeated key redraws from the snapshot |
| Paint.MaskPreviewIdempotent | ar_paint.py:219-226 | a repeated mask-mode preview at the same centroid is a no-op |
| Paint.GestureAsWritten | ar_paint.py:210-280 | raises NameError iff in mask mode with a centroid; raises IndexError iff in mouse mode with a pointer and an empty log; without a blob (mask mode) or a pointer (mouse mode) the state is unchanged; otherwise it is the mouse gesture |
| Paint.GestureIntended | ar_paint.py:210-280 | only the canvas and the snapshots and anchors change |
| Paint.Freehand | ar_paint.py:282-308 | no stroke at size 0 or while "s"/"o" is held; mouse mode: only while pressed, a line from the previous to the current pointer, which becomes the previous one; mask mode: nothing without a centroid, else a line to the ROUNDED centroid, with the TRUNCATED centroid as the next start |
| Paint.MouseStrokesJoin | ar_paint.py:286-289 | consecutive mouse strokes join: the next starts where the last ended |
| Paint.MaskStrokesGap | ar_paint.py:298-308 | the next mask stroke starts at the truncated centroid, at most one pixel per axis from where the last one ended, and possibly off it |
| Paint.BeginTick | ar_paint.py:144-149 | the pointer is logged before the callbacks run; then the key goes through the dispatch, and no key changes nothing there |
| Paint.Step | ar_paint.py:130-308 | an iteration raises NameError iff a shape key is held in mask mode with a blob in view; it raises IndexError iff a shape key is held in mouse mode with a pointer on the first iteration; otherwise it keeps the state valid |
| Paint.StepIntended | ar_paint.py:130-308 | the corrected iteration never raises and keeps the state valid |
| Paint.IntendedAgrees | ar_paint.py:210-280 | wherever the code does not raise, the corrected iteration produces the same state |
| Paint.Run | ar_paint.py:130-318 | with drawing calls that keep the canvas size, every state a run reaches is valid: size >= 0, pressed implies a position, and the canvas and any snapshot have the frame's size |
| Paint.RectangleGesture | ar_paint.py:229-241 | press, hold "s", drag: nothing is drawn for two iterations, then exactly one rectangle appears on the original canvas, and it stays after the release |
| Paint.HeldPreviewIsStable | ar_paint.py:234-241 | holding still with a shape key held gives the same canvas every iteration |
| Paint.MaskShapeRaises | ar_paint.py:214 | in mask mode, "s" or "o" with a blob in view raises NameError |
| Paint.MaskCircleGesture | ar_paint.py:246-262 | (intended) holding "o" in mask mode draws one circle centred at the rounded first centroid, on the canvas from before the gesture |
| Paint.FirstTickShapeRaises | ar_paint.py:231 | holding "s" in mouse mode on the first iteration raises IndexError |
| Paint.FirstTickShapeAnchors | ar_paint.py:231-233 | (intended) the first iteration takes the snapshot and anchor and draws nothing |

## Findings

| source | as written | input that shows it | evidently intended | confidence | as-written member | corrected member |
|---|---|---|---|---|---|---|
| ar_paint.py:214 | the mask-mode rectangle and circle branches (also line 248) read `listkeys[-2]`, which is never defined, so they raise `NameError` | press "n", then hold "s" with a blob in view | compare with the key of the previous iteration | high; not executed | Paint.MaskShapeRaises | Paint.MaskCircleGesture |
| ar_paint.py:231 | on the first iteration `listmouse` has one entry, so `listmouse[-2]` (also line 267) raises `IndexError`; `center_mouse` starts at (200, 200), not `None` | hold "s" while the first frame is shown, in the default mouse mode | treat "no logged position" like `None`: start the gesture | medium; not executed | Paint.FirstTickShapeRaises | Paint.FirstTickShapeAnchors |

`StepIntended` is the corrected iteration and the mask-mode gesture lemmas use it. `IntendedAgrees`
proves that it differs from `Step` only where `Step` raises.

## Left out

- The connected-component labeller (`cv2.connectedComponentsWithStats`, my_functions.py:73) is an input, `Labelling`.
- Segmentation.Labels: only consistency with the mask is required. Labels are not required to be 4-connected components, and centroids are not required to be the mean of their pixels. The lemmas assuming it therefore hold for any such labelling, OpenCV's included.
- Pixel rasterisation of `cv2.line`, `cv2.rectangle` and `cv2.circle` is left out. They are uninterpreted `Pen` fields.
- Floating-point arithmetic is left out. Centroids are reals. `int()` and `round()` are exact functions.
  The radius is the exact integer square root. The float power `(...) ** (1 / 2)` followed by `int()` agrees with it for coordinates of image size.
- The numeric-paint path (ar_paint.py:67-85) is left out. It calls undefined functions and uses `blank_image` before it is assigned.
- `findFormsCentroids` (my_functions.py:120-137) is left out. It is unused by the loop and overwrites its result inside its loop.
- `TrackBars` and `color_segmenter.py` are left out. They only read GUI trackbars and write the calibration file.
- All I/O is left out: capture and `flip`, windows and `imshow`, argparse, the JSON load, and printing.
  The calibration is an already parsed map. Its values are taken to be integers.
- Saving with "w" (`imwrite` with a `ctime` file name) is left out. In the model, "w" changes no state.
- The stroke drawn on the displayed frame (ar_paint.py:306) is left out. The frame is not kept between iterations.
- `waitKey`'s key and the centroid of the frame are inputs of each iteration. The mouse callbacks are an input
  sequence delivered during the iteration.
- A closed capture device is left out. `capture.read()` then yields no frame, and `frame.shape` (ar_paint.py:116) raises `AttributeError` before the loop starts.
- `createBlend`'s `astype(np.bool)` is an alias missing from some NumPy releases. The model gives it its intended meaning, conversion to `bool`.
- Segmentation.MaxArea: the frame and the mask are assumed to have the same shape. The source raises otherwise (`cv2.merge`, my_functions.py:115), and the loop never passes mismatched shapes.
- Segmentation.CreateBlend: the canvas and the frame are assumed to have the same shape. The source raises `IndexError` otherwise (my_functions.py:153), and the canvas is always created at the frame's size.
- Paint.GestureIntended: its contract only frames what may change. What it draws is stated by `MouseGesture` and `MaskGesture`.
