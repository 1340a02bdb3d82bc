/**
 * The per-frame image functions: thresholding a frame against the calibrated
 * colour range, keeping the largest connected blob, painting that blob green,
 * and laying the drawing canvas over the camera frame.
 */
module Segmentation {
  import opened Maybe
  import opened Image

  /*** Thresholding ***/

  /** The calibration file's contents: channel name -> {"min": .., "max": ..}. */
  type Ranges = map<string, map<string, int>>

  /** The calibration has both bounds for the channel called `name`. */
  predicate HasChannel(ranges: Ranges, name: string) {
    name in ranges && "min" in ranges[name] && "max" in ranges[name]
  }

  /** The calibration has both bounds for each of "B", "G" and "R". */
  predicate Complete(ranges: Ranges) {
    HasChannel(ranges, "B") && HasChannel(ranges, "G") && HasChannel(ranges, "R")
  }

  /** `v` lies within the inclusive bounds of the channel called `name`. */
  predicate Within(ranges: Ranges, name: string, v: int)
    requires HasChannel(ranges, name)
  {
    ranges[name]["min"] <= v <= ranges[name]["max"]
  }

  /** The calibration accepts pixel `p`: each channel within the bounds of the key of the same colour. */
  predicate Admits(ranges: Ranges, p: Pixel)
    requires Complete(ranges)
  {
    Within(ranges, "B", p.b) && Within(ranges, "G", p.g) && Within(ranges, "R", p.r)
  }

  /** Channel `k` of a pixel in storage order, each against entry `k` of the bound vectors. */
  predicate PixelInRange(p: Pixel, lo: seq<int>, hi: seq<int>)
    requires |lo| == 3 && |hi| == 3
  {
    lo[0] <= p.b <= hi[0] && lo[1] <= p.g <= hi[1] && lo[2] <= p.r <= hi[2]
  }

  /** The lower and upper bound vectors handed to `inRange`; `None` where a key is missing (a `KeyError`). */
  function BoundVectors(ranges: Ranges): (v: Option<(seq<int>, seq<int>)>)
    ensures v.Some? <==> Complete(ranges)
    ensures v.Some? ==> |v.value.0| == 3 && |v.value.1| == 3
    ensures v.Some? ==> forall p :: PixelInRange(p, v.value.0, v.value.1) <==> Admits(ranges, p)
  {
    if Complete(ranges) then
      Some(([ranges["B"]["min"], ranges["G"]["min"], ranges["R"]["min"]],
            [ranges["B"]["max"], ranges["G"]["max"], ranges["R"]["max"]]))
    else None
  }

  /** OpenCV's `inRange`: 255 where every channel is within its bounds, else 0. */
  function InRange(image: Grid<Pixel>, lo: seq<int>, hi: seq<int>): (m: Grid<Byte>)
    requires |lo| == 3 && |hi| == 3
    ensures SameShape(m, image)
    ensures forall i, j :: 0 <= i < |image| && 0 <= j < |image[i]| ==>
      m[i][j] == if PixelInRange(image[i][j], lo, hi) then 255 else 0
  {
    seq(|image|, i requires 0 <= i < |image| =>
      seq(|image[i]|, j requires 0 <= j < |image[i]| =>
        if PixelInRange(image[i][j], lo, hi) then 255 else 0))
  }

  /**
   * `createMask`: the binary mask of the pixels the calibration accepts. Missing
   * channel keys make the source raise; that is the `None` result.
   */
  function CreateMask(ranges: Ranges, image: Grid<Pixel>): (r: Option<Grid<Byte>>)
    ensures r.Some? <==> Complete(ranges)
    ensures r.Some? ==> SameShape(r.value, image)
    ensures r.Some? ==> forall i, j :: 0 <= i < |image| && 0 <= j < |image[i]| ==>
      && (r.value[i][j] == 255 <==> Admits(ranges, image[i][j]))
      && (r.value[i][j] == 0 <==> !Admits(ranges, image[i][j]))
  {
    match BoundVectors(ranges)
    case None => None
    case Some((lo, hi)) => Some(InRange(image, lo, hi))
  }

  /** The calibration the segmenter starts from (every channel 0..255) accepts every pixel. */
  lemma AcceptAllMask(ranges: Ranges, image: Grid<Pixel>)
    requires Complete(ranges)
    requires forall c :: c in ["B", "G", "R"] ==> ranges[c]["min"] <= 0 && 255 <= ranges[c]["max"]
    ensures CreateMask(ranges, image).Some?
    ensures forall i, j :: 0 <= i < |image| && 0 <= j < |image[i]| ==> CreateMask(ranges, image).value[i][j] == 255
  {
  }

  /*** Largest blob ***/

  /**
   * The output of OpenCV's connected-component labeller, taken as given:
   * a label per pixel, and per label its area and centroid. The number of
   * labels, background label 0 included, is `|areas|`.
   */
  datatype Labelling = Labelling(labels: Grid<int>, areas: seq<int>, centroids: seq<RealPoint>)

  /** How often `l` occurs in one row. */
  function CountInRow(row: seq<int>, l: int): nat {
    if |row| == 0 then 0 else (if row[0] == l then 1 else 0) + CountInRow(row[1..], l)
  }

  /** How many pixels carry label `l`. */
  function CountLabel(labels: Grid<int>, l: int): nat {
    if |labels| == 0 then 0 else CountInRow(labels[0], l) + CountLabel(labels[1..], l)
  }

  /**
   * `lab` is consistent with `mask`: background pixels carry label 0,
   * foreground pixels a label in 1..n-1, and every foreground label's area is
   * its pixel count, at least one. Connectivity of a label's pixels and the
   * centroid values are not constrained.
   */
  predicate Labels(mask: Grid<Byte>, lab: Labelling) {
    && 1 <= |lab.areas|
    && |lab.centroids| == |lab.areas|
    && SameShape(lab.labels, mask)
    && (forall i, j :: 0 <= i < |mask| && 0 <= j < |mask[i]| ==>
          0 <= lab.labels[i][j] < |lab.areas| && (lab.labels[i][j] == 0 <==> mask[i][j] == 0))
    && (forall l :: 1 <= l < |lab.areas| ==> lab.areas[l] == CountLabel(lab.labels, l) && 1 <= lab.areas[l])
  }

  /**
   * `l` is the label `getCentroid` must keep: a foreground label of positive
   * area, at least as large as every other, and strictly larger than every
   * label before it (ties go to the lowest label).
   */
  predicate IsLargest(areas: seq<int>, l: int) {
    && 1 <= l < |areas|
    && 0 < areas[l]
    && (forall m :: 1 <= m < |areas| ==> areas[m] <= areas[l])
    && (forall m :: 1 <= m < l ==> areas[m] < areas[l])
  }

  /**
   * The scan of labels 1..k-1 with a running maximum that starts at area 0 and
   * label 0 and is replaced only by a strictly larger area; 0 when none wins.
   */
  function Winner(areas: seq<int>, k: nat): (w: nat)
    requires k <= |areas|
    ensures w == 0 <==> forall m :: 1 <= m < k ==> areas[m] <= 0
    ensures w != 0 ==> IsLargest(areas[..k], w)
  {
    if k <= 1 then 0
    else
      var w := Winner(areas, k - 1);
      var best := if w == 0 then 0 else areas[w];
      if areas[k - 1] > best then k - 1 else w
  }

  /** The scan picks exactly the label `IsLargest` describes, and picks none only when no such label exists. */
  lemma WinnerIsLargest(areas: seq<int>, l: int)
    ensures IsLargest(areas, l) <==> l != 0 && l == Winner(areas, |areas|)
  {
    assert areas[..|areas|] == areas;
  }

  /** The mask `getCentroid` returns: either the boolean mask of one label, or the input mask untouched. */
  datatype MaskImage = Binary(bits: Grid<bool>) | Bytes(bytes: Grid<Byte>)

  /** The refined mask and the blob centroid, `None` when there is no blob. */
  datatype Selection = Selection(mask: MaskImage, centroid: Option<RealPoint>)

  /** `labels == l`, elementwise. */
  function LabelMask(labels: Grid<int>, l: int): (m: Grid<bool>)
    ensures SameShape(m, labels)
    ensures forall i, j :: 0 <= i < |labels| && 0 <= j < |labels[i]| ==> (m[i][j] <==> labels[i][j] == l)
  {
    seq(|labels|, i requires 0 <= i < |labels| =>
      seq(|labels[i]|, j requires 0 <= j < |labels[i]| => labels[i][j] == l))
  }

  /**
   * `getCentroid`: keep the largest labelled blob. With a winner, the mask is
   * true exactly on its pixels and the centroid is its entry; with none, the
   * input mask comes back unchanged and the centroid is `None`.
   */
  function GetCentroid(mask: Grid<Byte>, lab: Labelling): (r: Selection)
    requires |lab.centroids| == |lab.areas|
    ensures r.centroid.None? <==> forall l :: 1 <= l < |lab.areas| ==> lab.areas[l] <= 0
    ensures r.centroid.None? ==> r.mask == Bytes(mask)
    ensures r.centroid.Some? ==>
      exists w :: IsLargest(lab.areas, w) && r.centroid.value == lab.centroids[w] &&
        r.mask.Binary? && SameShape(r.mask.bits, lab.labels) &&
        forall i, j :: 0 <= i < |lab.labels| && 0 <= j < |lab.labels[i]| ==> (r.mask.bits[i][j] <==> lab.labels[i][j] == w)
  {
    var w := Winner(lab.areas, |lab.areas|);
    assert lab.areas[..|lab.areas|] == lab.areas;
    if w != 0 then Selection(Binary(LabelMask(lab.labels, w)), Some(lab.centroids[w]))
    else Selection(Bytes(mask), None)
  }

  /** A label that occurs nowhere has count 0. */
  lemma {:induction false} CountAbsent(labels: Grid<int>, l: int)
    requires forall i, j :: 0 <= i < |labels| && 0 <= j < |labels[i]| ==> labels[i][j] != l
    ensures CountLabel(labels, l) == 0
  {
    if |labels| != 0 {
      RowCountAbsent(labels[0], l);
      CountAbsent(labels[1..], l);
    }
  }

  lemma {:induction false} RowCountAbsent(row: seq<int>, l: int)
    requires forall j :: 0 <= j < |row| ==> row[j] != l
    ensures CountInRow(row, l) == 0
  {
    if |row| != 0 {
      RowCountAbsent(row[1..], l);
    }
  }

  /** With a consistent labelling, there is no centroid exactly when the mask has no foreground pixel. */
  lemma NoBlobIffEmptyMask(mask: Grid<Byte>, lab: Labelling)
    requires Labels(mask, lab)
    ensures GetCentroid(mask, lab).centroid.None? <==>
      forall i, j :: 0 <= i < |mask| && 0 <= j < |mask[i]| ==> mask[i][j] == 0
  {
    if forall i, j :: 0 <= i < |mask| && 0 <= j < |mask[i]| ==> mask[i][j] == 0 {
      if 2 <= |lab.areas| {
        CountAbsent(lab.labels, 1);
        assert false;
      }
    } else {
      var i, j :| 0 <= i < |mask| && 0 <= j < |mask[i]| && mask[i][j] != 0;
      assert 1 <= lab.areas[lab.labels[i][j]];
    }
  }

  /** A mask with a single blob: that blob's centroid, and the refined mask is the whole foreground. */
  lemma SingleBlob(mask: Grid<Byte>, lab: Labelling)
    requires Labels(mask, lab) && |lab.areas| == 2
    ensures GetCentroid(mask, lab).centroid == Some(lab.centroids[1])
    ensures var m := GetCentroid(mask, lab).mask;
      m.Binary? && SameShape(m.bits, mask) &&
      forall i, j :: 0 <= i < |mask| && 0 <= j < |mask[i]| ==> (m.bits[i][j] <==> mask[i][j] != 0)
  {
  }

  /*** Overlays ***/

  /** The green level numpy computes for one mask cell: `astype(uint8) * 255`, wrapping modulo 256. */
  function GreenLevel(mask: MaskImage, i: nat, j: nat): Byte
    requires mask.Binary? ==> i < |mask.bits| && j < |mask.bits[i]|
    requires mask.Bytes? ==> i < |mask.bytes| && j < |mask.bytes[i]|
  {
    match mask
    case Binary(bits) => ((if bits[i][j] then 1 else 0) * 255) % 256
    case Bytes(bytes) => (bytes[i][j] as int * 255) % 256
  }

  /** The rows of the mask, whichever kind it is. */
  predicate MaskShaped(mask: MaskImage, image: Grid<Pixel>) {
    match mask
    case Binary(bits) => SameShape(bits, image)
    case Bytes(bytes) => SameShape(bytes, image)
  }

  /**
   * `maxArea`: the image of the frame's size whose blue and red channels are
   * 0 and whose green channel is 255 exactly where a boolean mask is true.
   */
  function MaxArea(image: Grid<Pixel>, mask: MaskImage): (r: Grid<Pixel>)
    requires MaskShaped(mask, image)
    ensures SameShape(r, image)
    ensures forall i, j :: 0 <= i < |image| && 0 <= j < |image[i]| ==> r[i][j].b == 0 && r[i][j].r == 0
    ensures mask.Binary? ==> forall i, j :: 0 <= i < |image| && 0 <= j < |image[i]| ==>
      (r[i][j].g == 255 <==> mask.bits[i][j]) && (r[i][j].g == 0 <==> !mask.bits[i][j])
    ensures mask.Bytes? ==> forall i, j :: 0 <= i < |image| && 0 <= j < |image[i]| ==>
      r[i][j].g == (mask.bytes[i][j] as int * 255) % 256
  {
    seq(|image|, i requires 0 <= i < |image| =>
      seq(|image[i]|, j requires 0 <= j < |image[i]| => Pixel(0, GreenLevel(mask, i, j), 0)))
  }

  /** A 255 cell of a `uint8` mask would come out green level 1, not 255. */
  lemma ByteMaskWraps(image: Grid<Pixel>)
    requires HasShape(image, 1, 1)
    ensures MaxArea(image, Bytes([[255]]))[0][0].g == 1
  {
  }

  /**
   * When `getCentroid` finds no blob it hands back the `uint8` mask, but under
   * a consistent labelling that mask is all zero, so the wrap above never shows:
   * the green image is black.
   */
  lemma NoBlobGreenIsBlack(image: Grid<Pixel>, mask: Grid<Byte>, lab: Labelling)
    requires Labels(mask, lab) && SameShape(mask, image)
    requires GetCentroid(mask, lab).centroid.None?
    ensures var g := MaxArea(image, GetCentroid(mask, lab).mask);
      forall i, j :: 0 <= i < |image| && 0 <= j < |image[i]| ==> g[i][j] == Pixel(0, 0, 0)
  {
  }

  /**
   * `createBlend`: a copy of the frame with every pixel where the canvas is not
   * exactly white replaced by the canvas pixel.
   */
  function CreateBlend(canvas: Grid<Pixel>, frame: Grid<Pixel>): (r: Grid<Pixel>)
    requires SameShape(canvas, frame)
    ensures SameShape(r, frame)
    ensures forall i, j :: 0 <= i < |frame| && 0 <= j < |frame[i]| ==>
      (canvas[i][j] != White ==> r[i][j] == canvas[i][j]) && (canvas[i][j] == White ==> r[i][j] == frame[i][j])
  {
    var white := InRange(canvas, [255, 255, 255], [255, 255, 255]);
    seq(|frame|, i requires 0 <= i < |frame| =>
      seq(|frame[i]|, j requires 0 <= j < |frame[i]| => if white[i][j] == 0 then canvas[i][j] else frame[i][j]))
  }

  /** A blank canvas leaves the frame as it is. */
  lemma BlankBlendIsFrame(frame: Grid<Pixel>, h: nat, w: nat)
    requires HasShape(frame, h, w)
    ensures CreateBlend(Filled(h, w, White), frame) == frame
  {
    var r := CreateBlend(Filled(h, w, White), frame);
    forall i | 0 <= i < h
      ensures r[i] == frame[i]
    {
    }
  }

  /** Blending the same canvas twice changes nothing further. */
  lemma BlendIdempotent(canvas: Grid<Pixel>, frame: Grid<Pixel>)
    requires SameShape(canvas, frame)
    ensures CreateBlend(canvas, CreateBlend(canvas, frame)) == CreateBlend(canvas, frame)
  {
    var once := CreateBlend(canvas, frame);
    var twice := CreateBlend(canvas, once);
    forall i | 0 <= i < |frame|
      ensures twice[i] == once[i]
    {
    }
  }
}
