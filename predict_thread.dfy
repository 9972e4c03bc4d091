/**
 * The prediction worker: how it resets the model's display settings, pairs captured
 * segmentation masks with results, derives the drivable-area mask, decides whether a
 * pedestrian stands on the road, labels the secondary detector's boxes, composes the
 * warning and info banners and writes the label files.
 *
 * The detectors themselves are inputs: their boxes and masks are given, and the HSV
 * conversion and the mask dilation are passed in as functions.
 */
module PredictThread {
  import opened Wrappers
  import opened Text
  import opened Constants
  import opened Tensors
  import opened TrafficAnalyzer
  import opened ResultRenderer
  import opened Formatting

  // ---------------------------------------------------------------------------
  // Model configuration
  // ---------------------------------------------------------------------------

  /** The override keys `reset_model_config` removes, in the order it removes them. */
  const DisplayKeys: seq<string> := ["show_boxes", "show_labels", "show_conf", "show", "save", "line_width"]

  /** The parts of the detector object the worker touches: whether a predictor is cached, and the overrides dictionary (if the object has one). */
  class ModelHandle {
    var hasPredictor: bool
    var overrides: Option<map<string, string>>

    constructor (hasPredictor: bool, overrides: Option<map<string, string>>)
      ensures this.hasPredictor == hasPredictor && this.overrides == overrides
    {
      this.hasPredictor := hasPredictor;
      this.overrides := overrides;
    }

    /**
     * `reset_model_config`: drops the cached predictor and pops the six display keys from
     * the overrides; every other key keeps its value.
     */
    method ResetModelConfig()
      modifies this
      ensures !hasPredictor
      ensures overrides.Some? <==> old(overrides).Some?
      ensures overrides.Some? ==>
        && (forall key :: key in DisplayKeys ==> key !in overrides.value)
        && (forall key :: key in old(overrides).value && key !in DisplayKeys ==>
              key in overrides.value && overrides.value[key] == old(overrides).value[key])
        && (forall key :: key in overrides.value ==> key in old(overrides).value)
    {
      hasPredictor := false;
      if overrides.Some? {
        var m := overrides.value;
        for k := 0 to |DisplayKeys|
          invariant forall key :: key in DisplayKeys[..k] ==> key !in m
          invariant forall key :: key in old(overrides).value && key !in DisplayKeys[..k] ==>
            key in m && m[key] == old(overrides).value[key]
          invariant forall key :: key in m ==> key in old(overrides).value
        {
          m := m - {DisplayKeys[k]};
          assert DisplayKeys[..k + 1] == DisplayKeys[..k] + [DisplayKeys[k]];
        }
        assert DisplayKeys[..|DisplayKeys|] == DisplayKeys;
        overrides := Some(m);
      }
    }
  }

  // ---------------------------------------------------------------------------
  // Pairing captured masks with results
  // ---------------------------------------------------------------------------

  /** What the worker does with the masks its hook captured. */
  datatype Alignment =
      /** No masks were captured, or their number fits no rule. */
    | NoMasks
      /** One captured array, taken to hold every image of the run. */
    | Batch(mask: Array)
      /** One captured array per result, in order. */
    | PerImage(masks: seq<Array>)

  /**
   * The pairing rule shared by both save paths: exactly one captured mask is a batch, a
   * count equal to the number of results is one mask per image, and any other count
   * means no masks (the mismatch is only logged).
   */
  function AlignMasks(captured: seq<Array>, resultCount: nat): (a: Alignment)
    ensures a.Batch? <==> |captured| == 1
    ensures a.Batch? ==> a.mask == captured[0]
    ensures a.PerImage? <==> |captured| >= 2 && |captured| == resultCount
    ensures a.PerImage? ==> a.masks == captured
    ensures a.NoMasks? <==> |captured| == 0 || (|captured| >= 2 && |captured| != resultCount)
  {
    if |captured| == 0 then NoMasks
    else if |captured| == 1 then Batch(captured[0])
    else if |captured| == resultCount then PerImage(captured)
    else NoMasks
  }

  /** The masks the single-model path draws on image `i`: its own when given per image, else the whole capture. */
  function SingleMaskFor(a: Alignment, i: nat): (m: Option<Array>)
    requires a.PerImage? ==> i < |a.masks|
    ensures a.NoMasks? <==> m.None?
  {
    match a
    case NoMasks => None
    case Batch(t) => Some(t)
    case PerImage(ms) => Some(ms[i])
  }

  /**
   * The masks the dual-model path draws on image `i`: entry `i` of whatever was captured,
   * when it has one (for a batch array that is sample `i`).
   */
  function DualMaskFor(a: Alignment, i: nat): (m: Option<Array>)
    ensures a.NoMasks? ==> m.None?
    ensures a.Batch? ==> (m.Some? <==> i < a.mask.Length())
    ensures a.PerImage? ==> (m.Some? <==> i < |a.masks|)
  {
    match a
    case NoMasks => None
    case Batch(t) => if i < t.Length() then Some(Index(t, i)) else None
    case PerImage(ms) => if i < |ms| then Some(ms[i]) else None
  }

  /** With one mask per image both paths draw image `i` with the mask captured for it. */
  lemma PerImagePathsAgree(captured: seq<Array>, resultCount: nat, i: nat)
    requires |captured| >= 2 && |captured| == resultCount && i < resultCount
    ensures SingleMaskFor(AlignMasks(captured, resultCount), i) == Some(captured[i])
    ensures DualMaskFor(AlignMasks(captured, resultCount), i) == Some(captured[i])
  {
  }

  /**
   * With one captured (N, C, H, W) batch, the single-model path hands the whole batch to
   * `draw_all_segmentation_masks`, which draws sample 0 on every image, while the
   * dual-model path draws sample `i` on image `i`.
   */
  lemma BatchPathsDiffer(img: Image, b: seq<seq<Plane>>, resultCount: nat, i: nat)
    requires Rank4(b).Valid() && i < |b|
    ensures var a := AlignMasks([Rank4(b)], resultCount);
      && Rank3(b[0]).Valid() && Rank3(b[i]).Valid()
      && AllMasksResult(img, SingleMaskFor(a, i)) == AllMasksResult(img, Some(Rank3(b[0])))
      && DualMaskFor(a, i) == Some(Rank3(b[i]))
  {
    BatchDrawsFirstSample(img, b);
    assert Index(Rank4(b), i) == Rank3(b[i]);
  }

  // ---------------------------------------------------------------------------
  // The drivable-area mask
  // ---------------------------------------------------------------------------

  /** A drivable-area mask holding bytes, as `astype(np.uint8)` leaves it. */
  predicate AllBytes(g: seq<seq<int>>) {
    forall i, j :: 0 <= i < |g| && 0 <= j < |g[i]| ==> 0 <= g[i][j] < 256
  }

  /** `(plane * 255).astype(np.uint8)` cell by cell. */
  function ToBytes(p: Plane): (g: seq<seq<int>>)
    ensures |g| == |p| && forall i :: 0 <= i < |p| ==> |g[i]| == |p[i]|
    ensures forall i, j :: 0 <= i < |p| && 0 <= j < |p[i]| ==> g[i][j] == ToByte(p[i][j])
    ensures AllBytes(g)
  {
    seq(|p|, i requires 0 <= i < |p| => seq(|p[i]|, j requires 0 <= j < |p[i]| => ToByte(p[i][j]) as int))
  }

  /** The array `_extract_drivable_mask` reduces: entry `index` of a list (none past its end), or a batch array whatever the index. */
  function MaskSource(a: Alignment, index: nat): (t: Option<Array>)
    ensures a.Batch? ==> t == Some(a.mask)
    ensures a.PerImage? ==> (t.Some? <==> index < |a.masks|)
    ensures a.NoMasks? ==> t.None?
  {
    match a
    case NoMasks => None
    case Batch(m) => Some(m)
    case PerImage(ms) => if index < |ms| then Some(ms[index]) else None
  }

  /**
   * What `_extract_drivable_mask` returns: no mask when there is no array to read; the
   * array max-reduced over every leading axis and scaled to bytes otherwise. `Failure`
   * where numpy raises (a reduction over an empty axis) and for arrays of a rank the
   * model does not represent.
   */
  function DrivableMaskOf(a: Alignment, index: nat): Result<Option<ByteMask>> {
    match MaskSource(a, index)
    case None => Success(None)
    case Some(t) =>
      if t.OtherRank? then Failure("unsupported mask rank")
      else
        var reduced := ReduceAll(t, t.PlaneHeight(), t.PlaneWidth());
        if reduced.None? then Failure("zero-size array to reduction operation maximum which has no identity")
        else
          var p := reduced.value;
          assert HasShape(p, t.PlaneHeight(), t.PlaneWidth()) by { ReduceAllShape(t, t.PlaneHeight(), t.PlaneWidth()); }
          var g: ByteMask := ToBytes(p);
          Success(Some(g))
  }

  lemma {:induction false} ReduceAllShape(t: Tensor, h: nat, w: nat)
    requires t.Rank2? || t.Rank3? || t.Rank4?
    requires Shaped(t, h, w)
    requires ReduceAll(t, h, w).Some?
    ensures HasShape(ReduceAll(t, h, w).value, h, w)
    decreases t.Rank()
  {
    if !t.Rank2? {
      ReduceAllShape(ReduceLeading(t, h, w).value, h, w);
    }
  }

  /**
   * `_extract_drivable_mask`: selects the array, then takes the maximum over the first
   * axis while the array has more than two axes, and scales the (H, W) result to bytes.
   */
  method ExtractDrivableMask(a: Alignment, index: nat) returns (r: Result<Option<ByteMask>>)
    ensures r == DrivableMaskOf(a, index)
    ensures r.Success? && r.value.Some? ==>
      var t := MaskSource(a, index).value;
      HasShape(r.value.value, t.PlaneHeight(), t.PlaneWidth()) && AllBytes(r.value.value)
  {
    var source := MaskSource(a, index);
    if source.None? {
      return Success(None);
    }
    var t0 := source.value;
    if t0.OtherRank? {
      return Failure("unsupported mask rank");
    }
    var h, w := t0.PlaneHeight(), t0.PlaneWidth();
    var t: Tensor := t0;
    while t.Rank() > 2
      invariant t.Rank2? || t.Rank3? || t.Rank4?
      invariant Shaped(t, h, w)
      invariant ReduceAll(t, h, w) == ReduceAll(t0, h, w)
      decreases t.Rank()
    {
      var next := ReduceLeading(t, h, w);
      if next.None? {
        return Failure("zero-size array to reduction operation maximum which has no identity");
      }
      t := next.value;
    }
    assert HasShape(t.plane, h, w);
    r := Success(Some(ToBytes(t.plane)));
  }

  /** A (C, H, W) mask gives, at each pixel, a non-zero byte exactly when some channel scores at least 1/255 there. */
  lemma DrivablePixelOfChannels(ps: seq<Plane>, i: nat, j: nat)
    requires Rank3(ps).Valid() && ps != []
    requires forall c, y, x :: 0 <= c < |ps| && 0 <= y < |ps[c]| && 0 <= x < |ps[c][y]| ==> 0.0 <= ps[c][y][x] <= 1.0
    requires i < |ps[0]| && j < Width(ps[0])
    ensures DrivableMaskOf(Batch(Rank3(ps)), 0).Success?
    ensures DrivableMaskOf(Batch(Rank3(ps)), 0).value.Some?
    ensures var g := DrivableMaskOf(Batch(Rank3(ps)), 0).value.value;
      HasShape(g, |ps[0]|, Width(ps[0])) && (g[i][j] > 0 <==> exists c :: 0 <= c < |ps| && ps[c][i][j] >= 1.0 / 255.0)
  {
    var h, w := |ps[0]|, Width(ps[0]);
    ReduceAllRank3(ps, h, w);
    var m := MaxPlanes(ps, h, w);
    MaxPlanesAt(ps, h, w, i, j);
    var c0 :| 0 <= c0 < |ps| && ps[c0][i][j] == m[i][j];
    ToBytePositive(m[i][j]);
  }

  /** The sum of a mask's cells (`np.sum`). */
  function GridSum(g: seq<seq<int>>): int {
    if g == [] then 0 else RowSum(g[0]) + GridSum(g[1..])
  }

  function RowSum(row: seq<int>): int {
    if row == [] then 0 else row[0] + RowSum(row[1..])
  }

  predicate AnyPositive(g: seq<seq<int>>) {
    exists i, j :: 0 <= i < |g| && 0 <= j < |g[i]| && g[i][j] > 0
  }

  lemma {:induction false} RowSumPositive(row: seq<int>)
    requires forall j :: 0 <= j < |row| ==> row[j] >= 0
    ensures RowSum(row) >= 0
    ensures RowSum(row) > 0 <==> exists j :: 0 <= j < |row| && row[j] > 0
  {
    if row != [] {
      RowSumPositive(row[1..]);
      if exists j :: 0 <= j < |row| && row[j] > 0 {
        var j :| 0 <= j < |row| && row[j] > 0;
        if j > 0 { assert row[1..][j - 1] > 0; }
      }
    }
  }

  /** For a byte mask the sum is positive exactly when some pixel is drivable. */
  lemma {:induction false} GridSumPositive(g: seq<seq<int>>)
    requires AllBytes(g)
    ensures GridSum(g) >= 0
    ensures GridSum(g) > 0 <==> AnyPositive(g)
  {
    if g != [] {
      GridSumPositive(g[1..]);
      RowSumPositive(g[0]);
      if AnyPositive(g) {
        var i, j :| 0 <= i < |g| && 0 <= j < |g[i]| && g[i][j] > 0;
        if i > 0 { assert g[1..][i - 1][j] > 0; }
      }
      if AnyPositive(g[1..]) {
        var i, j :| 0 <= i < |g[1..]| && 0 <= j < |g[1..][i]| && g[1..][i][j] > 0;
        assert g[i + 1][j] > 0;
      }
    }
  }

  // ---------------------------------------------------------------------------
  // Pedestrian on the road
  // ---------------------------------------------------------------------------

  /** The dilation kernel's side: `max(30, int(min(h, w) * 0.05))`. */
  function KernelSize(imgH: nat, imgW: nat): (k: nat)
    ensures k >= 30
    ensures k >= Min(imgH, imgW) / 20
    ensures k == 30 || k == Min(imgH, imgW) / 20
  {
    var m := if imgH < imgW then imgH else imgW;
    if m / 20 > 30 then m / 20 else 30
  }

  /** `int(m * 0.05)` for a size m is the whole number of twentieths, m / 20. */
  lemma FivePercentTruncates(m: nat)
    ensures Trunc(m as real * 0.05) == m / 20
  {
    var q, r := m / 20, m % 20;
    assert m as real * 0.05 == q as real + r as real / 20.0;
  }

  /** The foot point of a box: the middle of its bottom edge, `int((x1 + x2) / 2)` truncating toward zero. */
  function FootX(x1: int, x2: int): int {
    Trunc((x1 + x2) as real / 2.0)
  }

  /** The positional rule used without a usable mask: below 40% of the height and within the middle 60% of the width. */
  predicate InRoadBand(footX: int, footY: int, imgH: nat, imgW: nat) {
    5 * footY > 2 * imgH && 5 * footX > imgW && 5 * footX < 4 * imgW
  }

  /** A dilation as `cv2.dilate` promises it: the same shape, and every set pixel stays set. */
  predicate Dilates(expanded: ByteMask, mask: ByteMask) {
    && HasShape(expanded, |mask|, Width(mask))
    && forall i, j :: 0 <= i < |mask| && 0 <= j < Width(mask) && mask[i][j] > 0 ==> expanded[i][j] > 0
  }

  /**
   * `_is_pedestrian_on_road`. With a mask whose sum is positive and a foot point inside the
   * dilated mask's bounds: the dilated mask is set at the foot and the foot is in the lower
   * half. Otherwise the positional rule decides. `dilate` stands for the elliptical-kernel
   * dilation with the given kernel side.
   */
  function IsPedestrianOnRoad(x1: int, y1: int, x2: int, y2: int, drivable: Option<ByteMask>,
                              imgH: nat, imgW: nat, dilate: (ByteMask, nat) -> ByteMask): (onRoad: bool)
    ensures var e := dilate(if drivable.Some? then drivable.value else [], KernelSize(imgH, imgW));
      drivable.Some? && GridSum(drivable.value) > 0 && 0 <= y2 < |e| && 0 <= FootX(x1, x2) < Width(e) ==>
        (onRoad <==> e[y2][FootX(x1, x2)] > 0 && 2 * y2 > imgH)
    ensures var e := dilate(if drivable.Some? then drivable.value else [], KernelSize(imgH, imgW));
      drivable.Some? && GridSum(drivable.value) > 0 && !(0 <= y2 < |e| && 0 <= FootX(x1, x2) < Width(e)) ==>
        (onRoad <==> InRoadBand(FootX(x1, x2), y2, imgH, imgW))
    ensures drivable.None? || GridSum(drivable.value) <= 0 ==> (onRoad <==> InRoadBand(FootX(x1, x2), y2, imgH, imgW))
  {
    var footX, footY := FootX(x1, x2), y2;
    if drivable.Some? && GridSum(drivable.value) > 0 then
      var expanded := dilate(drivable.value, KernelSize(imgH, imgW));
      if 0 <= footY < |expanded| && 0 <= footX < Width(expanded) then
        expanded[footY][footX] > 0 && 2 * footY > imgH
      else InRoadBand(footX, footY, imgH, imgW)
    else InRoadBand(footX, footY, imgH, imgW)
  }

  /** Both rules demand a foot point below 40% of the image height. */
  lemma OnRoadIsLow(x1: int, y1: int, x2: int, y2: int, drivable: Option<ByteMask>,
                    imgH: nat, imgW: nat, dilate: (ByteMask, nat) -> ByteMask)
    requires IsPedestrianOnRoad(x1, y1, x2, y2, drivable, imgH, imgW, dilate)
    ensures 5 * y2 > 2 * imgH
  {
  }

  /** Without a mask, or with an all-zero one, only the positional rule decides. */
  lemma NoMaskUsesBand(x1: int, y1: int, x2: int, y2: int, drivable: Option<ByteMask>,
                       imgH: nat, imgW: nat, dilate: (ByteMask, nat) -> ByteMask)
    requires drivable.None? || (AllBytes(drivable.value) && !AnyPositive(drivable.value))
    ensures IsPedestrianOnRoad(x1, y1, x2, y2, drivable, imgH, imgW, dilate) <==> InRoadBand(FootX(x1, x2), y2, imgH, imgW)
  {
    if drivable.Some? {
      GridSumPositive(drivable.value);
    }
  }

  /**
   * A foot point already on the drivable area, in the lower half of the image, is on the
   * road: the dilation keeps it set.
   */
  lemma FootOnMaskIsOnRoad(x1: int, y1: int, x2: int, y2: int, mask: ByteMask,
                           imgH: nat, imgW: nat, dilate: (ByteMask, nat) -> ByteMask)
    requires AllBytes(mask) && Dilates(dilate(mask, KernelSize(imgH, imgW)), mask)
    requires 0 <= y2 < |mask| && 0 <= FootX(x1, x2) < Width(mask) && mask[y2][FootX(x1, x2)] > 0
    requires 2 * y2 > imgH
    ensures IsPedestrianOnRoad(x1, y1, x2, y2, Some(mask), imgH, imgW, dilate)
  {
    GridSumPositive(mask);
  }

  /** A foot point on the bottom edge (y2 equal to the mask height) lies outside the mask and falls back to the positional rule. */
  lemma FootBelowMaskUsesBand(x1: int, y1: int, x2: int, mask: ByteMask,
                              imgH: nat, imgW: nat, dilate: (ByteMask, nat) -> ByteMask)
    requires Dilates(dilate(mask, KernelSize(imgH, imgW)), mask)
    ensures IsPedestrianOnRoad(x1, y1, x2, |mask|, Some(mask), imgH, imgW, dilate) <==>
      InRoadBand(FootX(x1, x2), |mask|, imgH, imgW)
  {
  }

  // ---------------------------------------------------------------------------
  // Detections and display flags
  // ---------------------------------------------------------------------------

  /**
   * One detected box: corners in pixels (`xyxy`), centre and size normalised by the image
   * size (`xywhn`), confidence and class id.
   */
  datatype Detection = Detection(x1: real, y1: real, x2: real, y2: real,
                                 cx: real, cy: real, bw: real, bh: real,
                                 conf: real, classId: nat)
  {
    /** `map(int, box.xyxy[0])`. */
    function Box(): (int, int, int, int) {
      (Trunc(x1), Trunc(y1), Trunc(x2), Trunc(y2))
    }
  }

  /** The run parameters the worker reads: `show_boxes`, `show_labels`, `show_conf`, `save` and `save_txt` (default true). */
  datatype Params = Params(showBoxes: bool, showLabels: bool, showConf: bool, save: bool, saveTxt: bool)

  /** What one primary box paints: outline and label in its palette colour, named by the fallback chain. */
  function PrimaryBoxStrokes(d: Detection, resultNames: Names, modelNames: Names, p: Params): seq<Stroke> {
    var (x1, y1, x2, y2) := d.Box();
    DetectionStrokes(x1, y1, x2, y2, GetColor(d.classId),
                     DetectionLabel(GetClassName(d.classId, resultNames, modelNames), d.conf, p.showConf),
                     p.showBoxes, p.showLabels)
  }

  /** The strokes on an image holding `painted` after `draw` has painted the first `n` boxes, in box order. */
  function PaintAll(painted: seq<Stroke>, boxes: seq<Detection>, n: nat, draw: Detection -> seq<Stroke>): seq<Stroke>
    requires n <= |boxes|
  {
    if n == 0 then painted else PaintAll(painted, boxes, n - 1, draw) + draw(boxes[n - 1])
  }

  /** Painting boxes keeps what was painted and adds the same number of strokes for every box. */
  lemma {:induction false} PaintAllKeeps(painted: seq<Stroke>, boxes: seq<Detection>, n: nat,
                                         draw: Detection -> seq<Stroke>, perBox: nat)
    requires n <= |boxes|
    requires forall d :: |draw(d)| == perBox
    ensures var r := PaintAll(painted, boxes, n, draw);
      && |r| == |painted| + n * perBox
      && forall i :: 0 <= i < |painted| ==> r[i] == painted[i]
  {
    if n > 0 {
      PaintAllKeeps(painted, boxes, n - 1, draw, perBox);
      var prev := PaintAll(painted, boxes, n - 1, draw);
      assert (n - 1) * perBox + perBox == n * perBox;
      forall i | 0 <= i < |painted| ensures (prev + draw(boxes[n - 1]))[i] == painted[i] {
        assert (prev + draw(boxes[n - 1]))[i] == prev[i];
      }
    }
  }

  /** Each primary box paints one stroke per enabled flag. */
  lemma PrimaryBoxCount(resultNames: Names, modelNames: Names, p: Params)
    ensures forall d ::
      |PrimaryBoxStrokes(d, resultNames, modelNames, p)| == (if p.showBoxes then 1 else 0) + (if p.showLabels then 1 else 0)
  {
  }

  /** The loop over the primary boxes: `draw_detection` on each, painting in place. */
  method DrawPrimary(canvas: Canvas, boxes: seq<Detection>, resultNames: Names, modelNames: Names, p: Params)
    modifies canvas
    ensures canvas.Snapshot() ==
      old(canvas.Snapshot()).(strokes := PaintAll(old(canvas.strokes), boxes, |boxes|, d => PrimaryBoxStrokes(d, resultNames, modelNames, p)))
  {
    ghost var start := canvas.strokes;
    for k := 0 to |boxes|
      invariant canvas.width == old(canvas.width) && canvas.height == old(canvas.height)
      invariant canvas.strokes == PaintAll(start, boxes, k, d => PrimaryBoxStrokes(d, resultNames, modelNames, p))
    {
      var d := boxes[k];
      var (x1, y1, x2, y2) := d.Box();
      var name := GetClassName(d.classId, resultNames, modelNames);
      canvas.DrawDetection(x1, y1, x2, y2, d.classId, d.conf, name, p.showBoxes, p.showLabels, p.showConf, None);
    }
  }

  // ---------------------------------------------------------------------------
  // Secondary detections: pedestrians and traffic lights
  // ---------------------------------------------------------------------------

  const OnRoadWarning: string := "警告: 行人出现在道路区域内!"
  const RedLightNotice: string := "提示: 检测到红灯"

  /** What the secondary detector's box turned out to be. */
  datatype Sighting = Pedestrian(onRoad: bool) | Light(color: LightColor) | OtherObject(classId: nat)

  /** The label text of a sighting. */
  function SightingText(k: Sighting): (text: string)
    ensures text != []
  {
    match k
    case Pedestrian(onRoad) => if onRoad then "Person-OnRoad" else "Person"
    case Light(c) => "Light-" + Capitalize(c.Key())
    case OtherObject(id) => UnknownPrefix + IntToString(id)
  }

  /** The box and label colour of a sighting: red or green pedestrians, the light's own colour, magenta otherwise. */
  function SightingColor(k: Sighting): Bgr {
    match k
    case Pedestrian(onRoad) => if onRoad then Bgr(0, 0, 255) else Bgr(0, 255, 0)
    case Light(c) => ColorBgr(c.Key())
    case OtherObject(_) => Bgr(255, 0, 255)
  }

  /** The warnings a sighting raises: one for a pedestrian on the road, one for a red light. */
  function SightingWarnings(k: Sighting): seq<string> {
    match k
    case Pedestrian(onRoad) => if onRoad then [OnRoadWarning] else []
    case Light(c) => if c == Red then [RedLightNotice] else []
    case OtherObject(_) => []
  }

  /**
   * Red marks a pedestrian on the road and a red light alike; a pedestrian off the road is
   * never red, and magenta is kept for the other classes.
   */
  lemma SightingColors(k: Sighting)
    ensures k.Pedestrian? ==> (SightingColor(k) == Bgr(0, 0, 255) <==> k.onRoad)
    ensures k == Light(Red) ==> SightingColor(k) == Bgr(0, 0, 255)
    ensures k.OtherObject? <==> SightingColor(k) == Bgr(255, 0, 255)
  {
  }

  /** At most one warning per box: the road warning exactly for a pedestrian on the road, the red-light notice exactly for a red light. */
  lemma SightingWarningCases(k: Sighting)
    ensures |SightingWarnings(k)| <= 1
    ensures SightingWarnings(k) == [OnRoadWarning] <==> k == Pedestrian(true)
    ensures SightingWarnings(k) == [RedLightNotice] <==> k == Light(Red)
  {
  }

  /** A light's label spells the vote's answer capitalised: "Light-Red" to "Light-Unknown". */
  lemma LightText(c: LightColor)
    ensures SightingText(Light(c)) == match c
      case Red => "Light-Red"
      case Yellow => "Light-Yellow"
      case Green => "Light-Green"
      case UnknownColor => "Light-Unknown"
  {
    CapitalizeOfLowercase(c.Key());
  }

  /** The label the worker draws for a secondary box: nothing unless labels are shown, the confidence only when asked for. */
  function SecondaryLabel(k: Sighting, conf: real, p: Params): (text: string)
    ensures text == "" <==> !p.showLabels
    ensures p.showLabels ==> text == DetectionLabel(SightingText(k), conf, p.showConf)
  {
    if p.showLabels then DetectionLabel(SightingText(k), conf, p.showConf) else ""
  }

  /** The inputs the secondary pass consults besides the boxes. */
  datatype SceneInputs = SceneInputs(drivable: Option<ByteMask>, imgH: nat, imgW: nat,
                                     hsvOf: Image -> HsvImage, dilate: (ByteMask, nat) -> ByteMask)

  /** The state the secondary pass accumulates: the image and the warning, light and pedestrian lists. */
  datatype Scene = Scene(img: Image, warnings: seq<string>, lights: seq<LightColor>, onRoad: nat)

  /**
   * How a secondary box is read: class 0 is a pedestrian, on the road or not; class 9 a
   * traffic light whose colour is voted on the image as drawn so far; anything else unknown.
   */
  function Classify(img: Image, d: Detection, inputs: SceneInputs): (k: Sighting)
    ensures k.Pedestrian? <==> d.classId == PersonOriginalId
    ensures k.Light? <==> d.classId == TrafficLightOriginalId
    ensures k.OtherObject? ==> k.classId == d.classId
  {
    var (x1, y1, x2, y2) := d.Box();
    if d.classId == PersonOriginalId then
      Pedestrian(IsPedestrianOnRoad(x1, y1, x2, y2, inputs.drivable, inputs.imgH, inputs.imgW, inputs.dilate))
    else if d.classId == TrafficLightOriginalId then
      Light(DetectColor(inputs.hsvOf(img), x1 as real, y1 as real, x2 as real, y2 as real))
    else OtherObject(d.classId)
  }

  /** One step of the secondary loop. */
  function LabelSighting(s: Scene, d: Detection, inputs: SceneInputs, p: Params): Scene {
    var k := Classify(s.img, d, inputs);
    var (x1, y1, x2, y2) := d.Box();
    var text := SecondaryLabel(k, d.conf, p);
    var drawn := DetectionStrokes(x1, y1, x2, y2, SightingColor(k), text, p.showBoxes, text != "" && p.showLabels);
    Scene(s.img.(strokes := s.img.strokes + drawn),
          s.warnings + SightingWarnings(k),
          s.lights + (if k.Light? then [k.color] else []),
          s.onRoad + (if k == Pedestrian(true) then 1 else 0))
  }

  /** The scene after the first `n` secondary boxes. */
  function LabelSightings(s: Scene, boxes: seq<Detection>, n: nat, inputs: SceneInputs, p: Params): Scene
    requires n <= |boxes|
  {
    if n == 0 then s else LabelSighting(LabelSightings(s, boxes, n - 1, inputs, p), boxes[n - 1], inputs, p)
  }

  /**
   * The secondary loop of `_merge_and_save_dual_results`: classifies each box, paints its
   * outline and label in place and collects warnings, light colours and on-road pedestrians.
   */
  method LabelSecondary(canvas: Canvas, boxes: seq<Detection>, inputs: SceneInputs, p: Params)
    returns (warnings: seq<string>, lights: seq<LightColor>, onRoad: nat)
    modifies canvas
    ensures var s := LabelSightings(Scene(old(canvas.Snapshot()), [], [], 0), boxes, |boxes|, inputs, p);
      canvas.Snapshot() == s.img && warnings == s.warnings && lights == s.lights && onRoad == s.onRoad
  {
    warnings, lights, onRoad := [], [], 0;
    for n := 0 to |boxes|
      invariant var s := LabelSightings(Scene(old(canvas.Snapshot()), [], [], 0), boxes, n, inputs, p);
        canvas.Snapshot() == s.img && warnings == s.warnings && lights == s.lights && onRoad == s.onRoad
    {
      warnings, lights, onRoad := LabelBox(canvas, boxes[n], inputs, p, warnings, lights, onRoad);
    }
  }

  /** One pass of the secondary loop: classify the box, collect its findings and paint it. */
  method LabelBox(canvas: Canvas, d: Detection, inputs: SceneInputs, p: Params,
                  warnings: seq<string>, lights: seq<LightColor>, onRoad: nat)
    returns (warnings': seq<string>, lights': seq<LightColor>, onRoad': nat)
    modifies canvas
    ensures var s := LabelSighting(Scene(old(canvas.Snapshot()), warnings, lights, onRoad), d, inputs, p);
      canvas.Snapshot() == s.img && warnings' == s.warnings && lights' == s.lights && onRoad' == s.onRoad
  {
    var (x1, y1, x2, y2) := d.Box();
    var k := Classify(canvas.Snapshot(), d, inputs);
    onRoad' := if k == Pedestrian(true) then onRoad + 1 else onRoad;
    lights' := if k.Light? then lights + [k.color] else lights;
    warnings' := warnings + SightingWarnings(k);
    var text := SecondaryLabel(k, d.conf, p);
    if p.showBoxes {
      canvas.DrawBox(x1, y1, x2, y2, SightingColor(k));
    }
    if text != "" && p.showLabels {
      canvas.DrawLabel(x1, y1, text, SightingColor(k));
    }
  }

  /** The number of red lights among the collected colours. */
  function RedCount(lights: seq<LightColor>): nat {
    if lights == [] then 0 else RedCount(lights[..|lights| - 1]) + (if lights[|lights| - 1] == Red then 1 else 0)
  }

  /** The number of boxes of one class among the first `n`. */
  function ClassCount(boxes: seq<Detection>, n: nat, classId: nat): nat
    requires n <= |boxes|
  {
    if n == 0 then 0 else ClassCount(boxes, n - 1, classId) + (if boxes[n - 1].classId == classId then 1 else 0)
  }

  /**
   * What the secondary loop collects: one warning per on-road pedestrian and per red light,
   * only the two warning texts, one colour per traffic-light box and at most one on-road
   * pedestrian per person box.
   */
  lemma {:induction false} SightingsTally(img: Image, boxes: seq<Detection>, n: nat, inputs: SceneInputs, p: Params)
    requires n <= |boxes|
    ensures var s := LabelSightings(Scene(img, [], [], 0), boxes, n, inputs, p);
      && |s.warnings| == s.onRoad + RedCount(s.lights)
      && (forall w :: w in s.warnings ==> w == OnRoadWarning || w == RedLightNotice)
      && |s.lights| == ClassCount(boxes, n, TrafficLightOriginalId)
      && s.onRoad <= ClassCount(boxes, n, PersonOriginalId)
  {
    if n > 0 {
      SightingsTally(img, boxes, n - 1, inputs, p);
      var prev := LabelSightings(Scene(img, [], [], 0), boxes, n - 1, inputs, p);
      SightingStep(prev, boxes[n - 1], inputs, p);
      assert ClassCount(boxes, n, TrafficLightOriginalId) ==
        ClassCount(boxes, n - 1, TrafficLightOriginalId) + (if boxes[n - 1].classId == TrafficLightOriginalId then 1 else 0);
      assert ClassCount(boxes, n, PersonOriginalId) ==
        ClassCount(boxes, n - 1, PersonOriginalId) + (if boxes[n - 1].classId == PersonOriginalId then 1 else 0);
    }
  }

  /** One secondary box changes each tally of the loop by at most its own contribution. */
  lemma SightingStep(prev: Scene, d: Detection, inputs: SceneInputs, p: Params)
    ensures var s := LabelSighting(prev, d, inputs, p);
      && |s.warnings| + prev.onRoad + RedCount(prev.lights) == |prev.warnings| + s.onRoad + RedCount(s.lights)
      && (forall w :: w in s.warnings ==> w in prev.warnings || w == OnRoadWarning || w == RedLightNotice)
      && |s.lights| == |prev.lights| + (if d.classId == TrafficLightOriginalId then 1 else 0)
      && s.onRoad <= prev.onRoad + (if d.classId == PersonOriginalId then 1 else 0)
  {
    var k := Classify(prev.img, d, inputs);
    var s := LabelSighting(prev, d, inputs, p);
    if k.Light? {
      assert s.lights[..|s.lights| - 1] == prev.lights;
    } else {
      assert s.lights == prev.lights;
    }
  }

  /**
   * The secondary loop keeps the frame's size and paints a fixed number of strokes per box:
   * one outline when boxes are shown and one label when labels are shown.
   */
  lemma SightingsCanvas(img: Image, boxes: seq<Detection>, n: nat, inputs: SceneInputs, p: Params)
    requires n <= |boxes|
    ensures var s := LabelSightings(Scene(img, [], [], 0), boxes, n, inputs, p);
      && s.img.width == img.width && s.img.height == img.height
      && |s.img.strokes| == |img.strokes| + (if p.showBoxes then n else 0) + (if p.showLabels then n else 0)
  {
    ghost var painted := (k: nat) =>
      k <= |boxes| &&
      var s := LabelSightings(Scene(img, [], [], 0), boxes, k, inputs, p);
      && s.img.width == img.width && s.img.height == img.height
      && |s.img.strokes| == |img.strokes| + (if p.showBoxes then k else 0) + (if p.showLabels then k else 0);
    forall k: nat | k < n && painted(k) ensures painted(k + 1) {
      SightingCanvasStep(LabelSightings(Scene(img, [], [], 0), boxes, k, inputs, p), boxes[k], inputs, p);
    }
    StepInduction(painted, n);
  }

  /** A property that holds at 0 and passes from each `k < n` to `k + 1` holds at `n`. */
  lemma {:induction false} StepInduction(P: nat -> bool, n: nat)
    requires P(0)
    requires forall k: nat :: k < n && P(k) ==> P(k + 1)
    ensures P(n)
  {
    if n > 0 {
      StepInduction(P, n - 1);
    }
  }

  /** One secondary box keeps the frame's size and adds its outline and its label. */
  lemma SightingCanvasStep(prev: Scene, d: Detection, inputs: SceneInputs, p: Params)
    ensures var s := LabelSighting(prev, d, inputs, p);
      && s.img.width == prev.img.width && s.img.height == prev.img.height
      && |s.img.strokes| == |prev.img.strokes| + (if p.showBoxes then 1 else 0) + (if p.showLabels then 1 else 0)
  {
  }

  // ---------------------------------------------------------------------------
  // Banners
  // ---------------------------------------------------------------------------

  function Keys(lights: seq<LightColor>): (keys: seq<string>)
    ensures |keys| == |lights| && forall k :: 0 <= k < |lights| ==> keys[k] == lights[k].Key()
  {
    seq(|lights|, k requires 0 <= k < |lights| => lights[k].Key())
  }

  /**
   * The info-banner items: the light colours in detection order when any light was seen,
   * then the number of pedestrians on the road when there is one.
   */
  function InfoItems(lights: seq<LightColor>, onRoad: nat): (items: seq<string>)
    ensures |items| == (if lights != [] then 1 else 0) + (if onRoad > 0 then 1 else 0)
    ensures lights != [] ==> items[0] == "红绿灯: " + Join(Keys(lights), ", ")
    ensures onRoad > 0 ==> items[|items| - 1] == "道路上行人: " + IntToString(onRoad) + " 人"
  {
    (if lights != [] then ["红绿灯: " + Join(Keys(lights), ", ")] else []) +
    (if onRoad > 0 then ["道路上行人: " + IntToString(onRoad) + " 人"] else [])
  }

  /** The warning banner, when there are warnings, then the info banner, when there are items. */
  function Decorate(img: Image, warnings: seq<string>, lights: seq<LightColor>, onRoad: nat): Image {
    var withWarnings := if warnings != [] then WarningBanner(img, warnings) else img;
    var items := InfoItems(lights, onRoad);
    if items != [] then InfoBanner(withWarnings, items) else withWarnings
  }

  /** The decorated frame is 40 rows taller per warning, 40 more when there is any info item, and keeps its width. */
  lemma DecorateHeight(img: Image, warnings: seq<string>, lights: seq<LightColor>, onRoad: nat)
    ensures Decorate(img, warnings, lights, onRoad).width == img.width
    ensures Decorate(img, warnings, lights, onRoad).height ==
      img.height + 40 * |warnings| + (if lights != [] || onRoad > 0 then 40 else 0)
  {
    BannersGeometry(img, warnings, InfoItems(lights, onRoad));
  }

  // ---------------------------------------------------------------------------
  // File names
  // ---------------------------------------------------------------------------

  /** The saved image's name: the last component of the result's source path, or "image_<i>.jpg" without one. */
  function ImageFileName(path: Option<string>, i: nat): string {
    if path.Some? then Basename(path.value) else "image_" + IntToString(i) + ".jpg"
  }

  /** `PurePath(name).stem`: the name without its last suffix; a leading or trailing dot starts no suffix. */
  function Stem(name: string): (r: string)
    ensures StartsWith(name, r)
  {
    var dot := LastDot(name, 0);
    if 0 < dot < |name| - 1 then
      assert name[..dot][..dot] == name[..dot];
      name[..dot]
    else name
  }

  /** The label file of an image: its stem with ".txt". */
  function LabelFileName(imageName: string): (r: string)
    ensures EndsWith(r, ".txt")
  {
    var r := Stem(imageName) + ".txt";
    assert r[|r| - 4..] == ".txt";
    r
  }

  /** A name made of a stem, a dot and a dot-free suffix has that stem. */
  lemma StemOfSuffixed(base: string, ext: string)
    requires base != [] && ext != [] && '.' !in ext
    ensures Stem(base + "." + ext) == base
  {
    var name := base + "." + ext;
    var dot := LastDot(name, 0);
    assert name[|base|] == '.';
    assert forall j :: |base| < j < |name| ==> name[j] == ext[j - |base| - 1];
    assert dot == |base|;
    assert name[..dot] == base;
  }

  /** Unnamed results are labelled "image_<i>.txt". */
  lemma UnnamedLabelFile(i: nat)
    ensures LabelFileName(ImageFileName(None, i)) == "image_" + IntToString(i) + ".txt"
  {
    StemOfSuffixed("image_" + IntToString(i), "jpg");
    assert "image_" + IntToString(i) + ".jpg" == ("image_" + IntToString(i)) + "." + "jpg";
  }

  /**
   * The label file of the dual-model path as written: its name comes from `filename`, which
   * is bound only when the image is saved, so with `save` off and `save_txt` on the step
   * raises.
   */
  function DualLabelFileAsWritten(p: Params, path: Option<string>, i: nat): (r: Result<Option<string>>)
    ensures r.Failure? <==> p.saveTxt && !p.save
  {
    if !p.saveTxt then Success(None)
    else if p.save then Success(Some(LabelFileName(ImageFileName(path, i))))
    else Failure("cannot access local variable 'filename' where it is not associated with a value")
  }

  /** The input that shows it: labels requested, image saving off. */
  lemma UnsavedImageLosesLabels(path: Option<string>, i: nat, showBoxes: bool, showLabels: bool, showConf: bool)
    ensures DualLabelFileAsWritten(Params(showBoxes, showLabels, showConf, false, true), path, i).Failure?
  {
  }

  /**
   * The label file of the dual-model path as evidently intended, as the single-model path
   * names it: whenever `save_txt` is on, named after the image whether or not it is saved.
   */
  function DualLabelFile(p: Params, path: Option<string>, i: nat): (r: Option<string>)
    ensures r.Some? <==> p.saveTxt
    ensures r.Some? ==> r.value == LabelFileName(ImageFileName(path, i))
  {
    if p.saveTxt then Some(LabelFileName(ImageFileName(path, i))) else None
  }

  /** Where the code as written does not raise, the intended file is the one it writes. */
  lemma DualLabelFileAgrees(p: Params, path: Option<string>, i: nat)
    requires DualLabelFileAsWritten(p, path, i).Success?
    ensures DualLabelFileAsWritten(p, path, i).value == DualLabelFile(p, path, i)
  {
  }

  // ---------------------------------------------------------------------------
  // Label files
  // ---------------------------------------------------------------------------

  /** The sentinel id a secondary box is stored under: person 999, traffic light 998, anything else 997. */
  function SpecialId(classId: int): (id: int)
    ensures id in {PersonClassId, TrafficLightClassId, OtherClassId}
    ensures id == PersonClassId <==> classId == PersonOriginalId
    ensures id == TrafficLightClassId <==> classId == TrafficLightOriginalId
  {
    if classId == PersonOriginalId then PersonClassId
    else if classId == TrafficLightOriginalId then TrafficLightClassId
    else OtherClassId
  }

  /** Stored secondary boxes read back as "Person", "TrafficLight" or "Other". */
  lemma SpecialIdNames(classId: int)
    ensures ClassName(SpecialId(classId)) ==
      if classId == PersonOriginalId then "Person" else if classId == TrafficLightOriginalId then "TrafficLight" else "Other"
  {
  }

  /** The fields of a label line: class id, centre, size and confidence, `show` standing for Python's float text. */
  function LabelFields(classId: int, d: Detection, show: real -> string): (fields: seq<string>)
    ensures |fields| == 6 && fields[0] == IntToString(classId) && fields[5] == show(d.conf)
  {
    [IntToString(classId), show(d.cx), show(d.cy), show(d.bw), show(d.bh), show(d.conf)]
  }

  /** `f"{cls} {x} {y} {w} {h} {conf}\n"`. */
  function LabelLine(classId: int, d: Detection, show: real -> string): string {
    Join(LabelFields(classId, d, show), " ") + "\n"
  }

  /** The text of consecutive lines. */
  function Concat(lines: seq<string>): string {
    if lines == [] then "" else Concat(lines[..|lines| - 1]) + lines[|lines| - 1]
  }

  function PrimaryLines(boxes: seq<Detection>, show: real -> string): (lines: seq<string>)
    ensures |lines| == |boxes| && forall k :: 0 <= k < |boxes| ==> lines[k] == LabelLine(boxes[k].classId, boxes[k], show)
  {
    seq(|boxes|, k requires 0 <= k < |boxes| => LabelLine(boxes[k].classId, boxes[k], show))
  }

  function SecondaryLines(boxes: seq<Detection>, show: real -> string): (lines: seq<string>)
    ensures |lines| == |boxes| && forall k :: 0 <= k < |boxes| ==> lines[k] == LabelLine(SpecialId(boxes[k].classId), boxes[k], show)
  {
    seq(|boxes|, k requires 0 <= k < |boxes| => LabelLine(SpecialId(boxes[k].classId), boxes[k], show))
  }

  /** Writes `lines` one after another after `content`. */
  method WriteLines(content: string, lines: seq<string>) returns (r: string)
    ensures r == content + Concat(lines)
  {
    r := content;
    for k := 0 to |lines|
      invariant r == content + Concat(lines[..k])
    {
      assert lines[..k + 1][..k] == lines[..k];
      r := r + lines[k];
    }
    assert lines[..|lines|] == lines;
  }

  /**
   * `_save_labels`: the primary boxes with their own class ids, then the secondary boxes
   * under their sentinel ids, one line each.
   */
  method SaveLabels(primary: seq<Detection>, secondary: seq<Detection>, show: real -> string) returns (content: string)
    ensures content == Concat(PrimaryLines(primary, show)) + Concat(SecondaryLines(secondary, show))
  {
    content := WriteLines("", PrimaryLines(primary, show));
    content := WriteLines(content, SecondaryLines(secondary, show));
  }

  // ---------------------------------------------------------------------------
  // One frame of the dual-model path
  // ---------------------------------------------------------------------------

  /** One frame's inputs: the original image, its source path, both detectors' boxes and the two `names` attributes. */
  datatype FrameInputs = FrameInputs(image: Image, path: Option<string>, primary: seq<Detection>, secondary: seq<Detection>,
                                     resultNames: Names, modelNames: Names)

  /** The foreign computations: HSV conversion, dilation and Python's float text. */
  datatype Foreign = Foreign(hsvOf: Image -> HsvImage, dilate: (ByteMask, nat) -> ByteMask, show: real -> string)

  /** What a frame leaves behind: the final image, the name it is saved under (if saved), and the label file's name and text. */
  datatype Frame = Frame(image: Image, savedAs: Option<string>, labels: Option<(string, string)>)

  /** Drawing masks never stops the frame: a failure is logged and the image kept. */
  function MaskedImage(img: Image, masks: Option<Array>): Image {
    if masks.None? then img
    else
      match AllMasksResult(img, masks)
      case Success(drawn) => drawn
      case Failure(_) => img
  }

  function PrimaryPainter(f: FrameInputs, p: Params): Detection -> seq<Stroke> {
    d => PrimaryBoxStrokes(d, f.resultNames, f.modelNames, p)
  }

  /** The drivable zone is drawn only for a mask with a positive sum; a shape mismatch raises. */
  function ZoneStep(img: Image, drivable: Option<ByteMask>): Result<Image> {
    if drivable.Some? && GridSum(drivable.value) > 0 then DrawDrivableZone(drivable, img) else Success(img)
  }

  /** The part of a dual-model frame after the drivable zone: secondary boxes, banners and the files. */
  function FinishFrame(zoned: Image, f: FrameInputs, drivable: Option<ByteMask>, i: nat, p: Params, x: Foreign): Frame {
    var inputs := SceneInputs(drivable, f.image.height, f.image.width, x.hsvOf, x.dilate);
    var s := LabelSightings(Scene(zoned, [], [], 0), f.secondary, |f.secondary|, inputs, p);
    var labelFile := DualLabelFile(p, f.path, i);
    Frame(Decorate(s.img, s.warnings, s.lights, s.onRoad),
          if p.save then Some(ImageFileName(f.path, i)) else None,
          if labelFile.Some? then
            Some((labelFile.value, Concat(PrimaryLines(f.primary, x.show)) + Concat(SecondaryLines(f.secondary, x.show))))
          else None)
  }

  /**
   * One iteration of `_merge_and_save_dual_results`: the drivable mask is extracted, the
   * masks, primary boxes, drivable zone and secondary boxes are drawn in that order, the
   * banners added, and the image and label file produced as the flags ask. A failure is an
   * exception that ends the run.
   */
  function DualFrame(f: FrameInputs, a: Alignment, i: nat, p: Params, x: Foreign): Result<Frame> {
    match DrivableMaskOf(a, i)
    case Failure(e) => Failure(e)
    case Success(drivable) =>
      var masked := MaskedImage(f.image, DualMaskFor(a, i));
      var primaryDone := masked.(strokes := PaintAll(masked.strokes, f.primary, |f.primary|, PrimaryPainter(f, p)));
      match ZoneStep(primaryDone, drivable)
      case Failure(e) => Failure(e)
      case Success(zoned) => Success(FinishFrame(zoned, f, drivable, i, p, x))
  }

  /** The steps of one dual-model frame, in the order the worker takes them. */
  method MergeFrame(f: FrameInputs, a: Alignment, i: nat, p: Params, x: Foreign) returns (r: Result<Frame>)
    ensures r == DualFrame(f, a, i, p, x)
  {
    var extracted := ExtractDrivableMask(a, i);
    if extracted.Failure? {
      return Failure(extracted.error);
    }
    var drivable := extracted.value;
    var img := f.image;
    var masks := DualMaskFor(a, i);
    if masks.Some? {
      var drawn := DrawAllSegmentationMasks(img, masks);
      if drawn.Success? {
        img := drawn.value;
      }
    }
    assert img == MaskedImage(f.image, masks);
    var canvas := new Canvas(img);
    DrawPrimary(canvas, f.primary, f.resultNames, f.modelNames, p);
    img := canvas.Snapshot();
    var zoned := ZoneStep(img, drivable);
    if zoned.Failure? {
      return Failure(zoned.error);
    }
    var frame := FinishDualFrame(zoned.value, f, drivable, i, p, x);
    return Success(frame);
  }

  /** The secondary pass, the banners and the files of one dual-model frame. */
  method FinishDualFrame(zoned: Image, f: FrameInputs, drivable: Option<ByteMask>, i: nat, p: Params, x: Foreign)
    returns (frame: Frame)
    ensures frame == FinishFrame(zoned, f, drivable, i, p, x)
  {
    var painter := new Canvas(zoned);
    var inputs := SceneInputs(drivable, f.image.height, f.image.width, x.hsvOf, x.dilate);
    var warnings, lights, onRoad := LabelSecondary(painter, f.secondary, inputs, p);
    var out := Decorate(painter.Snapshot(), warnings, lights, onRoad);
    var labels: Option<(string, string)> := None;
    var labelFile := DualLabelFile(p, f.path, i);
    if labelFile.Some? {
      var content := SaveLabels(f.primary, f.secondary, x.show);
      labels := Some((labelFile.value, content));
    }
    frame := Frame(out, if p.save then Some(ImageFileName(f.path, i)) else None, labels);
  }

  /** The results of `step(0)`, ..., `step(n - 1)` taken in turn; the first failure ends the run. */
  function RunSteps<T>(n: nat, step: nat --> Result<T>): Result<seq<T>>
    requires forall k :: 0 <= k < n ==> step.requires(k)
  {
    if n == 0 then Success([])
    else
      match RunSteps(n - 1, step)
      case Failure(e) => Failure(e)
      case Success(done) =>
        match step(n - 1)
        case Failure(e) => Failure(e)
        case Success(v) => Success(done + [v])
  }

  /** A run that succeeds holds one value per step. */
  lemma {:induction false} RunStepsLength<T>(n: nat, step: nat --> Result<T>)
    requires forall k :: 0 <= k < n ==> step.requires(k)
    ensures RunSteps(n, step).Success? ==> |RunSteps(n, step).value| == n
  {
    if n > 0 {
      RunStepsLength(n - 1, step);
    }
  }

  /** When every step succeeds, the run holds their values in order. */
  lemma {:induction false} RunStepsOfValues<T>(n: nat, step: nat --> Result<T>, done: seq<T>)
    requires |done| == n
    requires forall k :: 0 <= k < n ==> step.requires(k) && step(k) == Success(done[k])
    ensures RunSteps(n, step) == Success(done)
  {
    if n > 0 {
      RunStepsOfValues(n - 1, step, done[..n - 1]);
      assert done[..n - 1] + [done[n - 1]] == done;
    }
  }

  /** Appending the value of the next successful step keeps the values matching their steps. */
  lemma AppendSuccess<T>(done: seq<T>, v: T, step: nat --> Result<T>)
    requires forall k :: 0 <= k <= |done| ==> step.requires(k)
    requires forall k :: 0 <= k < |done| ==> step(k) == Success(done[k])
    requires step(|done|) == Success(v)
    ensures forall k :: 0 <= k < |done| + 1 ==> step(k) == Success((done + [v])[k])
  {
  }

  /** When steps 0..i-1 succeed and step `i` fails, the whole run fails with step `i`'s error. */
  lemma {:induction false} RunStepsFirstFailure<T>(i: nat, n: nat, step: nat --> Result<T>, done: seq<T>)
    requires i < n && |done| == i
    requires forall k :: 0 <= k < n ==> step.requires(k)
    requires forall k :: 0 <= k < i ==> step(k) == Success(done[k])
    requires step(i).Failure?
    ensures RunSteps(n, step) == Failure(step(i).error)
    decreases n - i
  {
    if n == i + 1 {
      RunStepsOfValues(i, step, done);
    } else {
      RunStepsFirstFailure(i, n - 1, step, done);
    }
  }

  /** Frame `k` of the dual-model run: pair `k` handled with index `k`. */
  function DualStep(frames: seq<FrameInputs>, a: Alignment, p: Params, x: Foreign): (step: nat --> Result<Frame>)
    ensures forall k :: 0 <= k < |frames| ==> step.requires(k)
  {
    (k: nat) requires k < |frames| => DualFrame(frames[k], a, k, p, x)
  }

  /**
   * `_merge_and_save_dual_results`: pairs the captured masks with the `resultCount`
   * primary results, then handles the paired frames in order, frame `i` with index `i`.
   */
  method MergeAndSaveDualResults(frames: seq<FrameInputs>, resultCount: nat, captured: seq<Array>, p: Params, x: Foreign)
    returns (r: Result<seq<Frame>>)
    ensures r == RunSteps(|frames|, DualStep(frames, AlignMasks(captured, resultCount), p, x))
  {
    var a := AlignMasks(captured, resultCount);
    ghost var step := DualStep(frames, a, p, x);
    var done: seq<Frame> := [];
    for i := 0 to |frames|
      invariant |done| == i
      invariant forall k :: 0 <= k < i ==> step(k) == Success(done[k])
    {
      var frame := MergeFrame(frames[i], a, i, p, x);
      assert frame == step(i);
      if frame.Failure? {
        RunStepsFirstFailure(i, |frames|, step, done);
        return Failure(frame.error);
      }
      AppendSuccess(done, frame.value, step);
      done := done + [frame.value];
    }
    RunStepsOfValues(|frames|, step, done);
    return Success(done);
  }

  // ---------------------------------------------------------------------------
  // The single-model path
  // ---------------------------------------------------------------------------

  /**
   * One iteration of `_save_single_model_results`: masks (a failure is logged and the
   * image kept), then the boxes; the image is always saved, and the label file lists the
   * boxes when `save_txt` is on.
   */
  function SingleFrame(f: FrameInputs, a: Alignment, i: nat, p: Params, show: real -> string): Frame
    requires a.PerImage? ==> i < |a.masks|
  {
    var masked := MaskedImage(f.image, SingleMaskFor(a, i));
    var name := ImageFileName(f.path, i);
    Frame(masked.(strokes := PaintAll(masked.strokes, f.primary, |f.primary|, PrimaryPainter(f, p))),
          Some(name),
          if p.saveTxt then Some((LabelFileName(name), Concat(PrimaryLines(f.primary, show)))) else None)
  }

  /**
   * The single-model path always saves the image under its own name, and writes a label
   * file, named after the image's stem, exactly when `save_txt` is on; it holds the primary
   * boxes alone.
   */
  lemma SingleFrameFiles(f: FrameInputs, a: Alignment, i: nat, p: Params, show: real -> string)
    requires a.PerImage? ==> i < |a.masks|
    ensures SingleFrame(f, a, i, p, show).savedAs == Some(ImageFileName(f.path, i))
    ensures SingleFrame(f, a, i, p, show).labels.Some? <==> p.saveTxt
    ensures p.saveTxt ==> SingleFrame(f, a, i, p, show).labels
                          == Some((LabelFileName(ImageFileName(f.path, i)), Concat(PrimaryLines(f.primary, show))))
  {
  }

  /**
   * `_save_single_model_results`, which runs only when `save` is on: pairs the captured
   * masks with the results, then saves every result in order.
   */
  method SaveSingleModelResults(frames: seq<FrameInputs>, captured: seq<Array>, p: Params, show: real -> string)
    returns (saved: seq<Frame>)
    ensures AlignMasks(captured, |frames|).PerImage? ==> |AlignMasks(captured, |frames|).masks| == |frames|
    ensures |saved| == |frames|
    ensures forall k :: 0 <= k < |frames| ==> saved[k] == SingleFrame(frames[k], AlignMasks(captured, |frames|), k, p, show)
  {
    var a := AlignMasks(captured, |frames|);
    ghost var want := (k: nat) => if k < |frames| then SingleFrame(frames[k], a, k, p, show) else Frame(Image(0, 0, []), None, None);
    saved := [];
    for i := 0 to |frames|
      invariant |saved| == i
      invariant forall k :: 0 <= k < i ==> saved[k] == want(k)
    {
      var frame := SaveSingleFrame(frames[i], a, i, p, show);
      AppendMatches(saved, frame, want);
      saved := saved + [frame];
    }
  }

  /** A prefix of the wanted values stays one when the next wanted value is appended. */
  lemma AppendMatches<T>(done: seq<T>, next: T, want: nat -> T)
    requires forall k :: 0 <= k < |done| ==> done[k] == want(k)
    requires next == want(|done|)
    ensures forall k :: 0 <= k <= |done| ==> (done + [next])[k] == want(k)
  {
  }

  /** The body of the single-model loop for frame `i`. */
  method SaveSingleFrame(f: FrameInputs, a: Alignment, i: nat, p: Params, show: real -> string) returns (frame: Frame)
    requires a.PerImage? ==> i < |a.masks|
    ensures frame == SingleFrame(f, a, i, p, show)
  {
    var img := f.image;
    var masks := SingleMaskFor(a, i);
    if masks.Some? {
      var drawn := DrawAllSegmentationMasks(img, masks);
      if drawn.Success? {
        img := drawn.value;
      }
    }
    assert img == MaskedImage(f.image, masks);
    var canvas := new Canvas(img);
    DrawPrimary(canvas, f.primary, f.resultNames, f.modelNames, p);
    var name := ImageFileName(f.path, i);
    var labels: Option<(string, string)> := None;
    if p.saveTxt {
      var content := WriteLines("", PrimaryLines(f.primary, show));
      assert content == Concat(PrimaryLines(f.primary, show));
      labels := Some((LabelFileName(name), content));
    }
    frame := Frame(canvas.Snapshot(), Some(name), labels);
  }
}
