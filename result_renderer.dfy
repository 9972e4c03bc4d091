/**
 * Drawing of detection results, described by what is drawn rather than by pixels: an
 * image is its size and the ordered list of strokes painted on it. Boxes and labels are
 * painted into the image in place; mask overlays and banners produce new images.
 */
module ResultRenderer {
  import opened Wrappers
  import opened Text
  import opened Constants
  import opened Tensors

  /** The 20 colours detections are drawn in, chosen by class id. */
  const Palette: seq<Bgr> := [
    Bgr(255, 0, 0), Bgr(0, 255, 0), Bgr(0, 0, 255), Bgr(255, 255, 0), Bgr(255, 0, 255),
    Bgr(0, 255, 255), Bgr(128, 0, 0), Bgr(0, 128, 0), Bgr(0, 0, 128), Bgr(128, 128, 0),
    Bgr(128, 0, 128), Bgr(0, 128, 128), Bgr(192, 192, 192), Bgr(255, 128, 0), Bgr(255, 0, 128),
    Bgr(128, 255, 0), Bgr(0, 255, 128), Bgr(128, 0, 255), Bgr(0, 128, 255), Bgr(255, 192, 0)]

  /** The blending weight of mask overlays. */
  const MaskAlpha: real := 0.3

  /** Rows added per warning line, and by the info banner. */
  const BannerRowHeight: nat := 40

  const WarningBackground: Bgr := Bgr(0, 0, 139)
  const InfoBackground: Bgr := Bgr(60, 60, 60)

  /** `get_color`: the palette entry of the class id taken modulo the palette size. */
  function GetColor(classId: int): (c: Bgr)
    ensures c in Palette
    ensures 0 <= classId < 20 ==> c == Palette[classId]
  {
    var i := classId % 20;
    assert |Palette| == 20;
    assert Palette[i] in Palette;
    Palette[i]
  }

  /** Class ids that differ by a multiple of 20 share a colour. */
  lemma GetColorPeriodic(classId: int, k: int)
    ensures GetColor(classId + 20 * k) == GetColor(classId)
  {
    assert (classId + 20 * k) % 20 == classId % 20;
  }

  /** Something painted on an image; `top` and `y` are rows, so stacking images moves them. */
  datatype Stroke =
      /** A rectangle outline (`draw_box`). */
    | Outline(x1: int, y1: int, x2: int, y2: int, color: Bgr)
      /** A filled label background whose bottom-left corner is (x, y), with white text (`draw_label`). */
    | Tag(x: int, y: int, text: string, color: Bgr)
      /** A translucent fill of the cells of `region`, plus its outer contours (`draw_segmentation_mask`). */
    | Overlay(top: int, region: seq<seq<bool>>, color: Bgr, alpha: real)
      /** The drivable-area highlight computed from a byte mask. */
    | Zone(top: int, mask: seq<seq<int>>)
      /** A strip of `rows` rows filled with one colour, starting at row `top`. */
    | Band(top: int, rows: nat, color: Bgr)
      /** White banner text whose top-left corner is (x, y). */
    | Caption(x: int, y: int, text: string)
  {
    /** The stroke moved down by `dy` rows. */
    function Shift(dy: int): Stroke {
      match this
      case Outline(x1, y1, x2, y2, c) => Outline(x1, y1 + dy, x2, y2 + dy, c)
      case Tag(x, y, t, c) => Tag(x, y + dy, t, c)
      case Overlay(top, r, c, a) => Overlay(top + dy, r, c, a)
      case Zone(top, m) => Zone(top + dy, m)
      case Band(top, n, c) => Band(top + dy, n, c)
      case Caption(x, y, t) => Caption(x, y + dy, t)
    }
  }

  function ShiftAll(strokes: seq<Stroke>, dy: int): (r: seq<Stroke>)
    ensures |r| == |strokes| && forall k :: 0 <= k < |strokes| ==> r[k] == strokes[k].Shift(dy)
  {
    seq(|strokes|, k requires 0 <= k < |strokes| => strokes[k].Shift(dy))
  }

  lemma ShiftTwice(strokes: seq<Stroke>, a: int, b: int)
    ensures ShiftAll(ShiftAll(strokes, a), b) == ShiftAll(strokes, a + b)
  {
    forall k | 0 <= k < |strokes| ensures ShiftAll(ShiftAll(strokes, a), b)[k] == ShiftAll(strokes, a + b)[k] {
      match strokes[k]
      case Outline(_, _, _, _, _) =>
      case Tag(_, _, _, _) =>
      case Overlay(_, _, _, _) =>
      case Zone(_, _) =>
      case Band(_, _, _) =>
      case Caption(_, _, _) =>
    }
  }

  /** An image: `height` rows of `width` pixels and what has been painted on it, in order. */
  datatype Image = Image(width: nat, height: nat, strokes: seq<Stroke>)

  /** An image array that the renderer's drawing calls paint into in place. */
  class Canvas {
    var width: nat
    var height: nat
    var strokes: seq<Stroke>

    /** `img.copy()`: a canvas holding `img`. */
    constructor (img: Image)
      ensures Snapshot() == img
    {
      width := img.width;
      height := img.height;
      strokes := img.strokes;
    }

    function Snapshot(): Image
      reads this
    {
      Image(width, height, strokes)
    }

    /** `draw_box`: paints the outline of the box. */
    method DrawBox(x1: int, y1: int, x2: int, y2: int, color: Bgr)
      modifies this
      ensures Snapshot() == old(Snapshot()).(strokes := old(strokes) + [Outline(x1, y1, x2, y2, color)])
    {
      strokes := strokes + [Outline(x1, y1, x2, y2, color)];
    }

    /** `draw_label`: paints a label whose bottom-left corner is the box's top-left corner. */
    method DrawLabel(x1: int, y1: int, text: string, color: Bgr)
      modifies this
      ensures Snapshot() == old(Snapshot()).(strokes := old(strokes) + [Tag(x1, y1, text, color)])
    {
      strokes := strokes + [Tag(x1, y1, text, color)];
    }

    /**
     * `draw_detection`: the box (when `showBox`) and then the label (when `showLabel`),
     * in the given colour or else the class id's palette colour.
     */
    method DrawDetection(x1: int, y1: int, x2: int, y2: int, classId: int, confidence: real,
                         className: string, showBox: bool, showLabel: bool, showConf: bool,
                         color: Option<Bgr>)
      modifies this
      ensures Snapshot() == old(Snapshot()).(strokes := old(strokes) +
        DetectionStrokes(x1, y1, x2, y2, color.GetOr(GetColor(classId)),
                         DetectionLabel(className, confidence, showConf), showBox, showLabel))
    {
      var c := if color.Some? then color.value else GetColor(classId);
      if showBox {
        DrawBox(x1, y1, x2, y2, c);
      }
      if showLabel {
        var text := DetectionLabel(className, confidence, showConf);
        DrawLabel(x1, y1, text, c);
      }
    }
  }

  /** The text of a detection label: the class name, then the confidence with two decimals when `showConf`. */
  function DetectionLabel(className: string, confidence: real, showConf: bool): (text: string)
    ensures StartsWith(text, className)
    ensures !showConf ==> text == className
    ensures showConf ==> text[|className|..] == " " + FormatFixed(confidence, 2)
  {
    var text := if showConf then className + " " + FormatFixed(confidence, 2) else className;
    assert text[..|className|] == className;
    text
  }

  /** A one-word class name and its confidence read back from a label: two words. */
  lemma DetectionLabelWords(className: string, confidence: real)
    requires IsToken(className)
    ensures Words(DetectionLabel(className, confidence, true)) == [className, FormatFixed(confidence, 2)]
  {
    FormatFixedIsToken(confidence, 2);
    var tokens := [className, FormatFixed(confidence, 2)];
    assert Join(tokens, " ") == className + " " + FormatFixed(confidence, 2);
    WordsOfJoin(tokens);
  }

  /** What `draw_detection` paints: an outline if `showBox`, then a label if `showLabel`. */
  function DetectionStrokes(x1: int, y1: int, x2: int, y2: int, color: Bgr, text: string,
                            showBox: bool, showLabel: bool): (s: seq<Stroke>)
    ensures |s| == (if showBox then 1 else 0) + (if showLabel then 1 else 0)
    ensures showBox ==> s[0] == Outline(x1, y1, x2, y2, color)
    ensures showLabel ==> s[|s| - 1] == Tag(x1, y1, text, color)
  {
    (if showBox then [Outline(x1, y1, x2, y2, color)] else []) +
    (if showLabel then [Tag(x1, y1, text, color)] else [])
  }

  /** Cells whose score exceeds 0.5. */
  function Threshold(p: Plane): (region: seq<seq<bool>>)
    ensures |region| == |p| && forall i :: 0 <= i < |p| ==> |region[i]| == |p[i]|
    ensures forall i, j :: 0 <= i < |p| && 0 <= j < |p[i]| ==> (region[i][j] <==> p[i][j] > 0.5)
  {
    seq(|p|, i requires 0 <= i < |p| => seq(|p[i]|, j requires 0 <= j < |p[i]| => p[i][j] > 0.5))
  }

  predicate AnySet(region: seq<seq<bool>>) {
    exists i, j :: 0 <= i < |region| && 0 <= j < |region[i]| && region[i][j]
  }

  /**
   * The binary mask `draw_segmentation_mask` paints: a 2-D mask thresholded at 0.5, a 3-D
   * mask reduced by its maximum over the first axis first. `None` where that maximum has
   * no channel to reduce over and numpy raises.
   */
  function Binarize(mask: Array): (r: Option<seq<seq<bool>>>)
    requires mask.Rank2? || mask.Rank3?
    ensures r.None? <==> mask.Rank3? && mask.planes == []
  {
    match mask
    case Rank2(p) => Some(Threshold(p))
    case Rank3(ps) =>
      if ps == [] then None else Some(Threshold(MaxPlanes(ps, mask.PlaneHeight(), mask.PlaneWidth())))
  }

  /** A pixel of a 3-D mask is painted exactly when some channel scores above 0.5 there. */
  lemma BinarizeRank3(ps: seq<Plane>, i: nat, j: nat)
    requires Rank3(ps).Valid() && ps != []
    requires i < Rank3(ps).PlaneHeight() && j < Rank3(ps).PlaneWidth()
    ensures Binarize(Rank3(ps)).value[i][j] <==> exists c :: 0 <= c < |ps| && ps[c][i][j] > 0.5
  {
    var h, w := Rank3(ps).PlaneHeight(), Rank3(ps).PlaneWidth();
    var m := MaxPlanes(ps, h, w);
    MaxPlanesAt(ps, h, w, i, j);
    if m[i][j] > 0.5 {
      var c :| 0 <= c < |ps| && ps[c][i][j] == m[i][j];
    }
  }

  /**
   * `draw_segmentation_mask` with the default alpha, colour and contours: an image with no
   * pixel over the threshold comes back unchanged; otherwise one overlay in the class id's
   * palette colour is added. Failures stand for the exceptions numpy raises: an empty
   * channel axis, or a mask whose shape differs from the image's.
   */
  function DrawSegmentationMask(img: Image, mask: Array, classId: int): (r: Result<Image>)
    requires mask.Rank2? || mask.Rank3?
    ensures r.Failure? <==> (Binarize(mask).None? ||
      (AnySet(Binarize(mask).value) && !HasShape(Binarize(mask).value, img.height, img.width)))
    ensures r.Success? && !AnySet(Binarize(mask).value) ==> r.value == img
    ensures r.Success? && AnySet(Binarize(mask).value) ==>
      r.value == img.(strokes := img.strokes + [Overlay(0, Binarize(mask).value, GetColor(classId), MaskAlpha)])
  {
    match Binarize(mask)
    case None => Failure("zero-size array to reduction operation maximum which has no identity")
    case Some(region) =>
      if !AnySet(region) then Success(img)
      else if !HasShape(region, img.height, img.width) then Failure("boolean index did not match indexed array")
      else Success(img.(strokes := img.strokes + [Overlay(0, region, GetColor(classId), MaskAlpha)]))
  }

  /** How `draw_all_segmentation_masks` reads its input. */
  datatype Channels = Unchanged | Raises | Layers(planes: seq<Plane>)

  /**
   * No masks, or an array of unsupported rank: the image is returned as it is. Rank 4: the
   * channels of the first sample (indexing an empty batch raises). Rank 3: its channels.
   * Rank 2: one channel.
   */
  function NormalizeMasks(segMasks: Option<Array>): (c: Channels)
    ensures c.Layers? ==> Rank3(c.planes).Valid()
  {
    match segMasks
    case None => Unchanged
    case Some(t) =>
      match t
      case Rank4(b) => if b == [] then Raises else Layers(b[0])
      case Rank3(ps) => Layers(ps)
      case Rank2(p) => Layers([p])
      case OtherRank(_) => Unchanged
  }

  /** The image after drawing channels 0..n-1 in order, channel k as class k; the first failure stops it. */
  function DrawLayers(img: Image, planes: seq<Plane>, n: nat): (r: Result<Image>)
    requires Rank3(planes).Valid() && n <= |planes|
  {
    if n == 0 then Success(img)
    else
      match DrawLayers(img, planes, n - 1)
      case Failure(e) => Failure(e)
      case Success(cur) => DrawSegmentationMask(cur, Rank2(planes[n - 1]), n - 1)
  }

  /** The overlays drawing channels 0..n-1 adds: one per channel with a pixel over 0.5, in channel order. */
  function LayerOverlays(planes: seq<Plane>, n: nat): seq<Stroke>
    requires n <= |planes|
  {
    if n == 0 then []
    else
      var region := Threshold(planes[n - 1]);
      LayerOverlays(planes, n - 1) + (if AnySet(region) then [Overlay(0, region, GetColor(n - 1), MaskAlpha)] else [])
  }

  /** When drawing succeeds, the image keeps its size and gains exactly the overlays of its non-empty channels. */
  lemma {:induction false} DrawLayersStrokes(img: Image, planes: seq<Plane>, n: nat)
    requires Rank3(planes).Valid() && n <= |planes|
    requires DrawLayers(img, planes, n).Success?
    ensures DrawLayers(img, planes, n).value ==
      img.(strokes := img.strokes + LayerOverlays(planes, n))
  {
    if n > 0 {
      assert DrawLayers(img, planes, n - 1).Success?;
      DrawLayersStrokes(img, planes, n - 1);
      var cur := DrawLayers(img, planes, n - 1).value;
      var region := Threshold(planes[n - 1]);
      var extra := if AnySet(region) then [Overlay(0, region, GetColor(n - 1), MaskAlpha)] else [];
      DrawPlaneStrokes(cur, planes[n - 1], n - 1);
      assert LayerOverlays(planes, n) == LayerOverlays(planes, n - 1) + extra;
      assert img.strokes + LayerOverlays(planes, n - 1) + extra == img.strokes + LayerOverlays(planes, n);
    }
  }

  /** Drawing one 2-D channel adds its overlay when some score is above 0.5, and nothing otherwise. */
  lemma DrawPlaneStrokes(cur: Image, p: Plane, k: int)
    requires Rank2(p).Valid()
    requires DrawSegmentationMask(cur, Rank2(p), k).Success?
    ensures DrawSegmentationMask(cur, Rank2(p), k).value == cur.(strokes := cur.strokes +
      (if AnySet(Threshold(p)) then [Overlay(0, Threshold(p), GetColor(k), MaskAlpha)] else []))
  {
    assert Binarize(Rank2(p)) == Some(Threshold(p));
    assert cur.strokes + [] == cur.strokes;
  }

  /** `draw_all_segmentation_masks` as the specification of the loop below. */
  function AllMasksResult(img: Image, segMasks: Option<Array>): Result<Image> {
    match NormalizeMasks(segMasks)
    case Unchanged => Success(img)
    case Raises => Failure("index 0 is out of bounds for axis 0 with size 0")
    case Layers(ps) => DrawLayers(img, ps, |ps|)
  }

  /** `draw_all_segmentation_masks`: draws every channel in index order, each as the class of its index. */
  method DrawAllSegmentationMasks(img: Image, segMasks: Option<Array>) returns (r: Result<Image>)
    ensures r == AllMasksResult(img, segMasks)
  {
    var channels := NormalizeMasks(segMasks);
    if channels.Unchanged? {
      return Success(img);
    } else if channels.Raises? {
      return Failure("index 0 is out of bounds for axis 0 with size 0");
    }
    var planes := channels.planes;
    var cur := img;
    for k := 0 to |planes|
      invariant DrawLayers(img, planes, k) == Success(cur)
    {
      var next := DrawSegmentationMask(cur, Rank2(planes[k]), k);
      DrawLayersStep(img, planes, k);
      if next.Failure? {
        FailureSticks(img, planes, k + 1, |planes|);
        return next;
      }
      cur := next.value;
    }
    return Success(cur);
  }

  lemma {:induction false} FailureSticks(img: Image, planes: seq<Plane>, k: nat, n: nat)
    requires Rank3(planes).Valid() && k <= n <= |planes|
    requires DrawLayers(img, planes, k).Failure?
    ensures DrawLayers(img, planes, n) == DrawLayers(img, planes, k)
    decreases n - k
  {
    if k < n {
      FailureStep(img, planes, k + 1);
      FailureSticks(img, planes, k + 1, n);
    }
  }

  /** Drawing one more channel after a success draws it onto the image so far. */
  lemma DrawLayersStep(img: Image, planes: seq<Plane>, k: nat)
    requires Rank3(planes).Valid() && k < |planes|
    requires DrawLayers(img, planes, k).Success?
    ensures Rank2(planes[k]).Valid()
    ensures DrawLayers(img, planes, k + 1) == DrawSegmentationMask(DrawLayers(img, planes, k).value, Rank2(planes[k]), k)
  {
  }

  lemma FailureStep(img: Image, planes: seq<Plane>, n: nat)
    requires Rank3(planes).Valid() && 0 < n <= |planes|
    requires DrawLayers(img, planes, n - 1).Failure?
    ensures DrawLayers(img, planes, n) == DrawLayers(img, planes, n - 1)
  {
  }

  /** A single (H, W) mask is drawn exactly like a (1, H, W) stack, as class 0. */
  lemma Rank2IsOneChannel(img: Image, p: Plane)
    requires Rank2(p).Valid()
    ensures AllMasksResult(img, Some(Rank2(p))) == AllMasksResult(img, Some(Rank3([p])))
  {
  }

  /** A batch is drawn as its first sample alone. */
  lemma BatchDrawsFirstSample(img: Image, b: seq<seq<Plane>>)
    requires Rank4(b).Valid() && b != []
    ensures Rank3(b[0]).Valid()
    ensures AllMasksResult(img, Some(Rank4(b))) == AllMasksResult(img, Some(Rank3(b[0])))
  {
    assert Rank3(b[0]).Valid() by {
      assert Shaped(Rank4(b), Rank4(b).PlaneHeight(), Rank4(b).PlaneWidth());
    }
  }

  /** Masks with no score above 0.5 leave the image as it was. */
  lemma EmptyMasksLeaveImage(img: Image, ps: seq<Plane>)
    requires Rank3(ps).Valid()
    requires forall c, i, j :: 0 <= c < |ps| && 0 <= i < |ps[c]| && 0 <= j < |ps[c][i]| ==> ps[c][i][j] <= 0.5
    ensures AllMasksResult(img, Some(Rank3(ps))) == Success(img)
  {
    EmptyLayers(img, ps, |ps|);
  }

  lemma {:induction false} EmptyLayers(img: Image, ps: seq<Plane>, n: nat)
    requires Rank3(ps).Valid() && n <= |ps|
    requires forall c, i, j :: 0 <= c < |ps| && 0 <= i < |ps[c]| && 0 <= j < |ps[c][i]| ==> ps[c][i][j] <= 0.5
    ensures DrawLayers(img, ps, n) == Success(img)
  {
    if n > 0 {
      EmptyLayers(img, ps, n - 1);
      var region := Threshold(ps[n - 1]);
      assert !AnySet(region);
    }
  }

  /** A `names` attribute: absent or falsy, a dictionary, or a list. */
  datatype Names = NoNames | DictNames(entries: map<int, string>) | ListNames(items: seq<string>)

  /** One step of the fallback: a dictionary entry counts only when non-empty; a list entry whenever the id is in range. */
  function LookupName(names: Names, classId: nat): Option<string> {
    match names
    case NoNames => None
    case DictNames(m) => if classId in m && m[classId] != "" then Some(m[classId]) else None
    case ListNames(l) => if classId < |l| then Some(l[classId]) else None
  }

  /**
   * `DetectionRenderer.get_class_name`: the shared class name, unless it is an
   * "Unknown-" name; then the result's names, then the model's names, then the
   * "Unknown-" name itself.
   */
  function GetClassName(classId: nat, resultNames: Names, modelNames: Names): (name: string)
    ensures IsKnownClass(classId) ==> name == ClassName(classId)
    ensures !IsKnownClass(classId) && LookupName(resultNames, classId).Some? ==> name == LookupName(resultNames, classId).value
    ensures !IsKnownClass(classId) && LookupName(resultNames, classId).None? && LookupName(modelNames, classId).Some? ==>
      name == LookupName(modelNames, classId).value
    ensures !IsKnownClass(classId) && LookupName(resultNames, classId).None? && LookupName(modelNames, classId).None? ==>
      name == ClassName(classId)
  {
    var name := ClassName(classId);
    if StartsWith(name, UnknownPrefix) then
      match LookupName(resultNames, classId)
      case Some(n) => n
      case None =>
        match LookupName(modelNames, classId)
        case Some(n) => n
        case None => name
    else name
  }

  /** An empty dictionary entry is skipped: the model's names, or the "Unknown-" name, are used instead. */
  lemma EmptyEntryFallsThrough(classId: nat, entries: map<int, string>, modelNames: Names)
    requires !IsKnownClass(classId) && classId in entries && entries[classId] == ""
    ensures GetClassName(classId, DictNames(entries), modelNames) ==
      if LookupName(modelNames, classId).Some? then LookupName(modelNames, classId).value else ClassName(classId)
  {
  }

  /** The warning banner's own rows: a dark-red strip with one line of text per warning, 40 rows apart. */
  function WarningStrip(warnings: seq<string>): (s: seq<Stroke>)
    ensures |s| == 1 + |warnings|
    ensures s[0] == Band(0, BannerRowHeight * |warnings|, WarningBackground)
    ensures forall k :: 0 <= k < |warnings| ==> s[k + 1] == Caption(10, 8 + k * BannerRowHeight, warnings[k])
  {
    [Band(0, BannerRowHeight * |warnings|, WarningBackground)] +
    seq(|warnings|, k requires 0 <= k < |warnings| => Caption(10, 8 + k * BannerRowHeight, warnings[k]))
  }

  /**
   * `draw_warning_banner`: no warnings leave the image as it is. Otherwise a strip of 40 rows
   * per warning is stacked on top, so the image keeps its width, grows by 40·n rows and sits
   * in the bottom rows, its strokes moved down by 40·n.
   */
  function WarningBanner(img: Image, warnings: seq<string>): (r: Image)
    ensures warnings == [] ==> r == img
    ensures warnings != [] ==>
      && r.width == img.width
      && r.height == img.height + BannerRowHeight * |warnings|
      && r.strokes == WarningStrip(warnings) + ShiftAll(img.strokes, BannerRowHeight * |warnings|)
  {
    if warnings == [] then img
    else
      var rows := BannerRowHeight * |warnings|;
      Image(img.width, rows + img.height, WarningStrip(warnings) + ShiftAll(img.strokes, rows))
  }

  /**
   * `draw_info_banner`: no items leave the image as it is. Otherwise 40 grey rows are stacked
   * below it, carrying the items joined by " | ".
   */
  function InfoBanner(img: Image, items: seq<string>): (r: Image)
    ensures items == [] ==> r == img
    ensures items != [] ==>
      && r.width == img.width
      && r.height == img.height + BannerRowHeight
      && |r.strokes| == |img.strokes| + 2
      && r.strokes[..|img.strokes|] == img.strokes
      && r.strokes[|img.strokes|..] ==
           [Band(img.height, BannerRowHeight, InfoBackground), Caption(10, img.height + 10, Join(items, " | "))]
  {
    if items == [] then img
    else
      var extra := [Band(img.height, BannerRowHeight, InfoBackground), Caption(10, img.height + 10, Join(items, " | "))];
      var r := Image(img.width, img.height + BannerRowHeight, img.strokes + extra);
      assert r.strokes[..|img.strokes|] == img.strokes;
      assert r.strokes[|img.strokes|..] == extra;
      r
  }

  /**
   * Both banners together: the output is 40 rows taller per warning plus 40 rows when there
   * are info items, and the original strokes sit right under the warning strip.
   */
  lemma BannersGeometry(img: Image, warnings: seq<string>, items: seq<string>)
    ensures var r := InfoBanner(WarningBanner(img, warnings), items);
      && r.width == img.width
      && r.height == img.height + BannerRowHeight * |warnings| + (if items == [] then 0 else BannerRowHeight)
      && (warnings == [] ==> r.strokes[..|img.strokes|] == img.strokes)
      && (warnings != [] ==>
            r.strokes[1 + |warnings|..1 + |warnings| + |img.strokes|] == ShiftAll(img.strokes, BannerRowHeight * |warnings|))
  {
    var w := WarningBanner(img, warnings);
    var r := InfoBanner(w, items);
    assert r.strokes[..|w.strokes|] == w.strokes;
    if warnings != [] {
      var shifted := ShiftAll(img.strokes, BannerRowHeight * |warnings|);
      assert w.strokes[1 + |warnings|..] == shifted;
      assert r.strokes[1 + |warnings|..1 + |warnings| + |img.strokes|] == w.strokes[1 + |warnings|..];
    }
  }
}
