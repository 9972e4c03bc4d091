/**
 * Scene reasoning over detector output: the colour vote of a traffic-light crop and the
 * share of a box that lies on the drivable area.
 *
 * The colour vote works on the HSV form of the frame, which is an input here: the
 * conversion is per pixel, so converting the crop equals cropping the converted frame.
 */
module TrafficAnalyzer {
  import opened Wrappers
  import opened Constants
  import opened Tensors
  import opened ResultRenderer

  /** One pixel in OpenCV's 8-bit HSV encoding (hue 0..180, saturation and value 0..255). */
  datatype Hsv = Hsv(h: int, s: int, v: int)

  /** A frame: rows of pixels, all rows of one width. */
  type HsvImage = g: seq<seq<Hsv>> | IsRect(g) witness []

  /** `cv2.inRange` with the red bounds: hue 0..10 or 160..180, saturation and value 70..255. */
  predicate InRedBand(p: Hsv) {
    ((0 <= p.h <= 10) || (160 <= p.h <= 180)) && 70 <= p.s <= 255 && 70 <= p.v <= 255
  }

  /** Yellow: hue 15..40, saturation and value 70..255. */
  predicate InYellowBand(p: Hsv) {
    15 <= p.h <= 40 && 70 <= p.s <= 255 && 70 <= p.v <= 255
  }

  /** Green: hue 35..95, saturation and value 40..255. */
  predicate InGreenBand(p: Hsv) {
    35 <= p.h <= 95 && 40 <= p.s <= 255 && 40 <= p.v <= 255
  }

  /**
   * How the bands meet: a red pixel is in no other band, while yellow and green share the
   * hues 35..40, so a bright pixel there counts for both.
   */
  lemma BandsOverlap(p: Hsv)
    ensures InRedBand(p) ==> !InYellowBand(p) && !InGreenBand(p)
    ensures InYellowBand(p) && 35 <= p.h ==> InGreenBand(p)
    ensures InYellowBand(p) && InGreenBand(p) ==> 35 <= p.h <= 40
  {
  }

  /** The answers of the colour vote, with the dictionary keys the application uses for them. */
  datatype LightColor = Red | Yellow | Green | UnknownColor {
    function Key(): string {
      match this
      case Red => "red"
      case Yellow => "yellow"
      case Green => "green"
      case UnknownColor => "unknown"
    }
  }

  /** The fewest winning pixels a vote needs: `max(10, int(total * 0.01))`. */
  function MinPixels(total: nat): nat {
    if total / 100 > 10 then total / 100 else 10
  }

  /**
   * The vote over three pixel counts: the largest count wins, ties going to red, then
   * yellow, then green (the first maximum of the ordered dictionary); a winner with fewer
   * than `MinPixels(total)` pixels gives `UnknownColor`.
   */
  function Vote(red: nat, yellow: nat, green: nat, total: nat): (c: LightColor)
    ensures c == Red ==> red >= yellow && red >= green && red >= MinPixels(total)
    ensures c == Yellow ==> yellow > red && yellow >= green && yellow >= MinPixels(total)
    ensures c == Green ==> green > red && green > yellow && green >= MinPixels(total)
    ensures c == UnknownColor <==> red < MinPixels(total) && yellow < MinPixels(total) && green < MinPixels(total)
  {
    var winner := if yellow > red then (if green > yellow then Green else Yellow) else (if green > red then Green else Red);
    var count := match winner
      case Red => red
      case Yellow => yellow
      case Green => green
      case UnknownColor => 0;
    if count < MinPixels(total) then UnknownColor else winner
  }

  /** The crop `detect_color` looks at: the box truncated to integers and clipped to the frame. */
  function LightWindow(img: HsvImage, x1: real, y1: real, x2: real, y2: real): Window {
    Clip(Trunc(x1), Trunc(y1), Trunc(x2), Trunc(y2), Width(img), |img|)
  }

  /** `TrafficLightAnalyzer.detect_color`: the colour vote over the crop of the box. */
  function DetectColor(img: HsvImage, x1: real, y1: real, x2: real, y2: real): (c: LightColor)
    ensures LightWindow(img, x1, y1, x2, y2).IsEmpty() ==> c == UnknownColor
    ensures !LightWindow(img, x1, y1, x2, y2).IsEmpty() ==>
      var win := LightWindow(img, x1, y1, x2, y2);
      c == Vote(CountWindow(img, win, InRedBand), CountWindow(img, win, InYellowBand),
                CountWindow(img, win, InGreenBand), win.Area())
  {
    var win := LightWindow(img, x1, y1, x2, y2);
    if win.IsEmpty() then UnknownColor
    else
      var red := CountWindow(img, win, InRedBand);
      var yellow := CountWindow(img, win, InYellowBand);
      var green := CountWindow(img, win, InGreenBand);
      Vote(red, yellow, green, win.Area())
  }

  /** A crop of fewer than ten pixels can never be voted a colour. */
  lemma SmallCropIsUnknown(img: HsvImage, x1: real, y1: real, x2: real, y2: real)
    requires LightWindow(img, x1, y1, x2, y2).Area() < 10
    ensures DetectColor(img, x1, y1, x2, y2) == UnknownColor
  {
    var win := LightWindow(img, x1, y1, x2, y2);
    if !win.IsEmpty() {
      assert win.Area() == (win.x2 - win.x1) * (win.y2 - win.y1);
      assert MinPixels(win.Area()) == 10;
    }
  }

  lemma {:induction false} CountRowAll<T>(row: seq<T>, p: T -> bool)
    requires forall k :: 0 <= k < |row| ==> p(row[k])
    ensures CountRow(row, p) == |row|
  {
    if row != [] {
      CountRowAll(row[1..], p);
    }
  }

  lemma {:induction false} CountRowNone<T>(row: seq<T>, p: T -> bool)
    requires forall k :: 0 <= k < |row| ==> !p(row[k])
    ensures CountRow(row, p) == 0
  {
    if row != [] {
      CountRowNone(row[1..], p);
    }
  }

  /** Every pixel of the window satisfies `p`: all of them are counted. */
  lemma {:induction false} CountWindowAll<T>(g: seq<seq<T>>, r: Window, p: T -> bool)
    requires InGrid(g, r)
    requires forall i, j :: r.y1 <= i < r.y2 && r.x1 <= j < r.x2 ==> p(g[i][j])
    ensures CountWindow(g, r, p) == (r.x2 - r.x1) * (r.y2 - r.y1)
    decreases r.y2 - r.y1
  {
    if r.y1 < r.y2 {
      var row := g[r.y1][r.x1..r.x2];
      assert forall k :: 0 <= k < |row| ==> row[k] == g[r.y1][r.x1 + k];
      CountRowAll(row, p);
      CountWindowAll(g, r.(y1 := r.y1 + 1), p);
      assert (r.x2 - r.x1) * (r.y2 - r.y1) == (r.x2 - r.x1) + (r.x2 - r.x1) * (r.y2 - (r.y1 + 1));
    }
  }

  /** No pixel of the window satisfies `p`: the count is zero. */
  lemma {:induction false} CountWindowNone<T>(g: seq<seq<T>>, r: Window, p: T -> bool)
    requires InGrid(g, r)
    requires forall i, j :: r.y1 <= i < r.y2 && r.x1 <= j < r.x2 ==> !p(g[i][j])
    ensures CountWindow(g, r, p) == 0
    decreases r.y2 - r.y1
  {
    if r.y1 < r.y2 {
      var row := g[r.y1][r.x1..r.x2];
      assert forall k :: 0 <= k < |row| ==> row[k] == g[r.y1][r.x1 + k];
      CountRowNone(row, p);
      CountWindowNone(g, r.(y1 := r.y1 + 1), p);
    }
  }

  /** A crop of at least ten pixels that are all in the red band and in no other band is voted red. */
  lemma AllRedCropIsRed(img: HsvImage, x1: real, y1: real, x2: real, y2: real)
    requires var win := LightWindow(img, x1, y1, x2, y2);
      && !win.IsEmpty() && win.Area() >= 10
      && forall i, j :: win.y1 <= i < win.y2 && win.x1 <= j < win.x2 ==>
           InRedBand(img[i][j]) && !InYellowBand(img[i][j]) && !InGreenBand(img[i][j])
    ensures DetectColor(img, x1, y1, x2, y2) == Red
  {
    var win := LightWindow(img, x1, y1, x2, y2);
    CountWindowAll(img, win, InRedBand);
    CountWindowNone(img, win, InYellowBand);
    CountWindowNone(img, win, InGreenBand);
    var n := win.Area();
    assert n / 100 <= n;
  }

  /** `get_color_name_chinese`: the Chinese name of a colour key; any other key reads "未知". */
  function ColorNameChinese(color: string): (name: string)
    ensures name == "未知" <==> color !in {"red", "yellow", "green"}
  {
    if color == "red" then "红灯"
    else if color == "yellow" then "黄灯"
    else if color == "green" then "绿灯"
    else "未知"
  }

  /** `get_color_bgr`: the display colour of a colour key; any other key is grey. */
  function ColorBgr(color: string): (c: Bgr)
    ensures c == Bgr(128, 128, 128) <==> color !in {"red", "yellow", "green"}
    ensures color == "red" ==> c.r == 255 && c.g == 0 && c.b == 0
  {
    if color == "red" then Bgr(0, 0, 255)
    else if color == "yellow" then Bgr(0, 255, 255)
    else if color == "green" then Bgr(0, 255, 0)
    else Bgr(128, 128, 128)
  }

  /** The colour vote's answers have distinct display colours and names, unknown being grey and "未知". */
  lemma ColorTablesSeparateAnswers(a: LightColor, b: LightColor)
    requires a != b
    ensures ColorBgr(a.Key()) != ColorBgr(b.Key())
    ensures ColorNameChinese(a.Key()) != ColorNameChinese(b.Key())
    ensures ColorBgr(UnknownColor.Key()) == Bgr(128, 128, 128) && ColorNameChinese(UnknownColor.Key()) == "未知"
  {
  }

  /** A drivable-area mask: one byte per pixel, non-zero meaning drivable. */
  type ByteMask = g: seq<seq<int>> | IsRect(g) witness []

  predicate IsDrivable(x: int) {
    x > 0
  }

  /** The overlap ratio of `part` pixels out of `total` lies in [0, 1] and exceeds 0.3 exactly when 10·part > 3·total. */
  lemma RatioFacts(part: nat, total: nat)
    requires 1 <= total && part <= total
    ensures 0.0 <= part as real / total as real <= 1.0
    ensures part as real / total as real > 0.3 <==> 10 * part > 3 * total
  {
    var ratio := part as real / total as real;
    var t := total as real;
    var p := part as real;
    assert ratio * t == p;
    assert (1.0 - ratio) * t == t - p;
    if ratio > 0.3 {
      var d := ratio - 0.3;
      assert d * t > 0.0;
      assert d * t == p - 0.3 * t;
    } else {
      var d := 0.3 - ratio;
      assert d * t >= 0.0;
      assert d * t == 0.3 * t - p;
    }
  }

  /**
   * `DrivableAreaAnalyzer.draw_drivable_zone` for the 2-D byte masks the worker builds, the
   * analyzer's mask passed in: without a mask the image is returned as it is; a mask of the
   * image's shape is painted as one highlight; any other shape makes the boolean indexing raise.
   */
  function DrawDrivableZone(drivableMask: Option<ByteMask>, img: Image): (r: Result<Image>)
    ensures drivableMask.None? ==> r == Success(img)
    ensures drivableMask.Some? ==> (r.Success? <==> HasShape(drivableMask.value, img.height, img.width))
    ensures r.Success? && drivableMask.Some? ==>
      r.value == img.(strokes := img.strokes + [Zone(0, drivableMask.value)])
  {
    if drivableMask.None? then Success(img)
    else if !HasShape(drivableMask.value, img.height, img.width) then
      Failure("boolean index did not match indexed array")
    else Success(img.(strokes := img.strokes + [Zone(0, drivableMask.value)]))
  }

  /** Holds the drivable-area mask of one frame and answers overlap questions about boxes. */
  class DrivableAreaAnalyzer {
    var drivableMask: Option<ByteMask>

    constructor (drivableMask: Option<ByteMask>)
      ensures this.drivableMask == drivableMask
    {
      this.drivableMask := drivableMask;
    }

    /** `set_drivable_mask`: replaces the mask. */
    method SetDrivableMask(mask: Option<ByteMask>)
      modifies this
      ensures drivableMask == mask
    {
      drivableMask := mask;
    }

    /** The part of the mask `is_in_drivable_area` looks at. */
    function BoxWindow(x1: real, y1: real, x2: real, y2: real): Window
      reads this
      requires drivableMask.Some?
    {
      Clip(Trunc(x1), Trunc(y1), Trunc(x2), Trunc(y2), Width(drivableMask.value), |drivableMask.value|)
    }

    /**
     * `is_in_drivable_area`: with no mask or an empty clipped box, `(false, 0)`. Otherwise the
     * ratio of drivable pixels in the box, which lies in [0, 1], and whether it exceeds 0.3.
     */
    function IsInDrivableArea(x1: real, y1: real, x2: real, y2: real): (r: (bool, real))
      reads this
      ensures drivableMask.None? ==> r == (false, 0.0)
      ensures drivableMask.Some? && BoxWindow(x1, y1, x2, y2).IsEmpty() ==> r == (false, 0.0)
      ensures drivableMask.Some? && !BoxWindow(x1, y1, x2, y2).IsEmpty() ==>
        var win := BoxWindow(x1, y1, x2, y2);
        var drivable := CountWindow(drivableMask.value, win, IsDrivable);
        && r.1 == drivable as real / win.Area() as real
        && 0.0 <= r.1 <= 1.0
        && (r.0 <==> 10 * drivable > 3 * win.Area())
      ensures r.0 <==> r.1 > 0.3
    {
      if drivableMask.None? then (false, 0.0)
      else
        var win := BoxWindow(x1, y1, x2, y2);
        if win.IsEmpty() then (false, 0.0)
        else
          var drivable := CountWindow(drivableMask.value, win, IsDrivable);
          var total := win.Area();
          RatioFacts(drivable, total);
          var ratio := drivable as real / total as real;
          (ratio > 0.3, ratio)
    }
  }
}
