/**
 * The analytics screen's reading of a results folder: YOLO-format label lines parsed
 * into detections, tallied per image, per class name and by confidence, and the summary
 * and chart data derived from the tallies.
 */
module AnalyticsInterface {
  import opened Wrappers
  import opened Text
  import opened Constants
  import opened PredictThread
  import opened VideoInterface

  // ---------------------------------------------------------------------------
  // One label line
  // ---------------------------------------------------------------------------

  /** A label line that counts as a detection: its class id and, when usable, its confidence. */
  datatype LineEntry = LineEntry(classId: int, conf: Option<real>)

  /**
   * The fields of a line (`line.strip().split()`) as `analyze_results` reads them: at
   * least five fields, the first an integer; a sixth field is kept as the confidence only
   * when it reads as a number in [0, 1].
   */
  function ParseFields(parts: seq<string>): (e: Option<LineEntry>)
    ensures |parts| < 5 ==> e.None?
    ensures |parts| >= 5 ==> (e.Some? <==> PyInt(parts[0]).Some?)
    ensures e.Some? ==> Some(e.value.classId) == PyInt(parts[0])
    ensures e.Some? ==> (e.value.conf.Some? <==>
              |parts| >= 6 && ParseFloatToken(parts[5]).Some? && 0.0 <= ParseFloatToken(parts[5]).value <= 1.0)
    ensures e.Some? && e.value.conf.Some? ==> e.value.conf == ParseFloatToken(parts[5])
  {
    if |parts| < 5 then None
    else
      match PyInt(parts[0])
      case None => None
      case Some(classId) =>
        var conf := if |parts| >= 6 then ParseFloatToken(parts[5]) else None;
        Some(LineEntry(classId, if conf.Some? && 0.0 <= conf.value <= 1.0 then conf else None))
  }

  /** A label line; `strip()` before `split()` changes nothing, as `split()` drops surrounding whitespace. */
  function ParseLine(line: string): Option<LineEntry> {
    ParseFields(Words(line))
  }

  function AsSeq(e: Option<LineEntry>): seq<LineEntry> {
    if e.Some? then [e.value] else []
  }

  /** The detections of a file's lines, in line order. */
  function Entries(lines: seq<string>): (es: seq<LineEntry>)
    ensures |es| <= |lines|
  {
    if lines == [] then [] else Entries(lines[..|lines| - 1]) + AsSeq(ParseLine(lines[|lines| - 1]))
  }

  /** Every confidence a detection keeps is in [0, 1]. */
  predicate ConfidencesChecked(es: seq<LineEntry>) {
    forall i :: 0 <= i < |es| && es[i].conf.Some? ==> 0.0 <= es[i].conf.value <= 1.0
  }

  lemma {:induction false} EntriesChecked(lines: seq<string>)
    ensures ConfidencesChecked(Entries(lines))
  {
    if lines != [] {
      var n := |lines| - 1;
      EntriesChecked(lines[..n]);
      var e := ParseLine(lines[n]);
      assert ConfidencesChecked(AsSeq(e));
      CheckedConcat(Entries(lines[..n]), AsSeq(e));
    }
  }

  lemma CheckedConcat(a: seq<LineEntry>, b: seq<LineEntry>)
    requires ConfidencesChecked(a) && ConfidencesChecked(b)
    ensures ConfidencesChecked(a + b)
  {
    forall i | 0 <= i < |a + b| && (a + b)[i].conf.Some? ensures 0.0 <= (a + b)[i].conf.value <= 1.0 {
      if i < |a| { assert (a + b)[i] == a[i]; } else { assert (a + b)[i] == b[i - |a|]; }
    }
  }

  /** A label file as the folder offers it. */
  datatype LabelFile = Missing | Unreadable | Lines(lines: seq<string>)

  /** The lines that get parsed: none for a missing file, or one whose reading raises. */
  function FileLines(f: LabelFile): seq<string> {
    if f.Lines? then f.lines else []
  }

  /** The detections of several files, file after file. */
  function AllEntries(files: seq<LabelFile>): seq<LineEntry> {
    if files == [] then [] else AllEntries(files[..|files| - 1]) + Entries(FileLines(files[|files| - 1]))
  }

  lemma {:induction false} AllEntriesChecked(files: seq<LabelFile>)
    ensures ConfidencesChecked(AllEntries(files))
  {
    if files != [] {
      var n := |files| - 1;
      AllEntriesChecked(files[..n]);
      EntriesChecked(FileLines(files[n]));
      CheckedConcat(AllEntries(files[..n]), Entries(FileLines(files[n])));
    }
  }

  // ---------------------------------------------------------------------------
  // Class counts: a dictionary in insertion order
  // ---------------------------------------------------------------------------

  /** `class_counts`: names with their counts, in the order the names were first seen. */
  type Counts = seq<(string, nat)>

  predicate Has(c: Counts, name: string) {
    c != [] && (c[0].0 == name || Has(c[1..], name))
  }

  /** No name has two entries, as in a dictionary. */
  predicate Distinct(c: Counts) {
    c == [] || (!Has(c[1..], c[0].0) && Distinct(c[1..]))
  }

  /** `class_counts.get(name, 0)`. */
  function Get(c: Counts, name: string): nat {
    if c == [] then 0 else if c[0].0 == name then c[0].1 else Get(c[1..], name)
  }

  /** The sum of the counts. */
  function Total(c: Counts): nat {
    if c == [] then 0 else c[0].1 + Total(c[1..])
  }

  /** `class_counts[name] = class_counts.get(name, 0) + 1`. */
  function Bump(c: Counts, name: string): Counts {
    if c == [] then [(name, 1)]
    else if c[0].0 == name then [(name, c[0].1 + 1)] + c[1..]
    else [c[0]] + Bump(c[1..], name)
  }

  /**
   * The name's count goes up by one and no other count changes; a new name goes last and
   * the others keep their places, so the names stay distinct.
   */
  lemma {:induction false} BumpCounts(c: Counts, name: string)
    ensures var r := Bump(c, name);
      && Get(r, name) == Get(c, name) + 1
      && (forall other :: other != name ==> Get(r, other) == Get(c, other))
      && (forall x :: Has(r, x) <==> Has(c, x) || x == name)
      && (Distinct(c) ==> Distinct(r))
      && |r| == (if Has(c, name) then |c| else |c| + 1)
      && (forall i :: 0 <= i < |c| ==> r[i].0 == c[i].0)
      && Total(r) == Total(c) + 1
  {
    var r := Bump(c, name);
    if c == [] {
      assert r[1..] == [];
    } else if c[0].0 == name {
      assert r[1..] == c[1..];
    } else {
      BumpCounts(c[1..], name);
      assert r[1..] == Bump(c[1..], name);
    }
  }

  /**
   * How many detections have a class of that name, `nameOf` being the class-name lookup:
   * the reference the tally is checked against.
   */
  function Named(es: seq<LineEntry>, name: string, nameOf: int -> string): nat {
    if es == [] then 0
    else Named(es[..|es| - 1], name, nameOf) + (if nameOf(es[|es| - 1].classId) == name then 1 else 0)
  }

  // ---------------------------------------------------------------------------
  // analyze_results
  // ---------------------------------------------------------------------------

  /** `total_detections`, `class_counts` and `confidences` as the loops build them. */
  datatype Tally = Tally(total: nat, classCounts: Counts, confidences: seq<real>)

  const NoDetections: Tally := Tally(0, [], [])

  /** One counted line: one more detection, one more of its class, and its confidence if kept. */
  function AddEntry(t: Tally, e: LineEntry, nameOf: int -> string): Tally {
    Tally(t.total + 1, Bump(t.classCounts, nameOf(e.classId)),
          if e.conf.Some? then t.confidences + [e.conf.value] else t.confidences)
  }

  /** The tally after counting `es` in order. */
  function AddEntries(t: Tally, es: seq<LineEntry>, nameOf: int -> string): Tally {
    if es == [] then t else AddEntry(AddEntries(t, es[..|es| - 1], nameOf), es[|es| - 1], nameOf)
  }

  lemma AddEntriesSnoc(t: Tally, es: seq<LineEntry>, e: LineEntry, nameOf: int -> string)
    ensures AddEntries(t, es + [e], nameOf) == AddEntry(AddEntries(t, es, nameOf), e, nameOf)
  {
    assert (es + [e])[..|es|] == es;
  }

  /** Counting two runs one after the other is counting them joined. */
  lemma {:induction false} AddEntriesConcat(t: Tally, a: seq<LineEntry>, b: seq<LineEntry>, nameOf: int -> string)
    ensures AddEntries(AddEntries(t, a, nameOf), b, nameOf) == AddEntries(t, a + b, nameOf)
  {
    if b == [] {
      assert a + b == a;
    } else {
      var n := |b| - 1;
      AddEntriesConcat(t, a, b[..n], nameOf);
      assert a + b == (a + b[..n]) + [b[n]];
      assert b == b[..n] + [b[n]];
      AddEntriesSnoc(t, a + b[..n], b[n], nameOf);
      AddEntriesSnoc(AddEntries(t, a, nameOf), b[..n], b[n], nameOf);
    }
  }

  /** The tally's parts agree with each other. */
  predicate Consistent(t: Tally) {
    && Total(t.classCounts) == t.total
    && Distinct(t.classCounts)
    && |t.confidences| <= t.total
    && forall k :: 0 <= k < |t.confidences| ==> 0.0 <= t.confidences[k] <= 1.0
  }

  /** Counting adds exactly the detections, each to its own class, and keeps the tally consistent. */
  lemma {:induction false} AddEntriesTally(t: Tally, es: seq<LineEntry>, name: string, nameOf: int -> string)
    requires ConfidencesChecked(es)
    ensures AddEntries(t, es, nameOf).total == t.total + |es|
    ensures Get(AddEntries(t, es, nameOf).classCounts, name) == Get(t.classCounts, name) + Named(es, name, nameOf)
    ensures Consistent(t) ==> Consistent(AddEntries(t, es, nameOf))
  {
    if es != [] {
      var n := |es| - 1;
      assert ConfidencesChecked(es[..n]) by {
        forall i | 0 <= i < n ensures es[..n][i] == es[i] { }
      }
      AddEntriesTally(t, es[..n], name, nameOf);
      BumpCounts(AddEntries(t, es[..n], nameOf).classCounts, nameOf(es[n].classId));
    }
  }

  /** What `analyze_results` found: the tally and `detections_per_image`. */
  datatype Analysis = Analysis(tally: Tally, perImage: seq<nat>)

  /** The label file of every image: the image's stem with ".txt" in the labels folder. */
  function LabelFiles(images: seq<string>, labelOf: string -> LabelFile): (files: seq<LabelFile>)
    ensures |files| == |images|
    ensures forall i :: 0 <= i < |images| ==> files[i] == labelOf(LabelFileName(images[i]))
  {
    seq(|images|, i requires 0 <= i < |images| => labelOf(LabelFileName(images[i])))
  }

  /** The detections of every file, one count per file. */
  function PerImage(files: seq<LabelFile>): (counts: seq<nat>)
    ensures |counts| == |files|
  {
    if files == [] then [] else PerImage(files[..|files| - 1]) + [|Entries(FileLines(files[|files| - 1]))|]
  }

  /**
   * `analyze_results`: no result when the folder has no image; without a labels folder
   * every image counts 0 and nothing is tallied; otherwise the tally of the images' label
   * files, read in image order.
   */
  function Analyze(images: seq<string>, hasLabels: bool, labelOf: string -> LabelFile): Option<Analysis> {
    if images == [] then None
    else if !hasLabels then Some(Analysis(NoDetections, seq(|images|, _ => 0)))
    else
      var files := LabelFiles(images, labelOf);
      Some(Analysis(AddEntries(NoDetections, AllEntries(files), ClassName), PerImage(files)))
  }

  function Sum(xs: seq<nat>): nat {
    if xs == [] then 0 else Sum(xs[..|xs| - 1]) + xs[|xs| - 1]
  }

  /** The per-image counts add up to the detections of all files. */
  lemma {:induction false} PerImageSum(files: seq<LabelFile>)
    ensures Sum(PerImage(files)) == |AllEntries(files)|
  {
    if files != [] {
      var n := |files| - 1;
      PerImageSum(files[..n]);
      var counts := PerImage(files);
      assert counts[..n] == PerImage(files[..n]);
    }
  }

  lemma {:induction false} ZerosSum(n: nat)
    ensures Sum(seq(n, _ => 0)) == 0
  {
    if n > 0 {
      ZerosSum(n - 1);
      assert seq(n, _ => 0)[..n - 1] == seq(n - 1, _ => 0);
    }
  }

  /**
   * The tallies agree: one count per image, the counts add up to the total, the class
   * counts add up to the total with each name counted as often as a detection of that
   * class occurs, and every kept confidence is in [0, 1].
   */
  lemma AnalysisTotals(images: seq<string>, hasLabels: bool, labelOf: string -> LabelFile, name: string)
    requires images != []
    ensures var a := Analyze(images, hasLabels, labelOf).value;
      && |a.perImage| == |images|
      && Sum(a.perImage) == a.tally.total
      && Consistent(a.tally)
      && Get(a.tally.classCounts, name) == if hasLabels then Named(AllEntries(LabelFiles(images, labelOf)), name, ClassName) else 0
  {
    if hasLabels {
      var files := LabelFiles(images, labelOf);
      PerImageSum(files);
      AllEntriesChecked(files);
      AddEntriesTally(NoDetections, AllEntries(files), name, ClassName);
    } else {
      ZerosSum(|images|);
    }
  }

  /** One more file adds its detections and its count. */
  lemma FilesStep(files: seq<LabelFile>, i: nat)
    requires i < |files|
    ensures AllEntries(files[..i + 1]) == AllEntries(files[..i]) + Entries(FileLines(files[i]))
    ensures PerImage(files[..i + 1]) == PerImage(files[..i]) + [|Entries(FileLines(files[i]))|]
  {
    assert files[..i + 1][..i] == files[..i];
  }

  /**
   * The loops of `analyze_results`: for each image, its label file is read line by line,
   * and every counted line adds to the image's count and to the tally.
   */
  method AnalyzeResults(images: seq<string>, hasLabels: bool, labelOf: string -> LabelFile) returns (r: Option<Analysis>)
    ensures r == Analyze(images, hasLabels, labelOf)
  {
    if images == [] {
      return None;
    }
    if !hasLabels {
      return Some(Analysis(NoDetections, seq(|images|, _ => 0)));
    }
    var files := LabelFiles(images, labelOf);
    var tally := NoDetections;
    var perImage: seq<nat> := [];
    for i := 0 to |images|
      invariant tally == AddEntries(NoDetections, AllEntries(files[..i]), ClassName)
      invariant perImage == PerImage(files[..i])
    {
      var file := files[i];
      FilesStep(files, i);
      var imageDetections;
      tally, imageDetections := ReadLabelLines(tally, FileLines(file), ClassName);
      AddEntriesConcat(NoDetections, AllEntries(files[..i]), Entries(FileLines(file)), ClassName);
      perImage := perImage + [imageDetections];
    }
    assert files[..|images|] == files;
    return Some(Analysis(tally, perImage));
  }

  /** The inner loop of `analyze_results` over one file's lines. */
  method ReadLabelLines(t: Tally, lines: seq<string>, nameOf: int -> string) returns (r: Tally, imageDetections: nat)
    ensures r == AddEntries(t, Entries(lines), nameOf)
    ensures imageDetections == |Entries(lines)|
  {
    r := t;
    imageDetections := 0;
    for j := 0 to |lines|
      invariant r == AddEntries(t, Entries(lines[..j]), nameOf)
      invariant imageDetections == |Entries(lines[..j])|
    {
      assert lines[..j + 1][..j] == lines[..j];
      var e := ParseLine(lines[j]);
      ghost var es := Entries(lines[..j]);
      if e.Some? {
        assert Entries(lines[..j + 1]) == es + [e.value];
        AddEntriesSnoc(t, es, e.value, nameOf);
        imageDetections := imageDetections + 1;
        var name := nameOf(e.value.classId);
        r := Tally(r.total + 1, Bump(r.classCounts, name),
                   if e.value.conf.Some? then r.confidences + [e.value.conf.value] else r.confidences);
      } else {
        assert Entries(lines[..j + 1]) == es;
      }
    }
    assert lines[..|lines|] == lines;
  }

  // ---------------------------------------------------------------------------
  // What the writers produce reads back
  // ---------------------------------------------------------------------------

  /**
   * A line written by the label writer counts as one detection of its class, keeping its
   * confidence when in [0, 1], provided the float text reads back as the float.
   */
  lemma LabelLineParses(classId: int, d: Detection, show: real -> string)
    requires forall x :: IsToken(show(x)) && ParseFloatToken(show(x)) == Some(x)
    ensures ParseLine(LabelLine(classId, d, show))
            == Some(LineEntry(classId, if 0.0 <= d.conf <= 1.0 then Some(d.conf) else None))
  {
    var fields := LabelFields(classId, d, show);
    var line := LabelLine(classId, d, show);
    assert Words(line) == fields by {
      IntToStringIsToken(classId);
      SixFields(fields);
    }
    assert PyInt(fields[0]) == Some(classId) by {
      PyIntOfIntToString(classId);
    }
    assert ParseFloatToken(fields[5]) == Some(d.conf);
    WrittenLine(line, fields, classId, d.conf);
  }

  /** A line of six fields whose first is an integer and whose last is a number counts as that class and confidence. */
  lemma WrittenLine(line: string, parts: seq<string>, classId: int, conf: real)
    requires Words(line) == parts
    requires |parts| == 6 && PyInt(parts[0]) == Some(classId) && ParseFloatToken(parts[5]) == Some(conf)
    ensures ParseLine(line) == Some(LineEntry(classId, if 0.0 <= conf <= 1.0 then Some(conf) else None))
  {
  }

  /** The parse of every line, counted or not. */
  function Parses(lines: seq<string>): (ps: seq<Option<LineEntry>>)
    ensures |ps| == |lines|
  {
    if lines == [] then [] else Parses(lines[..|lines| - 1]) + [ParseLine(lines[|lines| - 1])]
  }

  /** The detections among some parses, in order. */
  function Kept(ps: seq<Option<LineEntry>>): seq<LineEntry> {
    if ps == [] then [] else Kept(ps[..|ps| - 1]) + AsSeq(ps[|ps| - 1])
  }

  lemma {:induction false} EntriesAreKept(lines: seq<string>)
    ensures Entries(lines) == Kept(Parses(lines))
  {
    if lines != [] {
      var n := |lines| - 1;
      EntriesAreKept(lines[..n]);
      assert Parses(lines)[..n] == Parses(lines[..n]);
    }
  }

  lemma {:induction false} ParsesAt(lines: seq<string>, k: nat)
    requires k < |lines|
    ensures Parses(lines)[k] == ParseLine(lines[k])
  {
    var n := |lines| - 1;
    if k < n {
      ParsesAt(lines[..n], k);
    }
  }

  /** When every parse is a detection, there is one detection per parse, in order. */
  lemma {:induction false} KeptAll(ps: seq<Option<LineEntry>>)
    requires forall k :: 0 <= k < |ps| ==> ps[k].Some?
    ensures |Kept(ps)| == |ps|
    ensures forall k :: 0 <= k < |ps| ==> Kept(ps)[k] == ps[k].value
  {
    if ps != [] {
      var n := |ps| - 1;
      KeptAll(ps[..n]);
      var es := Kept(ps);
      forall k | 0 <= k < |ps| ensures es[k] == ps[k].value {
        if k < n {
          assert ps[..n][k] == ps[k];
        }
      }
    }
  }

  /** Read back, the primary lines of a label file are its boxes, each with its own class. */
  lemma PrimaryLinesReadBack(boxes: seq<Detection>, show: real -> string)
    requires forall x :: IsToken(show(x)) && ParseFloatToken(show(x)) == Some(x)
    ensures |Entries(PrimaryLines(boxes, show))| == |boxes|
    ensures forall k :: 0 <= k < |boxes| ==> Entries(PrimaryLines(boxes, show))[k].classId == boxes[k].classId
  {
    var lines := PrimaryLines(boxes, show);
    var ps := Parses(lines);
    forall k | 0 <= k < |ps| ensures ps[k].Some? && ps[k].value.classId == boxes[k].classId {
      ParsesAt(lines, k);
      LabelLineParses(boxes[k].classId, boxes[k], show);
    }
    KeptAll(ps);
    EntriesAreKept(lines);
  }

  /** A screenshot's label line counts as one detection of its class. */
  lemma ScreenshotLineParses(r: YoloRow)
    ensures ParseLine(RowLine(r)).Some? && ParseLine(RowLine(r)).value.classId == r.classId
  {
    RowLineFields(r);
  }

  // ---------------------------------------------------------------------------
  // update_summary and the bar chart
  // ---------------------------------------------------------------------------

  /** The position of the first largest count among the first `n`, as `max` with a key finds it. */
  function FirstMaxIndex(c: Counts, n: nat): (k: nat)
    requires 1 <= n <= |c|
    ensures k < n
    ensures forall j :: 0 <= j < n ==> c[j].1 <= c[k].1
    ensures forall j :: 0 <= j < k ==> c[j].1 < c[k].1
  {
    if n == 1 then 0
    else
      var k := FirstMaxIndex(c, n - 1);
      if c[n - 1].1 > c[k].1 then n - 1 else k
  }

  /** The most common class: the first name with the largest count, "" for an empty tally. */
  function MostCommon(c: Counts): (name: string)
    ensures c == [] ==> name == ""
    ensures c != [] ==> exists k :: 0 <= k < |c| && c[k].0 == name
                          && (forall j :: 0 <= j < |c| ==> c[j].1 <= c[k].1)
                          && (forall j :: 0 <= j < k ==> c[j].1 < c[k].1)
  {
    if c == [] then "" else c[FirstMaxIndex(c, |c|)].0
  }

  function MinReal(xs: seq<real>): (m: real)
    requires xs != []
    ensures m in xs && forall k :: 0 <= k < |xs| ==> m <= xs[k]
  {
    if |xs| == 1 then xs[0]
    else
      var rest := MinReal(xs[1..]);
      if xs[0] <= rest then xs[0] else rest
  }

  function MaxReal(xs: seq<real>): (m: real)
    requires xs != []
    ensures m in xs && forall k :: 0 <= k < |xs| ==> xs[k] <= m
  {
    if |xs| == 1 then xs[0]
    else
      var rest := MaxReal(xs[1..]);
      if xs[0] >= rest then xs[0] else rest
  }

  datatype Summary = Summary(average: real, mostCommon: string, confInfo: string)

  /** `update_summary`: detections per image (0 without images), the most common class, the confidence range. */
  function UpdateSummary(total: nat, c: Counts, confidences: seq<real>, numImages: nat): (s: Summary)
    ensures numImages == 0 ==> s.average == 0.0
    ensures numImages > 0 ==> s.average * (numImages as real) == total as real
    ensures s.mostCommon == MostCommon(c)
    ensures confidences == [] ==> s.confInfo == "置信度: N/A"
    ensures confidences != [] ==>
              s.confInfo == "置信度范围: " + FormatFixed(MinReal(confidences), 2) + " ~ " + FormatFixed(MaxReal(confidences), 2)
  {
    var average := if numImages > 0 then total as real / numImages as real else 0.0;
    var confInfo := if confidences == [] then "置信度: N/A"
                    else "置信度范围: " + FormatFixed(MinReal(confidences), 2) + " ~ " + FormatFixed(MaxReal(confidences), 2);
    Summary(average, MostCommon(c), confInfo)
  }

  /** `plot_detections_per_image`: the bars are the first twenty images' counts, in order. */
  function DisplayedBars(detections: seq<nat>): (bars: seq<nat>)
    ensures |bars| == if |detections| < 20 then |detections| else 20
    ensures bars == detections[..|bars|]
  {
    detections[..if |detections| < 20 then |detections| else 20]
  }
}
