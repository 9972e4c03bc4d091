/**
 * The live-preview worker of the video screen (`StreamThread`): its running, paused and
 * recording flags, one iteration of its frame loop, the codec fallback that opens a
 * recording, the mapping of the secondary detector's classes on live frames, and the
 * YOLO-format rows a screenshot writes.
 */
module VideoInterface {
  import opened Wrappers
  import opened Text
  import opened Constants
  import opened Tensors
  import opened ResultRenderer
  import opened Formatting
  import opened PredictThread

  // ---------------------------------------------------------------------------
  // Recording
  // ---------------------------------------------------------------------------

  /** An OpenCV video writer: its codec, its file, whether it opened, and the frames written to it. */
  datatype Writer = Writer(codec: string, path: string, isOpen: bool, frames: seq<Image>)

  /** The codecs `start_recording` tries, in order, each with the file extension it needs. */
  const Codecs: seq<(string, string)> := [("mp4v", ".mp4"), ("XVID", ".avi"), ("MJPG", ".avi")]

  /**
   * `str(Path(path).with_suffix(ext))`: the last component's stem followed by `ext`, in the
   * same directory; a path whose last component is empty raises.
   */
  function WithSuffix(path: string, ext: string): (r: Option<string>)
    ensures r.None? <==> NameStart(path, DriveLength(path)) == |path|
    ensures r.Some? ==> EndsWith(r.value, ext)
    ensures r.Some? ==> StartsWith(r.value, path[..NameStart(path, DriveLength(path))])
  {
    var start := NameStart(path, DriveLength(path));
    if start == |path| then None
    else
      var r := path[..start] + Stem(path[start..]) + ext;
      assert r[..start] == path[..start];
      assert r[|r| - |ext|..] == ext;
      Some(r)
  }

  /** Renaming a file whose name already has a different extension swaps only that extension. */
  lemma WithSuffixReplaces(dir: string, base: string, prior: string, ext: string)
    requires dir == [] || IsSeparator(dir[|dir| - 1])
    requires DriveLength(dir + base + "." + prior) <= |dir|
    requires base != [] && prior != [] && '.' !in prior
    requires forall j :: 0 <= j < |base| ==> !IsSeparator(base[j])
    requires forall j :: 0 <= j < |prior| ==> !IsSeparator(prior[j])
    ensures WithSuffix(dir + base + "." + prior, ext) == Some(dir + base + ext)
  {
    var name := base + "." + prior;
    var path := dir + name;
    assert path == dir + base + "." + prior;
    NameStartOfJoined(path, dir, name, DriveLength(path));
    assert path[|dir|..] == name;
    assert path[..|dir|] == dir;
    StemOfSuffixed(base, prior);
  }

  /** The last component starts right after the directory part, however far back the scan starts. */
  lemma {:induction false} NameStartOfJoined(path: string, dir: string, name: string, from: nat)
    requires path == dir + name && from <= |dir|
    requires dir == [] || IsSeparator(dir[|dir| - 1])
    requires name != [] && forall j :: 0 <= j < |name| ==> !IsSeparator(name[j])
    ensures NameStart(path, from) == |dir|
    decreases |dir| - from
  {
    if from < |dir| {
      NameStartOfJoined(path, dir, name, from + 1);
      if from + 1 == |dir| {
        assert IsSeparator(path[from]);
      }
    } else {
      assert forall j :: from <= j < |path| ==> path[j] == name[j - from];
    }
  }

  /** What became of `start_recording`: the writer left in place and, when one opened, its file. */
  datatype Recording = Recording(writer: Option<Writer>, recorded: Option<string>)

  /**
   * The file name an attempt uses: the path itself when it already has the codec's
   * extension, otherwise `with_suffix`, which fails on a path with an empty name.
   */
  function Renamed(path: string, ext: string): (r: Option<string>)
    ensures r.Some? ==> EndsWith(r.value, ext)
  {
    if EndsWith(path, ext) then Some(path) else WithSuffix(path, ext)
  }

  /**
   * Trying codecs `k..` on `path`: each attempt first renames the file to the codec's
   * extension with `rename` (`Renamed` in `start_recording`), then asks `opens` for a
   * writer (`None`: constructing it raised, and the previous writer stays); the first
   * writer that opens wins, and one that does not open still replaces the previous writer.
   */
  function TryCodecs(path: string, k: nat, writer: Option<Writer>, opens: (string, string) -> Option<bool>,
                     rename: (string, string) -> Option<string>): (r: Recording)
    requires k <= |Codecs|
    decreases |Codecs| - k
  {
    if k == |Codecs| then Recording(writer, None)
    else
      var (codec, ext) := Codecs[k];
      var renamed := rename(path, ext);
      if renamed.None? then TryCodecs(path, k + 1, writer, opens, rename)
      else
        match opens(codec, renamed.value)
        case None => TryCodecs(renamed.value, k + 1, writer, opens, rename)
        case Some(true) => Recording(Some(Writer(codec, renamed.value, true, [])), Some(renamed.value))
        case Some(false) => TryCodecs(renamed.value, k + 1, Some(Writer(codec, renamed.value, false, [])), opens, rename)
  }

  /**
   * A recording that starts writes to a fresh, open writer whose file has that codec's
   * extension, for any renaming that gives names with the asked-for extension.
   */
  lemma {:induction false} RecordingOpensWriter(path: string, k: nat, writer: Option<Writer>,
                                                opens: (string, string) -> Option<bool>,
                                                rename: (string, string) -> Option<string>)
    requires k <= |Codecs|
    requires forall p, e :: rename(p, e).Some? ==> EndsWith(rename(p, e).value, e)
    ensures var r := TryCodecs(path, k, writer, opens, rename);
      r.recorded.Some? ==>
        && r.writer.Some? && r.writer.value.isOpen && r.writer.value.frames == []
        && r.writer.value.path == r.recorded.value
        && (exists i :: k <= i < |Codecs| && Codecs[i].0 == r.writer.value.codec && EndsWith(r.recorded.value, Codecs[i].1))
        && opens(r.writer.value.codec, r.recorded.value) == Some(true)
    decreases |Codecs| - k
  {
    if k < |Codecs| {
      var (codec, ext) := Codecs[k];
      var renamed := rename(path, ext);
      if renamed.Some? {
        RecordingOpensWriter(renamed.value, k + 1, Some(Writer(codec, renamed.value, false, [])), opens, rename);
        RecordingOpensWriter(renamed.value, k + 1, writer, opens, rename);
        var r := TryCodecs(path, k, writer, opens, rename);
        if opens(codec, renamed.value) == Some(true) {
          assert Codecs[k].0 == codec && EndsWith(r.recorded.value, Codecs[k].1);
        }
      } else {
        RecordingOpensWriter(path, k + 1, writer, opens, rename);
      }
    }
  }

  /** When no codec opens a writer, nothing records, whatever the paths tried. */
  lemma {:induction false} NoCodecOpens(path: string, k: nat, writer: Option<Writer>,
                                        opens: (string, string) -> Option<bool>,
                                        rename: (string, string) -> Option<string>)
    requires k <= |Codecs|
    requires forall c, p :: opens(c, p) != Some(true)
    ensures TryCodecs(path, k, writer, opens, rename).recorded.None?
    ensures var w := TryCodecs(path, k, writer, opens, rename).writer; w.Some? ==> w == writer || !w.value.isOpen
    decreases |Codecs| - k
  {
    if k < |Codecs| {
      var (codec, ext) := Codecs[k];
      var renamed := rename(path, ext);
      if renamed.Some? {
        NoCodecOpens(renamed.value, k + 1, Some(Writer(codec, renamed.value, false, [])), opens, rename);
        NoCodecOpens(renamed.value, k + 1, writer, opens, rename);
      } else {
        NoCodecOpens(path, k + 1, writer, opens, rename);
      }
    }
  }

  /** MPEG-4 comes first: when it opens on the ".mp4" file, that is the recording. */
  lemma Mp4Preferred(path: string, writer: Option<Writer>, opens: (string, string) -> Option<bool>)
    requires EndsWith(path, ".mp4") && opens("mp4v", path) == Some(true)
    ensures TryCodecs(path, 0, writer, opens, Renamed) == Recording(Some(Writer("mp4v", path, true, [])), Some(path))
  {
    assert Renamed(path, ".mp4") == Some(path);
  }

  // ---------------------------------------------------------------------------
  // Live frames
  // ---------------------------------------------------------------------------

  /**
   * The class id and name a live secondary box is drawn with: person 999, traffic light
   * 998, and any other class keeps its own id under the name "Class-<id>".
   */
  function LiveMapping(classId: int): (r: (int, string))
    ensures classId == PersonOriginalId ==> r == (PersonClassId, "Person")
    ensures classId == TrafficLightOriginalId ==> r == (TrafficLightClassId, "TrafficLight")
    ensures classId != PersonOriginalId && classId != TrafficLightOriginalId ==>
              r.0 == classId && StartsWith(r.1, "Class-") && PyInt(r.1[6..]) == Some(classId)
  {
    if classId == PersonOriginalId then (PersonClassId, "Person")
    else if classId == TrafficLightOriginalId then (TrafficLightClassId, "TrafficLight")
    else
      var name := "Class-" + IntToString(classId);
      assert name[6..] == IntToString(classId);
      PyIntOfIntToString(classId);
      (classId, name)
  }

  /**
   * Live frames and saved label files agree on persons and traffic lights, but a box of
   * any other class keeps its id live while a label file stores it as 997.
   */
  lemma LiveAndFileMappingsDiffer(classId: int)
    ensures LiveMapping(classId).0 == SpecialId(classId) <==>
              classId == PersonOriginalId || classId == TrafficLightOriginalId || classId == OtherClassId
  {
  }

  /** A live secondary box: outline and label with its confidence, in the mapped id's palette colour. */
  function LiveBoxStrokes(d: Detection): seq<Stroke> {
    var (x1, y1, x2, y2) := d.Box();
    var (id, name) := LiveMapping(d.classId);
    DetectionStrokes(x1, y1, x2, y2, GetColor(id), DetectionLabel(name, d.conf, true), true, true)
  }

  /**
   * What the loop has for one frame: the frame read, the primary model's plotted result
   * (`None`: inference raised or found nothing), the captured masks, and the secondary
   * boxes (`None`: no secondary model, or its inference raised).
   */
  datatype LiveInputs = LiveInputs(frame: Image, plotted: Option<Image>, segMask: Option<Array>,
                                   secondary: Option<seq<Detection>>)

  /** Draws the secondary boxes, when there are any, onto `img`. */
  function WithSecondary(img: Image, secondary: Option<seq<Detection>>): Image {
    if secondary.None? then img
    else img.(strokes := PaintAll(img.strokes, secondary.value, |secondary.value|, LiveBoxStrokes))
  }

  /**
   * The frame shown and recorded: the raw frame when inference fails, else the plotted
   * result with the masks and the secondary boxes; a mask failure is caught by the outer
   * handler after the plot, which skips the secondary boxes.
   */
  function ProcessedFrame(inputs: LiveInputs): Image {
    if inputs.plotted.None? then inputs.frame
    else if inputs.segMask.None? then WithSecondary(inputs.plotted.value, inputs.secondary)
    else
      match AllMasksResult(inputs.plotted.value, inputs.segMask)
      case Failure(_) => inputs.plotted.value
      case Success(masked) => WithSecondary(masked, inputs.secondary)
  }

  /** Every live secondary box adds an outline and a label, and keeps what was drawn. */
  lemma LiveBoxesAddTwoStrokes(img: Image, boxes: seq<Detection>)
    ensures var r := WithSecondary(img, Some(boxes));
      && r.width == img.width && r.height == img.height
      && |r.strokes| == |img.strokes| + 2 * |boxes|
      && r.strokes[..|img.strokes|] == img.strokes
  {
    PaintAllKeeps(img.strokes, boxes, |boxes|, LiveBoxStrokes, 2);
  }

  /** What one pass of the `while self.is_running` loop did. */
  datatype Tick = Stopped | Slept | SourceEnded | Shown(processed: Image)

  // ---------------------------------------------------------------------------
  // The worker
  // ---------------------------------------------------------------------------

  class StreamThread {
    var isRunning: bool
    var isPaused: bool
    var isRecording: bool
    var writer: Option<Writer>
    var recordingOutputPath: Option<string>

    /** A worker that has not started: nothing running, paused or recording. */
    constructor ()
      ensures !isRunning && !isPaused && !isRecording
      ensures writer.None? && recordingOutputPath.None?
    {
      isRunning := false;
      isPaused := false;
      isRecording := false;
      writer := None;
      recordingOutputPath := None;
    }

    /** The start of `run`: the loop runs until stopped. */
    method Start()
      modifies this
      ensures isRunning
      ensures isPaused == old(isPaused) && isRecording == old(isRecording)
      ensures writer == old(writer) && recordingOutputPath == old(recordingOutputPath)
    {
      isRunning := true;
    }

    /** `stop`: the loop ends at its next check. */
    method Stop()
      modifies this
      ensures !isRunning
      ensures isPaused == old(isPaused) && isRecording == old(isRecording)
      ensures writer == old(writer) && recordingOutputPath == old(recordingOutputPath)
    {
      isRunning := false;
    }

    /** `pause`: sets the paused flag and nothing else. */
    method Pause()
      modifies this
      ensures isPaused
      ensures isRunning == old(isRunning) && isRecording == old(isRecording)
      ensures writer == old(writer) && recordingOutputPath == old(recordingOutputPath)
    {
      isPaused := true;
    }

    /** `resume`: clears the paused flag and nothing else. */
    method Resume()
      modifies this
      ensures !isPaused
      ensures isRunning == old(isRunning) && isRecording == old(isRecording)
      ensures writer == old(writer) && recordingOutputPath == old(recordingOutputPath)
    {
      isPaused := false;
    }

    /** Whether the loop hands processed frames to the writer. */
    predicate Writing()
      reads this
    {
      isRecording && writer.Some? && writer.value.isOpen
    }

    /**
     * One pass of the loop: a stopped worker leaves it, a paused one sleeps without reading,
     * a source that yields no frame ends it; otherwise the processed frame is shown and,
     * while recording into an open writer, appended to the recording.
     */
    method Step(read: Option<LiveInputs>) returns (t: Tick)
      modifies this
      ensures !old(isRunning) ==> t == Stopped
      ensures old(isRunning) && old(isPaused) ==> t == Slept
      ensures old(isRunning) && !old(isPaused) && read.None? ==> t == SourceEnded
      ensures old(isRunning) && !old(isPaused) && read.Some? ==> t == Shown(ProcessedFrame(read.value))
      ensures isRunning == old(isRunning) && isPaused == old(isPaused) && isRecording == old(isRecording)
      ensures recordingOutputPath == old(recordingOutputPath)
      ensures writer == if t.Shown? && old(Writing())
                        then Some(old(writer).value.(frames := old(writer).value.frames + [t.processed]))
                        else old(writer)
    {
      if !isRunning {
        return Stopped;
      }
      if isPaused {
        return Slept;
      }
      if read.None? {
        return SourceEnded;
      }
      var processed := ProcessLiveFrame(read.value);
      if isRecording && writer.Some? && writer.value.isOpen {
        writer := Some(writer.value.(frames := writer.value.frames + [processed]));
      }
      return Shown(processed);
    }

    /**
     * `start_recording`: tries the codecs in order, renaming the file to each codec's
     * extension; the first writer that opens starts the recording into its file, and when
     * none does the worker is not recording. The loop's own flags are untouched.
     */
    method StartRecording(outputPath: string, opens: (string, string) -> Option<bool>)
      modifies this
      ensures var r := TryCodecs(outputPath, 0, old(writer), opens, Renamed);
        && writer == r.writer
        && isRecording == r.recorded.Some?
        && recordingOutputPath == if r.recorded.Some? then r.recorded else old(recordingOutputPath)
      ensures isRunning == old(isRunning) && isPaused == old(isPaused)
    {
      var path := outputPath;
      for k := 0 to |Codecs|
        invariant TryCodecs(path, k, writer, opens, Renamed) == TryCodecs(outputPath, 0, old(writer), opens, Renamed)
        invariant recordingOutputPath == old(recordingOutputPath)
        invariant isRunning == old(isRunning) && isPaused == old(isPaused)
      {
        var (codec, ext) := Codecs[k];
        var renamed := Renamed(path, ext);
        if renamed.None? {
          continue;
        }
        path := renamed.value;
        var outcome := opens(codec, path);
        if outcome.None? {
          continue;
        }
        writer := Some(Writer(codec, path, outcome.value, []));
        if outcome.value {
          isRecording := true;
          recordingOutputPath := Some(path);
          return;
        }
      }
      isRecording := false;
    }

    /** `stop_recording`: hands back the recorded file, if any, and releases the writer. */
    method StopRecording() returns (path: Option<string>)
      modifies this
      ensures path == old(recordingOutputPath)
      ensures !isRecording && writer.None? && recordingOutputPath.None?
      ensures isRunning == old(isRunning) && isPaused == old(isPaused)
    {
      isRecording := false;
      path := recordingOutputPath;
      writer := None;
      recordingOutputPath := None;
    }
  }

  /** The body of the `try` in the loop: inference, masks and the secondary boxes of one frame. */
  method ProcessLiveFrame(inputs: LiveInputs) returns (processed: Image)
    ensures processed == ProcessedFrame(inputs)
  {
    if inputs.plotted.None? {
      return inputs.frame;
    }
    var img := inputs.plotted.value;
    if inputs.segMask.Some? {
      var drawn := DrawAllSegmentationMasks(img, inputs.segMask);
      if drawn.Failure? {
        return img;
      }
      img := drawn.value;
    }
    if inputs.secondary.Some? {
      var canvas := new Canvas(img);
      DrawLive(canvas, inputs.secondary.value);
      img := canvas.Snapshot();
    }
    return img;
  }

  /** The loop over the secondary detector's boxes on a live frame. */
  method DrawLive(canvas: Canvas, boxes: seq<Detection>)
    modifies canvas
    ensures canvas.Snapshot() == old(canvas.Snapshot()).(strokes := PaintAll(old(canvas.strokes), boxes, |boxes|, LiveBoxStrokes))
  {
    ghost var start := canvas.strokes;
    for k := 0 to |boxes|
      invariant canvas.width == old(canvas.width) && canvas.height == old(canvas.height)
      invariant canvas.strokes == PaintAll(start, boxes, k, LiveBoxStrokes)
    {
      var d := boxes[k];
      var (x1, y1, x2, y2) := d.Box();
      var (id, name) := LiveMapping(d.classId);
      canvas.DrawDetection(x1, y1, x2, y2, id, d.conf, name, true, true, true, None);
    }
  }

  // ---------------------------------------------------------------------------
  // Screenshot labels
  // ---------------------------------------------------------------------------

  /** A YOLO-format label row: class id, normalised centre, size, and confidence. */
  datatype YoloRow = YoloRow(classId: int, xCenter: real, yCenter: real, width: real, height: real, conf: real)

  /** The row a screenshot writes for one primary box on a `w`×`h` frame. */
  function ScreenshotRow(d: Detection, w: nat, h: nat): (r: YoloRow)
    requires w > 0 && h > 0
    ensures r.classId == d.classId && r.conf == d.conf
    ensures d.x1 <= d.x2 ==> r.width >= 0.0
  {
    var (wr, hr) := (w as real, h as real);
    YoloRow(d.classId, ((d.x1 + d.x2) / 2.0) / wr, ((d.y1 + d.y2) / 2.0) / hr,
            (d.x2 - d.x1) / wr, (d.y2 - d.y1) / hr, d.conf)
  }

  /** The row reads back as the box: its corners are the centre minus and plus half the size, scaled. */
  lemma ScreenshotRowReconstructs(d: Detection, w: nat, h: nat)
    requires w > 0 && h > 0
    ensures var r := ScreenshotRow(d, w, h);
      && (r.xCenter - r.width / 2.0) * (w as real) == d.x1
      && (r.xCenter + r.width / 2.0) * (w as real) == d.x2
      && (r.yCenter - r.height / 2.0) * (h as real) == d.y1
      && (r.yCenter + r.height / 2.0) * (h as real) == d.y2
  {
    var r := ScreenshotRow(d, w, h);
    var (wr, hr) := (w as real, h as real);
    assert r.xCenter - r.width / 2.0 == d.x1 / wr;
    assert r.xCenter + r.width / 2.0 == d.x2 / wr;
    assert r.yCenter - r.height / 2.0 == d.y1 / hr;
    assert r.yCenter + r.height / 2.0 == d.y2 / hr;
  }

  /** A row as the label file holds it: six space-separated fields, reals with six decimals. */
  function RowLine(r: YoloRow): string {
    Join([IntToString(r.classId), FormatFixed(r.xCenter, 6), FormatFixed(r.yCenter, 6),
          FormatFixed(r.width, 6), FormatFixed(r.height, 6), FormatFixed(r.conf, 6)], " ") + "\n"
  }

  /**
   * The screenshot's label file: one line per box of the current result; on a frame with
   * no width or height the first division raises and the handler leaves the file empty.
   */
  function ScreenshotLines(boxes: seq<Detection>, w: nat, h: nat): (lines: seq<string>)
    ensures w == 0 || h == 0 ==> lines == []
    ensures w > 0 && h > 0 ==> |lines| == |boxes|
    ensures w > 0 && h > 0 ==> forall i :: 0 <= i < |boxes| ==> lines[i] == RowLine(ScreenshotRow(boxes[i], w, h))
  {
    if w == 0 || h == 0 then [] else seq(|boxes|, i requires 0 <= i < |boxes| => RowLine(ScreenshotRow(boxes[i], w, h)))
  }

  /** A screenshot line splits into six fields, the first of which reads back as the class id. */
  lemma RowLineFields(r: YoloRow)
    ensures var ws := Words(RowLine(r));
      |ws| == 6 && PyInt(ws[0]) == Some(r.classId) && ws[5] == FormatFixed(r.conf, 6)
  {
    var fields := [IntToString(r.classId), FormatFixed(r.xCenter, 6), FormatFixed(r.yCenter, 6),
                   FormatFixed(r.width, 6), FormatFixed(r.height, 6), FormatFixed(r.conf, 6)];
    assert Words(RowLine(r)) == fields by {
      IntToStringIsToken(r.classId);
      FormatFixedIsToken(r.xCenter, 6);
      FormatFixedIsToken(r.yCenter, 6);
      FormatFixedIsToken(r.width, 6);
      FormatFixedIsToken(r.height, 6);
      FormatFixedIsToken(r.conf, 6);
      SixFields(fields);
    }
    PyIntOfIntToString(r.classId);
  }
}
