/**
 * The shared parts of the prediction screens in `gui_components/base_interface.py`:
 * counting detections from a labels folder, the history record written after each
 * prediction, and the model hand-over of `set_model`.
 */
module BaseInterface {
  import opened Wrappers
  import opened Text
  import opened Formatting
  import opened Database
  import opened AnalyticsInterface

  // ---------------------------------------------------------------------------
  // count_detections_from_labels
  // ---------------------------------------------------------------------------

  /** How many of the flags hold. */
  function CountTrue(bs: seq<bool>): nat {
    if bs == [] then 0 else CountTrue(bs[..|bs| - 1]) + (if bs[|bs| - 1] then 1 else 0)
  }

  lemma {:induction false} CountTrueBounds(bs: seq<bool>)
    ensures CountTrue(bs) <= |bs|
    ensures CountTrue(bs) == |bs| <==> forall k :: 0 <= k < |bs| ==> bs[k]
    ensures CountTrue(bs) == 0 <==> forall k :: 0 <= k < |bs| ==> !bs[k]
  {
    if bs != [] {
      var n := |bs| - 1;
      var prior := bs[..n];
      CountTrueBounds(prior);
      assert forall k :: 0 <= k < n ==> prior[k] == bs[k];
    }
  }

  /** Which lines survive `if line.strip()`. */
  function NonBlankFlags(lines: seq<string>): (flags: seq<bool>)
    ensures |flags| == |lines|
  {
    seq(|lines|, k requires 0 <= k < |lines| => Strip(lines[k]) != "")
  }

  /** `len([line.strip() for line in lines if line.strip()])`. */
  function NonBlankCount(lines: seq<string>): nat {
    CountTrue(NonBlankFlags(lines))
  }

  /** The lines counted are exactly those holding something other than whitespace. */
  lemma NonBlankCountBounds(lines: seq<string>)
    ensures NonBlankCount(lines) <= |lines|
    ensures NonBlankCount(lines) == |lines| <==> forall k :: 0 <= k < |lines| ==> !IsBlank(lines[k])
    ensures NonBlankCount(lines) == 0 <==> forall k :: 0 <= k < |lines| ==> IsBlank(lines[k])
  {
    var flags := NonBlankFlags(lines);
    CountTrueBounds(flags);
    NonBlankFlagsAre(lines);
    assert (forall k :: 0 <= k < |lines| ==> flags[k]) <==> (forall k :: 0 <= k < |lines| ==> !IsBlank(lines[k]));
    assert (forall k :: 0 <= k < |lines| ==> !flags[k]) <==> (forall k :: 0 <= k < |lines| ==> IsBlank(lines[k]));
  }

  /** A line's flag holds exactly when the line is not blank. */
  lemma NonBlankFlagsAre(lines: seq<string>)
    ensures forall k :: 0 <= k < |lines| ==> (NonBlankFlags(lines)[k] <==> !IsBlank(lines[k]))
  {
    forall k | 0 <= k < |lines| ensures NonBlankFlags(lines)[k] <==> !IsBlank(lines[k]) {
      StripEmptyIffBlank(lines[k]);
    }
  }

  /** The lines of every readable file; an unreadable one adds nothing. */
  function LabelLineTotal(files: seq<LabelFile>): nat {
    if files == [] then 0 else LabelLineTotal(files[..|files| - 1]) + NonBlankCount(FileLines(files[|files| - 1]))
  }

  /**
   * `count_detections_from_labels`: 0 when the labels folder does not exist; otherwise the
   * non-blank lines of the `.txt` files found there, an unreadable file adding nothing.
   */
  method CountDetectionsFromLabels(labelsExist: bool, files: seq<LabelFile>) returns (total: nat)
    ensures total == if labelsExist then LabelLineTotal(files) else 0
  {
    if !labelsExist {
      return 0;
    }
    total := 0;
    for i := 0 to |files|
      invariant total == LabelLineTotal(files[..i])
    {
      assert files[..i + 1][..i] == files[..i];
      if files[i].Lines? {
        total := total + NonBlankCount(files[i].lines);
      }
    }
    assert files[..|files|] == files;
  }

  /** A line the analytics screen counts is never blank. */
  lemma CountedLineNotBlank(line: string)
    requires ParseLine(line).Some?
    ensures Strip(line) != ""
  {
    StripEmptyIffBlank(line);
    if IsBlank(line) {
      WordsOfBlank(line);
    }
  }

  /** Keeping the parses that are detections keeps no more than the flags that hold, when each kept parse has its flag. */
  lemma {:induction false} KeptAtMostFlagged(ps: seq<Option<LineEntry>>, flags: seq<bool>)
    requires |ps| == |flags|
    requires forall k :: 0 <= k < |ps| && ps[k].Some? ==> flags[k]
    ensures |Kept(ps)| <= CountTrue(flags)
  {
    if ps != [] {
      var n := |ps| - 1;
      assert forall k :: 0 <= k < n ==> ps[..n][k] == ps[k] && flags[..n][k] == flags[k];
      KeptAtMostFlagged(ps[..n], flags[..n]);
    }
  }

  /** Of one file's lines, the analytics screen counts at most those counted here. */
  lemma EntriesAtMostNonBlank(lines: seq<string>)
    ensures |Entries(lines)| <= NonBlankCount(lines)
  {
    var ps := Parses(lines);
    var flags := NonBlankFlags(lines);
    forall k | 0 <= k < |ps| && ps[k].Some? ensures flags[k] {
      ParsesAt(lines, k);
      CountedLineNotBlank(lines[k]);
    }
    KeptAtMostFlagged(ps, flags);
    EntriesAreKept(lines);
  }

  /**
   * Over the same label files, the detections the analytics screen reads never exceed the
   * count given here: both skip unreadable files, and every line it keeps is non-blank.
   */
  lemma {:induction false} AnalyticsAtMostLabelCount(files: seq<LabelFile>)
    ensures |AllEntries(files)| <= LabelLineTotal(files)
  {
    if files != [] {
      var n := |files| - 1;
      AnalyticsAtMostLabelCount(files[..n]);
      EntriesAtMostNonBlank(FileLines(files[n]));
    }
  }

  // ---------------------------------------------------------------------------
  // save_prediction_history
  // ---------------------------------------------------------------------------

  /** The text `get_source_type` returns. */
  function SourceTypeName(t: SourceType): string {
    match t
    case ImageSource => "image"
    case VideoSource => "video"
    case FolderSource => "folder"
    case UnknownSource => "unknown"
  }

  /** What the screen knows when a prediction ends. */
  datatype Screen = Screen(modelPath: string, sourcePath: string, sourceIsDirectory: bool, currentParams: Option<Parameters>)

  /**
   * The record `save_prediction_history` builds: the message is the result path on
   * success and the error message on failure; `parameters` is `{}` before any run.
   */
  function HistoryRecord(screen: Screen, success: bool, message: string, inferenceTime: real, numDetections: int, now: string): RecordData {
    RecordData(
      Some(now),
      Some(screen.modelPath),
      Some(screen.sourcePath),
      Some(SourceTypeName(GetSourceType(screen.sourcePath, screen.sourceIsDirectory))),
      Some(if success then message else ""),
      Some(screen.currentParams.GetOr(map[])),
      Some(success),
      Some(if !success then message else ""),
      Some(inferenceTime),
      Some(numDetections))
  }

  /**
   * The row stored for a prediction: success is stored as 1 exactly for a successful run,
   * the message lands in the result path or in the error message and the other stays
   * empty, and a screen without parameters stores `{}`.
   */
  lemma HistoryRowStored(id: nat, screen: Screen, success: bool, message: string, inferenceTime: real, numDetections: int, now: string)
    ensures var row := NewRow(id, HistoryRecord(screen, success, message, inferenceTime, numDetections, now), now);
      && (row.success == 1 <==> success)
      && (success ==> row.resultPath == message && row.errorMessage == "")
      && (!success ==> row.resultPath == "" && row.errorMessage == message)
      && (screen.currentParams.None? ==> row.parameters == map[])
      && row.sourceType in {"image", "video", "folder", "unknown"}
      && row.numDetections == numDetections && row.sourcePath == screen.sourcePath && row.modelPath == screen.modelPath
  {
  }

  /** `save_prediction_history`: the record goes into the table under a fresh id. */
  method SavePredictionHistory(db: HistoryDB, screen: Screen, success: bool, message: string, inferenceTime: real, numDetections: int, now: string)
      returns (id: nat)
    requires db.Valid()
    modifies db
    ensures db.Valid()
    ensures db.rows == old(db.rows) + [NewRow(id, HistoryRecord(screen, success, message, inferenceTime, numDetections, now), now)]
    ensures id == old(db.lastId) + 1
  {
    id := db.AddRecord(HistoryRecord(screen, success, message, inferenceTime, numDetections, now), now);
  }

  // ---------------------------------------------------------------------------
  // set_model
  // ---------------------------------------------------------------------------

  /** A loaded model, known by its checkpoint path when it has one. */
  datatype Model = Model(ckptPath: Option<string>)

  /** The model fields of `ModelLoaderMixin`. */
  class ModelLoader {
    var model: Option<Model>
    var personModel: Option<Model>
    var currentModelPath: string

    constructor ()
      ensures model.None? && personModel.None? && currentModelPath == ""
    {
      model := None;
      personModel := None;
      currentModelPath := "";
    }

    /**
     * `set_model`: the model is always replaced; the person model only when one is given;
     * the current model path follows a model that has a checkpoint path.
     */
    method SetModel(newModel: Option<Model>, newPersonModel: Option<Model>)
      modifies this
      ensures model == newModel
      ensures personModel == if newPersonModel.Some? then newPersonModel else old(personModel)
      ensures currentModelPath == if newModel.Some? && newModel.value.ckptPath.Some? then newModel.value.ckptPath.value else old(currentModelPath)
    {
      model := newModel;
      if newPersonModel.Some? {
        personModel := newPersonModel;
      }
      if newModel.Some? && newModel.value.ckptPath.Some? {
        currentModelPath := newModel.value.ckptPath.value;
      }
    }
  }
}
