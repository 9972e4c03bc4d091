# MTDETR-PyQt core, modelled in Dafny

MTDETR-PyQt is a desktop application for traffic scenes. Two detectors run on every
image:

- a multi-task transformer (MTDETR) finds vehicles and segments the drivable area;
- an optional YOLO detector finds pedestrians and traffic lights.

The application draws both results on the image. It votes on the colour of each
traffic light and flags pedestrians standing on the road. It then saves the image and
a YOLO-format label file, and records each run in an SQLite history. The analytics
screen reads the label files back.

This project models that core, one Dafny module per source file:

| module | source file | form |
|---|---|---|
| `Constants` | `utils/constants.py` | functions |
| `Formatting` | `utils/formatting.py` | functions |
| `TrafficAnalyzer` | `utils/traffic_analyzer.py` | functions, and the `DrivableAreaAnalyzer` class |
| `ResultRenderer` | `utils/result_renderer.py` | functions; a `Canvas` class whose draw methods paint in place |
| `Database` | `utils/database.py` | the `HistoryDB` class over a `seq` of rows |
| `PredictThread` | `gui_components/predict_thread.py` | methods with loops, each proved against a function |
| `VideoInterface` | `gui_components/video_interface.py` | the `StreamThread` class with its flags and writer |
| `AnalyticsInterface` | `gui_components/analytics_interface.py` | the analysis loops, proved against a tally function |
| `BaseInterface` | `gui_components/base_interface.py` | the label count, history record and model hand-over |

Three further modules support them:

- `Wrappers` holds `Option` and `Result`.
- `Text` holds Python's string behaviour on ASCII text: `split()`, `strip()`, `int()`, `float()` and `f"{x:.Nf}"`.
- `Tensors` holds numpy's mask shapes, `max(axis=0)`, `astype(np.uint8)` and `int()` on floats.

Images are modelled without pixels. An `Image` has a height, a width and the ordered
list of strokes painted on it: outlines, labels, mask overlays and banners. Stacking a
banner on top shifts every stroke down. This keeps what the code decides, meaning
which shapes, in which order, where and in which colour. It drops the rasterisation,
which OpenCV does.

## Model

| member | source | states |
|---|---|---|
| Constants.ClassName | utils/constants.py:49-68 | sentinel ids 997-999 get their special name; MTDETR ids get their table name; every other id gets "Unknown-<id>", and only unknown ids get that prefix |
| Constants.ClassNameReadsBack | utils/constants.py:49-68 | the suffix after "Unknown-" reads back with `int()` as the id |
| Constants.TablesDisjoint | utils/constants.py:7-27 | the MTDETR table and the sentinel table share no id, and there are three sentinels |
| Constants.ClassNameInjective | utils/constants.py:49-68 | two ids with the same name are the same id |
| Formatting.ParseImageSize | utils/formatting.py:74-86 | a size is returned exactly when the text splits into two fields on '×' (or on 'x' when no '×' occurs) that both pass `int()`, and it is those two integers |
| Formatting.ParseImageSizeOfPreset | utils/formatting.py:74-86 | parsing the preset text "W×H" gives (W, H) back |
| Formatting.ParseImageSizeOfAsciiText | utils/formatting.py:84-86 | "WxH" without '×' also parses to (W, H) |
| Formatting.ParseImageSizeTrailingTimes | utils/formatting.py:84-86 | a text ending in '×' fails to parse, since the split yields an empty field |
| Formatting.FormatDuration | utils/formatting.py:29-41 | "N/A" exactly for a missing or non-positive duration; otherwise the value with two decimals followed by "s" |
| Formatting.FormatConfidence | utils/formatting.py:89-101 | "N/A" exactly for a missing value; otherwise 100 times the value with one decimal followed by "%" |
| Formatting.Basename | utils/formatting.py:71 | the name is the separator-free suffix that starts right after the drive or after the last separator |
| Formatting.GetFilename | utils/formatting.py:61-71 | "" for a missing or empty path; otherwise the separator-free suffix that starts right after the drive or after the last separator |
| Formatting.GetFilenameOfBareName | utils/formatting.py:61-71 | a bare name with no directory and no drive is its own file name |
| Formatting.GetFilenameOfJoined | utils/formatting.py:61-71 | the file name of dir + separator + name is that name |
| Formatting.Extension | utils/formatting.py:120 | the extension is "" or starts with '.', ends the path, and holds no separator and no further '.' |
| Formatting.ExtensionOfSuffixed | utils/formatting.py:120 | dir + base + "." + e, with a non-dot character in base, has the extension "." + e: it starts at the name's last dot |
| Formatting.ExtensionOfDotfile | utils/formatting.py:120 | a name of leading dots and a dotless tail (".bashrc") has no extension |
| Formatting.ExtensionExamples | utils/formatting.py:120 | "a.tar.gz" has the extension ".gz" and ".bashrc" has none |
| Formatting.GetSourceTypeExample | utils/formatting.py:120-123 | "dir/x.JPG" has the extension ".JPG" and is classified as an image |
| Formatting.GetSourceType | utils/formatting.py:104-127 | an empty path is unknown; folder exactly for a non-empty directory path; image (or video) exactly for a non-empty non-directory path whose lower-cased extension is in the image (or video) list; unknown in every other case |
| Formatting.ExtensionListsDisjoint | utils/formatting.py:122-125 | no extension is in both lists |
| Formatting.GetSourceTypeCaseInsensitive | utils/formatting.py:120 | lower-casing the path changes no classification |
| Tensors.Trunc | utils/traffic_analyzer.py:25 | `int()` truncates toward zero, within one of the value |
| Tensors.Clip | utils/traffic_analyzer.py:29-30 | the clipped window lies inside the image and inside the box |
| Tensors.CountWindow | utils/traffic_analyzer.py:66-70 | a pixel count never exceeds the window's area |
| Tensors.MaxPlanes | gui_components/predict_thread.py:529-531 | `max(axis=0)` has the planes' shape, row by row the cell-wise maximum |
| Tensors.MaxPlanesAt | gui_components/predict_thread.py:529-531 | at each pixel `max(axis=0)` holds some channel's score, and no channel's score exceeds it |
| Tensors.ReduceLeading | gui_components/predict_thread.py:529-531 | one reduction lowers the rank by one and keeps (h, w); it fails exactly on an empty leading axis |
| Tensors.ReduceAllRank3 | gui_components/predict_thread.py:529-531 | reducing (C, H, W) is the pixel-wise maximum over the channels; no channels raises |
| Tensors.ReduceAllRank4 | gui_components/predict_thread.py:529-531 | reducing (B, C, H, W) holds the largest score over all samples and channels; it fails exactly for an empty axis |
| Tensors.ToByte | gui_components/predict_thread.py:535 | `(x * 255).astype(np.uint8)` is a byte, and for a score in [0, 1] it is the floor of 255x |
| Tensors.ToBytePositive | gui_components/predict_thread.py:535 | for a score in [0, 1], the byte is non-zero exactly when the score is at least 1/255 |
| TrafficAnalyzer.BandsOverlap | utils/traffic_analyzer.py:44-63 | a red pixel is in no other band; yellow and green overlap exactly on hues 35..40 |
| TrafficAnalyzer.Vote | utils/traffic_analyzer.py:79-98 | red wins ties, then yellow; the winner has at least max(10, 1% of the pixels); "unknown" exactly when every count is below that |
| TrafficAnalyzer.DetectColor | utils/traffic_analyzer.py:13-98 | an empty clipped crop is "unknown"; otherwise the vote over the red, yellow and green band counts of the crop |
| TrafficAnalyzer.SmallCropIsUnknown | utils/traffic_analyzer.py:88-93 | a crop of fewer than ten pixels is never voted a colour |
| TrafficAnalyzer.CountWindowAll | utils/traffic_analyzer.py:66-70 | when every pixel of the window matches, the count is the area |
| TrafficAnalyzer.CountWindowNone | utils/traffic_analyzer.py:66-70 | when no pixel matches, the count is 0 |
| TrafficAnalyzer.AllRedCropIsRed | utils/traffic_analyzer.py:44-98 | a crop of at least ten pixels, all in the red band only, is voted red |
| TrafficAnalyzer.ColorNameChinese | utils/traffic_analyzer.py:101-109 | "未知" exactly for a key other than red, yellow or green |
| TrafficAnalyzer.ColorBgr | utils/traffic_analyzer.py:112-120 | grey exactly for a key other than the three colours; red is drawn as pure red |
| TrafficAnalyzer.ColorTablesSeparateAnswers | utils/traffic_analyzer.py:101-120 | distinct votes get distinct display colours and distinct names; unknown is grey and "未知" |
| TrafficAnalyzer.RatioFacts | utils/traffic_analyzer.py:170-178 | the overlap ratio lies in [0, 1] and exceeds 0.3 exactly when 10·part > 3·total |
| TrafficAnalyzer.DrawDrivableZone | utils/traffic_analyzer.py:183-240 | without a mask the image is unchanged; with one, drawing succeeds exactly when the mask has the image's shape, and then adds the zone overlay |
| TrafficAnalyzer.DrivableAreaAnalyzer.constructor | utils/traffic_analyzer.py:126-133 | the analyzer holds the given mask |
| TrafficAnalyzer.DrivableAreaAnalyzer.SetDrivableMask | utils/traffic_analyzer.py:135-137 | the mask is replaced |
| TrafficAnalyzer.DrivableAreaAnalyzer.IsInDrivableArea | utils/traffic_analyzer.py:139-181 | (false, 0.0) without a mask or for an empty clipped box; otherwise the drivable share of the box; "in" exactly when the share exceeds 0.3 |
| ResultRenderer.GetColor | utils/result_renderer.py:68-79 | a palette colour; ids 0-19 get their own entry (palette at lines 27-33) |
| ResultRenderer.GetColorPeriodic | utils/result_renderer.py:79 | ids 20 apart share a colour |
| ResultRenderer.ShiftTwice | utils/result_renderer.py:351-431 | stacking two banners moves the strokes by the sum of the two heights |
| ResultRenderer.Canvas.constructor | gui_components/predict_thread.py:198 | the canvas holds the given image, as `orig_img.copy()` makes it (the dual path: line 360) |
| ResultRenderer.Canvas.DrawBox | utils/result_renderer.py:81-98 | the image gains one outline in that colour and nothing else changes |
| ResultRenderer.Canvas.DrawLabel | utils/result_renderer.py:100-145 | the image gains one label anchored at the box's top-left corner |
| ResultRenderer.Canvas.DrawDetection | utils/result_renderer.py:147-180 | an outline when boxes are shown, then a label when labels are shown, in the class's palette colour unless one is given |
| ResultRenderer.DetectionLabel | utils/result_renderer.py:170-176 | the label is the class name, followed by a space and the confidence with two decimals only when confidences are shown |
| ResultRenderer.DetectionLabelWords | utils/result_renderer.py:170-176 | a one-word name with its confidence splits back into exactly those two words |
| ResultRenderer.DetectionStrokes | utils/result_renderer.py:147-180 | one stroke per enabled flag: the outline first, the label last |
| ResultRenderer.Threshold | utils/result_renderer.py:205-212 | a cell is set exactly when its score exceeds 0.5 |
| ResultRenderer.Binarize | utils/result_renderer.py:205-212 | a 3-D mask with no channel raises; every other mask binarises |
| ResultRenderer.BinarizeRank3 | utils/result_renderer.py:205-212 | a pixel of a 3-D mask is set exactly when some channel scores above 0.5 there |
| ResultRenderer.DrawSegmentationMask | utils/result_renderer.py:182-230 | it fails exactly for an unusable mask or a shape mismatch; an empty region leaves the image; otherwise it adds one overlay in the class colour |
| ResultRenderer.NormalizeMasks | utils/result_renderer.py:257-273 | the channels it hands on form a well-shaped (C, H, W) stack |
| ResultRenderer.DrawLayersStrokes | utils/result_renderer.py:276-287 | on success the image keeps its size and gains exactly one overlay per non-empty channel, in channel order |
| ResultRenderer.DrawAllSegmentationMasks | utils/result_renderer.py:232-289 | the loop over the channels gives the specified result: channel k drawn as class k, the first failure ending it |
| ResultRenderer.FailureSticks | utils/result_renderer.py:276-289 | once a channel fails, later channels do not change the result |
| ResultRenderer.Rank2IsOneChannel | utils/result_renderer.py:257-262 | an (H, W) mask is drawn like a one-channel stack |
| ResultRenderer.BatchDrawsFirstSample | utils/result_renderer.py:263-268 | a (B, C, H, W) batch is drawn as its first sample only |
| ResultRenderer.EmptyMasksLeaveImage | utils/result_renderer.py:205-230 | masks with no score above 0.5 leave the image unchanged |
| ResultRenderer.GetClassName | utils/result_renderer.py:291-326 | the fixed table wins; then a non-empty entry in the result's names, then in the model's names; else "Unknown-<id>" |
| ResultRenderer.EmptyEntryFallsThrough | utils/result_renderer.py:300-312 | an empty dictionary entry is skipped in favour of the next source |
| ResultRenderer.WarningStrip | utils/result_renderer.py:351-389 | a band of 40 rows per warning, then one caption per warning, 40 rows apart |
| ResultRenderer.WarningBanner | utils/result_renderer.py:351-389 | no warnings leave the image; otherwise the strip is stacked above the image, whose strokes move down by the strip's height |
| ResultRenderer.InfoBanner | utils/result_renderer.py:392-431 | no items leave the image; otherwise a 40-row strip with the items joined by " \| " is stacked below |
| ResultRenderer.BannersGeometry | utils/result_renderer.py:351-431 | both banners together keep the width and add 40 rows per warning plus 40 for any info |
| PredictThread.ModelHandle.ResetModelConfig | gui_components/predict_thread.py:54-64 | the cached predictor is dropped, and the six display keys are removed from the overrides, all others kept |
| PredictThread.AlignMasks | gui_components/predict_thread.py:180-190 | one captured mask is a batch; as many as the results (two or more) are per image; any other count means no masks (the dual path repeats this at lines 342-353) |
| PredictThread.SingleMaskFor | gui_components/predict_thread.py:201-213 | the single-model path draws masks exactly when any were aligned |
| PredictThread.DualMaskFor | gui_components/predict_thread.py:375-383 | the dual-model path draws masks for image i only when i is inside the list (or the batch) |
| PredictThread.PerImagePathsAgree | gui_components/predict_thread.py:201-213 | with one mask per image, both paths draw image i with mask i (dual path: lines 375-383) |
| PredictThread.BatchPathsDiffer | gui_components/predict_thread.py:209-213 | with one batch mask, the single path draws the whole batch while the dual path draws its i-th sample (dual path: lines 375-383) |
| PredictThread.ToBytes | gui_components/predict_thread.py:535 | the mask is scaled to bytes cell by cell, keeping its shape |
| PredictThread.MaskSource | gui_components/predict_thread.py:509-520 | a batch is used whatever the index; a list only below its length; no masks gives none |
| PredictThread.ExtractDrivableMask | gui_components/predict_thread.py:507-542 | the reduction loop gives the specified result; a mask it returns has the planes' shape and holds bytes |
| PredictThread.DrivablePixelOfChannels | gui_components/predict_thread.py:527-538 | for (C, H, W) scores, a pixel is drivable exactly when some channel scores at least 1/255 there |
| PredictThread.GridSumPositive | gui_components/predict_thread.py:574 | `np.sum` of a byte mask is positive exactly when some pixel is set (also the test at line 405) |
| PredictThread.KernelSize | gui_components/predict_thread.py:577 | the dilation kernel is the larger of 30 and the smaller side / 20 |
| PredictThread.FivePercentTruncates | gui_components/predict_thread.py:577 | `int(m * 0.05)` equals m / 20 for every size m, so the kernel is exactly `max(30, int(min(h, w) * 0.05))` |
| PredictThread.IsPedestrianOnRoad | gui_components/predict_thread.py:544-603 | with a non-empty mask and the foot inside the dilated mask, on the road exactly when the dilated pixel is set and the foot is in the lower half; with a non-empty mask and the foot outside it, or without a non-empty mask, exactly the positional band |
| PredictThread.OnRoadIsLow | gui_components/predict_thread.py:563-603 | a pedestrian on the road always has its foot below 40% of the height |
| PredictThread.NoMaskUsesBand | gui_components/predict_thread.py:593-603 | without a mask, or with an all-zero one, only the positional band decides |
| PredictThread.FootOnMaskIsOnRoad | gui_components/predict_thread.py:574-591 | a foot in the lower half on a drivable pixel is on the road |
| PredictThread.FootBelowMaskUsesBand | gui_components/predict_thread.py:582-603 | a foot on the image's bottom edge falls outside the mask, so the band decides |
| PredictThread.PaintAllKeeps | gui_components/predict_thread.py:388-402 | painting boxes keeps earlier strokes and adds the same number per box |
| PredictThread.PrimaryBoxCount | gui_components/predict_thread.py:388-402 | each primary box adds one stroke per enabled flag |
| PredictThread.DrawPrimary | gui_components/predict_thread.py:388-402 | the loop paints every primary box in order, as specified |
| PredictThread.SightingText | gui_components/predict_thread.py:417-455 | every secondary box gets a non-empty label text |
| PredictThread.SightingColors | gui_components/predict_thread.py:417-455 | a pedestrian is red exactly when on the road; a red light is red too; magenta exactly for other classes |
| PredictThread.SightingWarningCases | gui_components/predict_thread.py:417-449 | at most one warning per box: the road warning exactly for a pedestrian on the road, the red-light notice exactly for a red light |
| PredictThread.LightText | gui_components/predict_thread.py:441-442 | a light's label is "Light-" followed by the capitalised vote |
| PredictThread.SecondaryLabel | gui_components/predict_thread.py:458-463 | empty exactly when labels are hidden; otherwise the text, plus the confidence when shown |
| PredictThread.Classify | gui_components/predict_thread.py:417-455 | class 0 is a pedestrian, class 9 a light, and anything else keeps its id |
| PredictThread.LabelSecondary | gui_components/predict_thread.py:409-469 | the loop paints, warns and collects lights and on-road pedestrians as `LabelSightings` specifies |
| PredictThread.LabelBox | gui_components/predict_thread.py:410-469 | one pass classifies the box, adds its warning, light colour and on-road count, and paints its outline and label |
| PredictThread.SightingsTally | gui_components/predict_thread.py:409-469 | one warning per on-road pedestrian and per red light, only those two texts; one colour per light box; on-road pedestrians at most the person boxes |
| PredictThread.SightingsCanvas | gui_components/predict_thread.py:409-469 | the frame keeps its size and gains one outline per box when boxes are shown and one label per box when labels are shown |
| PredictThread.Keys | gui_components/predict_thread.py:478 | the colour keys, in detection order |
| PredictThread.InfoItems | gui_components/predict_thread.py:476-481 | the lights item first when any light was seen, then the pedestrian count when non-zero |
| PredictThread.DecorateHeight | gui_components/predict_thread.py:471-484 | the frame keeps its width and grows 40 rows per warning, plus 40 for any info |
| PredictThread.Stem | gui_components/predict_thread.py:607 | the stem is a prefix of the name (also line 256) |
| PredictThread.LabelFileName | gui_components/predict_thread.py:607 | the label file's name ends in ".txt" (also line 256) |
| PredictThread.StemOfSuffixed | gui_components/predict_thread.py:607 | the stem of base + "." + ext is base (also line 256) |
| PredictThread.UnnamedLabelFile | gui_components/predict_thread.py:248-256 | an image without a path is labelled "image_<i>.txt" |
| PredictThread.DualLabelFileAsWritten | gui_components/predict_thread.py:486-505 | as written, the step raises exactly when labels are wanted and the image is not saved |
| PredictThread.UnsavedImageLosesLabels | gui_components/predict_thread.py:487-505 | save off with save_txt on raises |
| PredictThread.DualLabelFile | gui_components/predict_thread.py:486-505 | as intended, a label file exists exactly when save_txt is on, named after the image |
| PredictThread.DualLabelFileAgrees | gui_components/predict_thread.py:486-505 | wherever the code as written does not raise, it writes the intended file |
| PredictThread.SpecialId | gui_components/predict_thread.py:626-632 | person boxes are stored as 999 and lights as 998, exactly; everything else as 997 |
| PredictThread.SpecialIdNames | gui_components/predict_thread.py:626-632 | stored secondary boxes read back as "Person", "TrafficLight" or "Other" |
| PredictThread.LabelFields | gui_components/predict_thread.py:617 | six fields: the class id first, the confidence last (secondary boxes: line 634) |
| PredictThread.PrimaryLines | gui_components/predict_thread.py:612-617 | one line per primary box, under its own class |
| PredictThread.SecondaryLines | gui_components/predict_thread.py:620-634 | one line per secondary box, under its sentinel id |
| PredictThread.WriteLines | gui_components/predict_thread.py:610-634 | the writes append the lines in order |
| PredictThread.SaveLabels | gui_components/predict_thread.py:605-634 | the primary lines, then the secondary lines |
| PredictThread.MergeFrame | gui_components/predict_thread.py:355-505 | one dual frame in source order (mask, masks, boxes, zone, secondary, banners, files) gives the specified frame, its label file named as `DualLabelFile` corrects it |
| PredictThread.FinishDualFrame | gui_components/predict_thread.py:409-505 | the secondary pass, banners and files give the specified frame |
| PredictThread.MergeAndSaveDualResults | gui_components/predict_thread.py:335-505 | the run of the paired frames, frame k handled with index k, in order; the first exception ends the run |
| PredictThread.RunStepsOfValues | gui_components/predict_thread.py:355-505 | when every frame succeeds, the run holds their frames in order |
| PredictThread.RunStepsFirstFailure | gui_components/predict_thread.py:355-505 | when the frames before `i` succeed and frame `i` raises, the run ends with frame `i`'s error, whatever later frames would do |
| PredictThread.RunStepsLength | gui_components/predict_thread.py:355-505 | a run that succeeds holds one frame per pair |
| PredictThread.SingleFrameFiles | gui_components/predict_thread.py:244-267 | the image is always saved under its own name; a label file of the primary lines exists exactly when save_txt is on |
| PredictThread.SaveSingleModelResults | gui_components/predict_thread.py:171-267 | one frame per result, frame k being result k handled with index k; per-image masks come one per result |
| PredictThread.SaveSingleFrame | gui_components/predict_thread.py:198-267 | one iteration gives the specified frame |
| VideoInterface.WithSuffix | gui_components/video_interface.py:295-296 | fails exactly for a path with an empty name; otherwise the path up to its name, ending in the new suffix |
| VideoInterface.WithSuffixReplaces | gui_components/video_interface.py:295-296 | a name with another extension has only that extension swapped |
| VideoInterface.Renamed | gui_components/video_interface.py:292-296 | the name an attempt uses ends with the codec's extension |
| VideoInterface.RecordingOpensWriter | gui_components/video_interface.py:286-308 | for any renaming that gives the codec's extension, a recording that starts uses a fresh open writer whose file has its codec's extension |
| VideoInterface.NoCodecOpens | gui_components/video_interface.py:292-315 | when no codec opens, nothing records, and the writer left behind is the old one or a closed one, whatever the renaming |
| VideoInterface.Mp4Preferred | gui_components/video_interface.py:286-308 | MPEG-4 is tried first |
| VideoInterface.LiveMapping | gui_components/video_interface.py:197-206 | person and light get their sentinel id and name; other classes keep their id and are named "Class-<id>" |
| VideoInterface.LiveAndFileMappingsDiffer | gui_components/video_interface.py:197-206 | the live id equals the saved label id exactly for persons, lights and id 997 |
| VideoInterface.LiveBoxesAddTwoStrokes | gui_components/video_interface.py:191-218 | every live secondary box adds an outline and a label, keeping what was drawn |
| VideoInterface.StreamThread.constructor | gui_components/video_interface.py:32-43 | nothing running, paused or recording; no writer and no output path |
| VideoInterface.StreamThread.Start | gui_components/video_interface.py:45-46 | the loop is marked running, other state unchanged |
| VideoInterface.StreamThread.Stop | gui_components/video_interface.py:260-263 | the loop is marked stopped, other state unchanged |
| VideoInterface.StreamThread.Pause | gui_components/video_interface.py:265-268 | paused is set, other state unchanged |
| VideoInterface.StreamThread.Resume | gui_components/video_interface.py:270-273 | paused is cleared, other state unchanged |
| VideoInterface.StreamThread.Step | gui_components/video_interface.py:94-248 | one loop pass: stop when not running, sleep when paused, end when the source is exhausted, else show the processed frame; an open writer gets it only while recording |
| VideoInterface.StreamThread.StartRecording | gui_components/video_interface.py:275-315 | the writer and recording state are what the codec trials give |
| VideoInterface.StreamThread.StopRecording | gui_components/video_interface.py:317-326 | returns the recorded path, releases the writer and clears the recording state |
| VideoInterface.ProcessLiveFrame | gui_components/video_interface.py:104-230 | one frame processed as specified |
| VideoInterface.DrawLive | gui_components/video_interface.py:191-218 | the loop paints every live box in order |
| VideoInterface.ScreenshotRow | gui_components/video_interface.py:953-971 | the row keeps the class id and the confidence, and its width is not negative for an ordered box |
| VideoInterface.ScreenshotRowReconstructs | gui_components/video_interface.py:961-966 | the row's centre and size give the box's corners back when scaled by the frame size |
| VideoInterface.ScreenshotLines | gui_components/video_interface.py:949-971 | one line per box for a non-empty frame, each the six-decimal row |
| VideoInterface.RowLineFields | gui_components/video_interface.py:971 | a screenshot line splits into six fields, the first reading back as the class id |
| AnalyticsInterface.ParseFields | gui_components/analytics_interface.py:391-413 | fewer than five fields is not a detection; otherwise it is one exactly when the first field is an integer; a sixth field is kept exactly when it reads as a number in [0, 1] |
| AnalyticsInterface.Entries | gui_components/analytics_interface.py:390-413 | a file yields at most one detection per line |
| AnalyticsInterface.EntriesChecked | gui_components/analytics_interface.py:403-408 | every kept confidence lies in [0, 1] |
| AnalyticsInterface.AllEntriesChecked | gui_components/analytics_interface.py:381-423 | over all files, every kept confidence lies in [0, 1] |
| AnalyticsInterface.BumpCounts | gui_components/analytics_interface.py:400 | the name's count rises by one, no other count changes, and names stay distinct |
| AnalyticsInterface.AddEntriesConcat | gui_components/analytics_interface.py:381-416 | tallying two runs in turn is tallying them joined |
| AnalyticsInterface.AddEntriesTally | gui_components/analytics_interface.py:390-416 | the total grows by the detections; each class by its own detections; the tally stays consistent |
| AnalyticsInterface.LabelFiles | gui_components/analytics_interface.py:382 | each image's label file is its stem plus ".txt" |
| AnalyticsInterface.PerImage | gui_components/analytics_interface.py:415-423 | one count per image |
| AnalyticsInterface.PerImageSum | gui_components/analytics_interface.py:415-416 | the per-image counts add up to the total |
| AnalyticsInterface.AnalysisTotals | gui_components/analytics_interface.py:354-439 | one count per image; the counts add up to the total; class counts add up to it with each class counted correctly; confidences in [0, 1]; all zero without labels |
| AnalyticsInterface.AnalyzeResults | gui_components/analytics_interface.py:354-439 | the loops give the specified analysis |
| AnalyticsInterface.ReadLabelLines | gui_components/analytics_interface.py:386-416 | the inner loop adds a file's detections to the tally and counts them |
| AnalyticsInterface.LabelLineParses | gui_components/analytics_interface.py:390-408 | a written label line reads back as one detection of its class, its confidence kept when in [0, 1] (the line as predict_thread.py:617 writes it) |
| AnalyticsInterface.PrimaryLinesReadBack | gui_components/analytics_interface.py:390-416 | the primary lines read back as the boxes, one per line, each with its own class (the lines as predict_thread.py:612-617 writes them) |
| AnalyticsInterface.ScreenshotLineParses | gui_components/analytics_interface.py:390-400 | a screenshot line reads back as a detection of its class (the line as video_interface.py:971 writes it) |
| AnalyticsInterface.FirstMaxIndex | gui_components/analytics_interface.py:545 | the first entry with the largest count, as `max` with a key picks it |
| AnalyticsInterface.MostCommon | gui_components/analytics_interface.py:543-545 | "" for an empty tally; otherwise one of the tally's names |
| AnalyticsInterface.MinReal | gui_components/analytics_interface.py:550 | the minimum is an element and at most every element |
| AnalyticsInterface.MaxReal | gui_components/analytics_interface.py:551 | the maximum is an element and at least every element |
| AnalyticsInterface.UpdateSummary | gui_components/analytics_interface.py:536-554 | the average is 0 without images and total/images otherwise; the most common class; the confidence range or "N/A" |
| AnalyticsInterface.DisplayedBars | gui_components/analytics_interface.py:680-682 | the first min(n, 20) counts, in order |
| Database.NewRowDefaults | utils/database.py:60-71 | an empty record stores empty texts, `{}`, success 1, 0.0 seconds and 0 detections |
| Database.NewRowSuccess | utils/database.py:67 | success is stored as 1 or 0, and as 1 unless the record says it failed |
| Database.Find | utils/database.py:103-122 | a row is found exactly when one has that id, and the row found has it |
| Database.Without | utils/database.py:148-158 | the rows kept are exactly those with another id |
| Database.FindAfterDelete | utils/database.py:103-158 | after a delete, the id is gone and every other id finds what it found before |
| Database.WithoutKeepsOrder | utils/database.py:148-158 | deleting keeps ids increasing |
| Database.NewestFirst | utils/database.py:85-86 | the rows are reversed |
| Database.LikeContains | utils/database.py:124-146 | for a keyword without wildcards, `LIKE '%kw%'` is a case-insensitive substring test |
| Database.NewestHits | utils/database.py:129-132 | the matching rows are exactly the rows that match |
| Database.NewestMatchingDecreasing | utils/database.py:132 | over rows with increasing ids, the rows a predicate keeps come with strictly decreasing ids |
| Database.NewestHitsDecreasing | utils/database.py:132 | the hits come newest first: their ids strictly decrease |
| Database.NewestPrefix | utils/database.py:132-133 | the first n rows of a newest-first list are newer than every row left out |
| Database.SearchHitContains | utils/database.py:124-146 | a row whose source or model path contains the keyword is found |
| Database.SuccessCountBounded | utils/database.py:181-191 | successes never exceed rows, and with none the time and detection sums are 0 |
| Database.StatisticsConsistent | utils/database.py:170-198 | failures are the non-successes and never negative; average times successes is the total time; no success gives zeros |
| Database.StatisticsAfterInsert | utils/database.py:170-198 | one more row is one more success or one more failure, and a failure moves nothing else |
| Database.EmptyStatistics | utils/database.py:170-198 | an empty table gives all zeros |
| Database.HistoryDB.constructor | utils/database.py:15-48 | a new table is empty and has issued no id |
| Database.HistoryDB.AddRecord | utils/database.py:50-77 | the row goes last under the next id, greater than every earlier id |
| Database.HistoryDB.GetRecord | utils/database.py:103-122 | the row with that id, if there is one |
| Database.HistoryDB.GetAllRecords | utils/database.py:79-101 | newest first, offset rows skipped, at most limit rows, with the exact count |
| Database.HistoryDB.SearchRecords | utils/database.py:124-146 | at most limit rows, each one a match, newest first; every match when they fit, else exactly limit rows, each newer than every match left out |
| Database.HistoryDB.DeleteRecord | utils/database.py:148-158 | only rows with that id go; the id sequence is kept |
| Database.HistoryDB.ClearAll | utils/database.py:160-168 | every row goes; the AUTOINCREMENT sequence is not reset |
| Database.HistoryDB.GetStatistics | utils/database.py:170-198 | total is the row count; successes plus failures equal it; no success gives zeros |
| Database.AddedRowFound | utils/database.py:50-122 | a row just added is found by its id |
| Database.FindAfterFresh | utils/database.py:50-122 | a row with a fresh id is found by that id |
| BaseInterface.CountDetectionsFromLabels | gui_components/base_interface.py:324-353 | 0 without a labels folder; otherwise the non-blank lines of the readable files |
| BaseInterface.NonBlankCountBounds | gui_components/base_interface.py:342-343 | a file counts at most its lines, all of them exactly when none is blank, none exactly when all are blank |
| BaseInterface.EntriesAtMostNonBlank | gui_components/base_interface.py:342 | the analytics screen keeps no more lines of a file than are counted here (the parse of analytics_interface.py:390-413) |
| BaseInterface.AnalyticsAtMostLabelCount | gui_components/base_interface.py:338-347 | over the same files, the analytics detections never exceed this count (against analytics_interface.py:381-423) |
| BaseInterface.HistoryRowStored | gui_components/base_interface.py:355-370 | success stored as 1 exactly for success; the message goes to the result path or the error message, the other left empty; no parameters gives `{}`; one of the four source types |
| BaseInterface.SavePredictionHistory | gui_components/base_interface.py:355-375 | the record is appended under the next id |
| BaseInterface.ModelLoader.constructor | gui_components/base_interface.py:389-398 | no model, no person model, no model path |
| BaseInterface.ModelLoader.SetModel | gui_components/base_interface.py:156-168 | the model is always replaced; the person model only when one is given; the path follows a model that has a checkpoint path |

## Left out

- Qt widgets, signals, logging, progress percentages, InfoBars, charts other than the bar selection, and the emoji summary text are not modelled. They display state and decide nothing.
- Threads and concurrency are not modelled. `StreamThread` methods are atomic steps, and `stop`'s `wait()` is not modelled.
- Inference is left out. Detectors, predictors and the postprocess hook are inputs: boxes and captured masks are parameters.
- The clock is a parameter (`now`): `datetime.now()` and the screenshot folder name are not modelled.
- File-system I/O becomes values and parameters. This covers `mkdir`, `cv2.imwrite` and reading label files (a `LabelFile` value). Which folder holds a path is a flag. Glob order is taken as given.
- Pixel arithmetic is not modelled: the colour conversion, blending, `cv2.rectangle`/`putText`, and the Chinese-font drawing. Images are stroke lists.
- `cv2.cvtColor` to HSV and `cv2.dilate` are function parameters. The dilation is constrained only to keep its shape and every set pixel.
- Python's float text (`str(float)`) in label lines is a function parameter `show`. Read-back lemmas assume it parses back.
- Floating point is modelled as exact reals. Percentages and thresholds are exact comparisons.
- JSON is not modelled: `parameters` is stored as the dictionary itself.
- `created_at` ordering is insertion order. Ties within one second are not modelled.
- `HistoryDB.GetAllRecords`: LIMIT and OFFSET are natural numbers. SQLite's negative LIMIT (no limit) is not modelled.
- `HistoryDB.constructor`: it models a new, empty database file. A file that persists across runs is not modelled.
- NOT NULL constraint failures are not modelled. Every stored field has a value, because `NewRow` applies the defaults.
- `VideoInterface.WithSuffix`: it models `with_suffix` for a non-empty name only. Pathlib's normalisation of the rest of the path is not modelled.
- `PredictThread.SingleMaskFor`: it requires the index to be inside a per-image list. The `i < len(seg_masks)` check at gui_components/predict_thread.py:209 falls back to the whole list beyond it, which cannot happen after alignment.
- Masks of rank 0, 1 or above 4 are not modelled. numpy handles them in ways the model does not cover.
- `boxes is None` is taken as an empty box list. So the single-model path then writes an empty label file, where the application writes none.
- `VideoInterface.ScreenshotLines`: every box is taken to have `cls`, `xyxy` and `conf`. The fallbacks for boxes missing them are not modelled.
- `format_timestamp` and `format_file_size` in `utils/formatting.py` are not modelled. No core operation uses them.
- `load_model`, `load_default_model`, `_load_model_from_path` and `load_person_model` are not modelled. They load weights from disk; only `set_model`'s hand-over is modelled.
- The performance monitor and the history screen are not part of this model.
- `Formatting.Basename`, `Formatting.GetFilename`, `Formatting.DriveLength` and `Formatting.Extension` follow Windows path rules: both '/' and '\\' separate components and a "C:" drive is stripped. On a POSIX host `os.path.basename` and `os.path.splitext` split on '/' only. UNC prefixes (`\\server\share`) are not modelled.
- `Text.Lower`, `Text.PyInt` and `Text.ParseFloatToken`: ASCII case folding and ASCII digits only. Python's `str.lower()` also folds non-ASCII letters (U+212A KELVIN SIGN becomes 'k', so `get_source_type` at utils/formatting.py:120 can classify a path the model calls unknown). `int()` and `float()` also accept other Unicode decimal digits, and `float()` accepts `_` digit grouping; the model rejects those.
- `PredictThread.MergeAndSaveDualResults`: the dual loop names its label file with the corrected `DualLabelFile` (see Findings). With `save` off and `save_txt` on, the application raises `UnboundLocalError` on the first frame at gui_components/predict_thread.py:504, while the modelled run succeeds. Every screen passes `save` on, so the two agree on the inputs the application sends.
- `PredictThread.RunSteps`: a failing frame returns only the error. The frames before it have already written their image and label files to disk, and those writes are not part of the result.
- `BaseInterface.ModelLoader.SetModel`: a model without a `ckpt_path` attribute and one whose `ckpt_path` is `None` are the same value here. The application stores the text "None" in the second case (gui_components/base_interface.py:163-164).

## Findings

| source | as written | input that shows it | evidently intended | confidence | as-written member | corrected member |
|---|---|---|---|---|---|---|
| gui_components/predict_thread.py:486-505 | `filename` is assigned only inside `if self.params['save']`, but the label step uses it whenever `save_txt` is on | `save=False`, `save_txt` absent (default True): the first dual-model frame raises `UnboundLocalError` | name the label file after the image whether or not the image is saved, as the single-model path does | not executed | PredictThread.DualLabelFileAsWritten, PredictThread.UnsavedImageLosesLabels | PredictThread.DualLabelFile, PredictThread.DualLabelFileAgrees |
