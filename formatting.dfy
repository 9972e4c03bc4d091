/**
 * Small text helpers of the interface: image-size parsing, duration and confidence
 * text, the file name of a path and the classification of a data source by extension.
 * Paths follow Windows rules: both '/' and '\' separate components.
 */
module Formatting {
  import opened Wrappers
  import opened Text

  /** The separator of the size presets ("640×640"). */
  const Times: char := '×'

  /**
   * Parses "W×H" (or "WxH" when no '×' occurs): the text must split into exactly two
   * fields that `int()` accepts. `None` stands for the `ValueError` Python raises.
   */
  function ParseImageSize(sizeText: string): (r: Option<(int, int)>)
    ensures var parts := SplitOn(sizeText, if Times in sizeText then Times else 'x');
      r.Some? <==> |parts| == 2 && PyInt(parts[0]).Some? && PyInt(parts[1]).Some?
    ensures var parts := SplitOn(sizeText, if Times in sizeText then Times else 'x');
      r.Some? ==> r.value == (PyInt(parts[0]).value, PyInt(parts[1]).value)
  {
    var separator := if Times in sizeText then Times else 'x';
    var parts := SplitOn(sizeText, separator);
    if |parts| != 2 then None
    else
      match (PyInt(parts[0]), PyInt(parts[1]))
      case (Some(w), Some(h)) => Some((w, h))
      case _ => None
  }

  lemma SeparatorNotInNumber(n: int, c: char)
    requires c != '-' && !IsDigit(c)
    ensures c !in IntToString(n)
  {
    var s := IntToString(n);
    if n >= 0 {
      assert AllDigits(s);
    } else {
      assert AllDigits(s[1..]);
      assert forall i :: 1 <= i < |s| ==> s[i] == s[1..][i - 1];
    }
  }

  /** The size presets are shown as `f"{w}×{h}"`; parsing that text gives the pair back. */
  lemma ParseImageSizeOfPreset(w: int, h: int)
    ensures ParseImageSize(IntToString(w) + [Times] + IntToString(h)) == Some((w, h))
  {
    SeparatorNotInNumber(w, Times);
    SeparatorNotInNumber(h, Times);
    var a, b := IntToString(w), IntToString(h);
    var text := a + [Times] + b;
    assert text[|a|] == Times;
    SplitOnAt(a, Times, b);
    SplitOnFree(b, Times);
    assert SplitOn(text, Times) == [a, b];
    PyIntOfIntToString(w);
    PyIntOfIntToString(h);
  }

  /** The ASCII spelling "WxH" is accepted too, because it holds no '×'. */
  lemma ParseImageSizeOfAsciiText(w: int, h: int)
    ensures ParseImageSize(IntToString(w) + "x" + IntToString(h)) == Some((w, h))
  {
    SeparatorNotInNumber(w, Times);
    SeparatorNotInNumber(h, Times);
    SeparatorNotInNumber(w, 'x');
    SeparatorNotInNumber(h, 'x');
    var text := IntToString(w) + "x" + IntToString(h);
    assert Times !in text by {
      forall i | 0 <= i < |text| ensures text[i] != Times {
        if i < |IntToString(w)| {
          assert text[i] == IntToString(w)[i];
        } else if i > |IntToString(w)| {
          assert text[i] == IntToString(h)[i - |IntToString(w)| - 1];
        }
      }
    }
    SplitOnAt(IntToString(w), 'x', IntToString(h));
    SplitOnFree(IntToString(h), 'x');
    assert SplitOn(text, 'x') == [IntToString(w), IntToString(h)];
    PyIntOfIntToString(w);
    PyIntOfIntToString(h);
  }

  /**
   * Once a '×' occurs it is the only separator: "640x480×", say, splits into "640x480"
   * and "", so it fails although "640x480" alone parses.
   */
  lemma ParseImageSizeTrailingTimes(a: string)
    requires Times !in a
    ensures ParseImageSize(a + [Times]) == None
  {
    var text := a + [Times];
    assert text[|a|] == Times;
    assert text == a + [Times] + "";
    SplitOnAt(a, Times, "");
    SplitOnFree("", Times);
    assert SplitOn(text, Times) == [a, ""];
    assert Strip("") == "";
  }

  /** `format_duration`: "N/A" for a missing or non-positive duration, else two decimals and "s". */
  function FormatDuration(seconds: Option<real>): (r: string)
    ensures r == "N/A" <==> seconds.None? || seconds.value <= 0.0
    ensures r != "N/A" ==> EndsWith(r, "s") && r[..|r| - 1] == FormatFixed(seconds.value, 2)
  {
    if seconds.None? || seconds.value <= 0.0 then "N/A"
    else
      var r := FormatFixed(seconds.value, 2) + "s";
      assert r[|r| - 1] == 's' && r[..|r| - 1] == FormatFixed(seconds.value, 2);
      r
  }

  /** `format_confidence`: "N/A" for a missing value, else the percentage with one decimal and "%". */
  function FormatConfidence(confidence: Option<real>): (r: string)
    ensures r == "N/A" <==> confidence.None?
    ensures confidence.Some? ==> EndsWith(r, "%") && r[..|r| - 1] == FormatFixed(confidence.value * 100.0, 1)
  {
    if confidence.None? then "N/A"
    else
      var r := FormatFixed(confidence.value * 100.0, 1) + "%";
      assert r[|r| - 1] == '%' && r[..|r| - 1] == FormatFixed(confidence.value * 100.0, 1);
      r
  }

  predicate IsSeparator(c: char) {
    c == '/' || c == '\\'
  }

  /** Length of the drive prefix ("C:") of a Windows path. */
  function DriveLength(path: string): (n: nat)
    ensures n <= |path|
  {
    if |path| >= 2 && path[1] == ':' && !IsSeparator(path[0]) then 2 else 0
  }

  /** Index just after the last separator at or after `from`, or `from` when there is none. */
  function NameStart(path: string, from: nat): (i: nat)
    requires from <= |path|
    ensures from <= i <= |path|
    ensures i > from ==> IsSeparator(path[i - 1])
    ensures forall j :: i <= j < |path| ==> !IsSeparator(path[j])
    decreases |path| - from
  {
    if from == |path| then from
    else
      var rest := NameStart(path, from + 1);
      if rest == from + 1 && IsSeparator(path[from]) then from + 1
      else if rest > from + 1 then rest
      else from
  }

  /** `os.path.basename` (Windows rules): the text after the drive and the last separator. */
  function Basename(path: string): (name: string)
    ensures EndsWith(path, name)
    ensures forall j :: 0 <= j < |name| ==> !IsSeparator(name[j])
    ensures |path| - |name| == DriveLength(path) || (|name| < |path| && IsSeparator(path[|path| - |name| - 1]))
  {
    path[NameStart(path, DriveLength(path))..]
  }

  /** `get_filename`: "" for a missing or empty path, else its last component. */
  function GetFilename(path: Option<string>): (name: string)
    ensures path.None? || path.value == "" ==> name == ""
    ensures path.Some? ==> EndsWith(path.value, name)
    ensures forall j :: 0 <= j < |name| ==> !IsSeparator(name[j])
    ensures path.Some? && path.value != "" ==>
      |path.value| - |name| == DriveLength(path.value)
      || (|name| < |path.value| && IsSeparator(path.value[|path.value| - |name| - 1]))
  {
    if path.None? || path.value == "" then "" else Basename(path.value)
  }

  /** A bare file name, with no directory and no drive, is its own file name. */
  lemma GetFilenameOfBareName(name: string)
    requires name != [] && DriveLength(name) == 0
    requires forall j :: 0 <= j < |name| ==> !IsSeparator(name[j])
    ensures GetFilename(Some(name)) == name
  {
    var r := GetFilename(Some(name));
    assert name[|name| - |r|..] == r;
  }

  /** The component after a separator is what `get_filename` returns. */
  lemma {:induction false} GetFilenameOfJoined(dir: string, sep: char, name: string)
    requires IsSeparator(sep)
    requires forall j :: 0 <= j < |name| ==> !IsSeparator(name[j])
    ensures GetFilename(Some(dir + [sep] + name)) == name
  {
    var path := dir + [sep] + name;
    var d := DriveLength(path);
    var k := |dir| + 1;
    assert path[k - 1] == sep;
    assert path[k..] == name;
    var i := NameStart(path, d);
    assert d <= k by {
      if |dir| == 0 { assert IsSeparator(path[0]); }
    }
    assert IsSeparator(path[k - 1]);
    assert forall j :: k <= j < |path| ==> path[j] == name[j - k];
    assert i == k;
  }

  /** The classification `get_source_type` returns. */
  datatype SourceType = ImageSource | VideoSource | FolderSource | UnknownSource

  const ImageExtensions: seq<string> := [".jpg", ".jpeg", ".png", ".bmp", ".gif", ".tiff", ".webp"]
  const VideoExtensions: seq<string> := [".mp4", ".avi", ".mov", ".mkv", ".flv", ".wmv", ".webm"]

  /** Index of the last '.' of `path` at or after `from`, or -1. */
  function LastDot(path: string, from: nat): (i: int)
    requires from <= |path|
    ensures i == -1 || (from <= i < |path| && path[i] == '.')
    ensures forall j :: (if i == -1 then from else i + 1) <= j < |path| ==> path[j] != '.'
    decreases |path| - from
  {
    if from == |path| then -1
    else
      var rest := LastDot(path, from + 1);
      if rest != -1 then rest else if path[from] == '.' then from else -1
  }

  /** `path[lo..hi]` has a character other than '.'. */
  predicate HasNonDot(path: string, lo: nat, hi: nat)
    requires lo <= hi <= |path|
  {
    exists j :: lo <= j < hi && path[j] != '.'
  }

  lemma HasNonDotOfLower(path: string, lo: nat, hi: nat)
    requires lo <= hi <= |path|
    ensures HasNonDot(Lower(path), lo, hi) == HasNonDot(path, lo, hi)
  {
    var low := Lower(path);
    if HasNonDot(path, lo, hi) {
      var j :| lo <= j < hi && path[j] != '.';
      assert low[j] != '.';
    }
    if HasNonDot(low, lo, hi) {
      var j :| lo <= j < hi && low[j] != '.';
      assert path[j] != '.';
    }
  }

  /**
   * `os.path.splitext(path)[1]`: the text from the last '.' of the last component, provided
   * the component has a character other than '.' before it (leading dots do not start an
   * extension); otherwise "".
   */
  function Extension(path: string): (ext: string)
    ensures ext == "" || (ext[0] == '.' && EndsWith(path, ext))
    ensures forall j :: 0 <= j < |ext| ==> !IsSeparator(ext[j])
    ensures forall j :: 1 <= j < |ext| ==> ext[j] != '.'
  {
    var start := NameStart(path, 0);
    var dot := LastDot(path, start);
    if dot == -1 then ""
    else if HasNonDot(path, start, dot) then path[dot..]
    else ""
  }

  /**
   * `get_source_type`: an empty path is unknown, a directory is a folder whatever its name,
   * otherwise the lower-cased extension picks image or video.
   */
  function GetSourceType(filePath: string, isDirectory: bool): (t: SourceType)
    ensures filePath == "" ==> t == UnknownSource
    ensures t == FolderSource <==> filePath != "" && isDirectory
    ensures t == ImageSource <==> filePath != "" && !isDirectory && Lower(Extension(filePath)) in ImageExtensions
    ensures t == VideoSource <==> filePath != "" && !isDirectory && Lower(Extension(filePath)) in VideoExtensions
  {
    ExtensionListsDisjoint();
    if filePath == "" then UnknownSource
    else if isDirectory then FolderSource
    else
      var ext := Lower(Extension(filePath));
      if ext in ImageExtensions then ImageSource
      else if ext in VideoExtensions then VideoSource
      else UnknownSource
  }

  /**
   * A name with a character other than '.' before its last dot has the text from that
   * dot as its extension, whatever directory it sits in.
   */
  lemma ExtensionOfSuffixed(dir: string, base: string, e: string)
    requires dir == "" || IsSeparator(dir[|dir| - 1])
    requires forall j :: 0 <= j < |base| ==> !IsSeparator(base[j])
    requires exists j :: 0 <= j < |base| && base[j] != '.'
    requires forall j :: 0 <= j < |e| ==> !IsSeparator(e[j]) && e[j] != '.'
    ensures Extension(dir + base + "." + e) == "." + e
  {
    var path := dir + base + "." + e;
    var d := |dir| + |base|;
    assert forall j :: |dir| <= j < |path| ==> !IsSeparator(path[j]) by {
      forall j | |dir| <= j < |path| ensures !IsSeparator(path[j]) {
        if j < d { assert path[j] == base[j - |dir|]; }
        else if j > d { assert path[j] == e[j - d - 1]; }
      }
    }
    var start := NameStart(path, 0);
    if dir != "" {
      assert path[|dir| - 1] == dir[|dir| - 1];
    }
    assert start == |dir|;
    assert path[d] == '.';
    var dot := LastDot(path, start);
    assert forall j :: d < j < |path| ==> path[j] != '.' by {
      forall j | d < j < |path| ensures path[j] != '.' {
        assert path[j] == e[j - d - 1];
      }
    }
    assert dot == d;
    var k :| 0 <= k < |base| && base[k] != '.';
    assert path[|dir| + k] == base[k];
    assert HasNonDot(path, start, dot);
    assert path[dot..] == "." + e;
  }

  /** A name made of dots and then a dotless tail, such as ".bashrc", has no extension. */
  lemma ExtensionOfDotfile(dots: nat, e: string)
    requires forall j :: 0 <= j < |e| ==> !IsSeparator(e[j]) && e[j] != '.'
    ensures Extension(seq(dots, _ => '.') + e) == ""
  {
    var path := seq(dots, _ => '.') + e;
    assert forall j :: 0 <= j < |path| ==> !IsSeparator(path[j]) by {
      forall j | 0 <= j < |path| ensures !IsSeparator(path[j]) {
        if j >= dots { assert path[j] == e[j - dots]; }
      }
    }
    var start := NameStart(path, 0);
    assert start == 0;
    var dot := LastDot(path, 0);
    if dot != -1 {
      assert !HasNonDot(path, 0, dot);
    }
  }

  /** `splitext` keeps only the last suffix, and a leading dot starts no extension. */
  lemma ExtensionExamples()
    ensures Extension("a.tar.gz") == ".gz"
    ensures Extension(".bashrc") == ""
  {
    assert "a.tar"[0] != '.';
    ExtensionOfSuffixed("", "a.tar", "gz");
    assert "" + "a.tar" + "." + "gz" == "a.tar.gz";
    ExtensionOfDotfile(1, "bashrc");
    assert seq(1, _ => '.') + "bashrc" == ".bashrc";
  }

  /** A file in a folder with an upper-case image extension is an image. */
  lemma GetSourceTypeExample()
    ensures Extension("dir/x.JPG") == ".JPG"
    ensures GetSourceType("dir/x.JPG", false) == ImageSource
  {
    assert "x"[0] != '.';
    ExtensionOfSuffixed("dir/", "x", "JPG");
    assert "dir/" + "x" + "." + "JPG" == "dir/x.JPG";
    assert Lower(".JPG") == ".jpg";
  }

  /** No extension is both an image and a video extension. */
  lemma ExtensionListsDisjoint()
    ensures forall e :: e in ImageExtensions ==> e !in VideoExtensions
  {
  }

  lemma LowerIdempotent(s: string)
    ensures Lower(Lower(s)) == Lower(s)
  {
  }

  lemma {:induction false} NameStartOfLower(path: string, from: nat)
    requires from <= |path|
    ensures NameStart(Lower(path), from) == NameStart(path, from)
    decreases |path| - from
  {
    if from < |path| {
      NameStartOfLower(path, from + 1);
    }
  }

  lemma {:induction false} LastDotOfLower(path: string, from: nat)
    requires from <= |path|
    ensures LastDot(Lower(path), from) == LastDot(path, from)
    decreases |path| - from
  {
    if from < |path| {
      LastDotOfLower(path, from + 1);
    }
  }

  /** Lower-casing a path lower-cases its extension and nothing else about it. */
  lemma ExtensionOfLower(filePath: string)
    ensures Extension(Lower(filePath)) == Lower(Extension(filePath))
  {
    var low := Lower(filePath);
    NameStartOfLower(filePath, 0);
    var start := NameStart(filePath, 0);
    LastDotOfLower(filePath, start);
    var dot := LastDot(filePath, start);
    if dot != -1 {
      HasNonDotOfLower(filePath, start, dot);
      assert low[dot..] == Lower(filePath[dot..]);
    }
  }

  /** The extension test is case-insensitive: lower-casing the whole path changes no classification. */
  lemma GetSourceTypeCaseInsensitive(filePath: string, isDirectory: bool)
    ensures GetSourceType(Lower(filePath), isDirectory) == GetSourceType(filePath, isDirectory)
  {
    ExtensionOfLower(filePath);
    LowerIdempotent(Extension(filePath));
    assert Lower(Extension(Lower(filePath))) == Lower(Extension(filePath));
  }
}
