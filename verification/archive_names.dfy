/** Decomposition of the dependency archive references into default version
    strings: the JET library folder name into a label and a date-time
    revision, and the dynamic-UI webdriver archive name into a version. */
module ArchiveNames {
  import opened Wrappers
  import opened Strings
  import opened JsArrays
  import opened Paths

  // ---------------------------------------------------------------------
  // JET library folder: <label>-<revision>
  //   label    is <version>[-<release>]
  //   revision is <yyyy>-<mm>-<dd>_<hh>-<mm>-<ss>
  // ---------------------------------------------------------------------

  /** The revision is the trailing five dash-separated segments: the four
      dashes of the date-time stamp give five segments. */
  const RevisionWidth: nat := 5

  datatype JetParts = JetParts(versionLabel: string, revision: string)

  /** The dash-separated segments of a folder name. */
  function DashSegments(folder: string): seq<string>
  {
    Split(folder, '-')
  }

  /** Where `slice(0, n - 5)` stops and `slice(n - 5)` starts for a list of
      `n` segments: both clamp the same (possibly negative) index. */
  function Cut(n: nat): nat
  {
    RelativeIndex(n - RevisionWidth, n)
  }

  /** The segments before the cut: all but the last five, as far as the
      clamped slice index allows. */
  function LabelSegments(folder: string): seq<string>
  {
    var segs := DashSegments(folder);
    Slice(segs, 0, |segs| - RevisionWidth)
  }

  /** The segments from the cut on: the last five, or what the clamped slice
      index leaves of a shorter list. */
  function RevisionSegments(folder: string): seq<string>
  {
    var segs := DashSegments(folder);
    SliceFrom(segs, |segs| - RevisionWidth)
  }

  /** The JET label and revision of a folder name, each slice rejoined with
      dashes. Defined for every string: no input makes it fail. */
  function SplitJetFolder(folder: string): JetParts
  {
    JetParts(Join(LabelSegments(folder), '-'), Join(RevisionSegments(folder), '-'))
  }

  /** Label and revision segments partition the dash segments at the cut:
      `n - 5` when there are at least five segments, and `max(2n - 5, 0)`
      (what clamping a negative index twice gives) when there are fewer. */
  lemma JetSegmentsPartition(folder: string)
    ensures var segs := DashSegments(folder);
      && |segs| >= 1
      && LabelSegments(folder) + RevisionSegments(folder) == segs
      && LabelSegments(folder) == segs[..Cut(|segs|)]
      && RevisionSegments(folder) == segs[Cut(|segs|)..]
    ensures var n := |DashSegments(folder)|;
      && (n >= RevisionWidth ==> Cut(n) == n - RevisionWidth)
      && (n < RevisionWidth ==> Cut(n) == if 2 * n < RevisionWidth then 0 else 2 * n - RevisionWidth)
  {
    var segs := DashSegments(folder);
    SlicePartition(segs, |segs| - RevisionWidth);
  }

  /** With at least five segments the revision is exactly the last five, and
      splitting the revision string again gives those five back. */
  lemma JetRevisionIsLastFive(folder: string)
    requires |DashSegments(folder)| >= RevisionWidth
    ensures var segs := DashSegments(folder);
      && RevisionSegments(folder) == segs[|segs| - RevisionWidth..]
      && Split(SplitJetFolder(folder).revision, '-') == segs[|segs| - RevisionWidth..]
      && Count(SplitJetFolder(folder).revision, '-') == RevisionWidth - 1
  {
    var segs := DashSegments(folder);
    JetSegmentsPartition(folder);
    var rev := segs[|segs| - RevisionWidth..];
    assert forall i :: 0 <= i < |rev| ==> rev[i] == segs[|segs| - RevisionWidth + i];
    SplitJoin(rev, '-');
  }

  /** With at least six segments the label keeps every segment before the
      last five, and splitting it again gives those back. */
  lemma JetLabelIsTheRest(folder: string)
    requires |DashSegments(folder)| > RevisionWidth
    ensures var segs := DashSegments(folder);
      && LabelSegments(folder) == segs[..|segs| - RevisionWidth]
      && Split(SplitJetFolder(folder).versionLabel, '-') == segs[..|segs| - RevisionWidth]
  {
    var segs := DashSegments(folder);
    JetSegmentsPartition(folder);
    var lab := segs[..|segs| - RevisionWidth];
    assert forall i :: 0 <= i < |lab| ==> lab[i] == segs[i];
    SplitJoin(lab, '-');
  }

  /** Label and revision put back together with a dash give the folder name
      whenever the cut leaves segments on both sides; otherwise the label is
      empty and the revision is the whole folder name. */
  lemma {:induction false} JetReassembles(folder: string)
    ensures var n := |DashSegments(folder)|;
      var p := SplitJetFolder(folder);
      && (0 < Cut(n) ==> p.versionLabel + "-" + p.revision == folder)
      && (Cut(n) == 0 ==> p.versionLabel == "" && p.revision == folder)
  {
    var segs := DashSegments(folder);
    var n := |segs|;
    JetSegmentsPartition(folder);
    JoinSplit(folder, '-');
    if 0 < Cut(n) {
      JoinConcat(segs[..Cut(n)], segs[Cut(n)..], '-');
      assert segs[..Cut(n)] + segs[Cut(n)..] == segs;
    } else {
      assert segs[0..] == segs;
    }
  }

  /** The common case of a conforming folder name: with at least six
      segments, label and revision rejoin to the folder name. */
  lemma JetReassemblesConforming(folder: string)
    requires |DashSegments(folder)| > RevisionWidth
    ensures SplitJetFolder(folder).versionLabel + "-" + SplitJetFolder(folder).revision == folder
  {
    JetSegmentsPartition(folder);
    JetReassembles(folder);
  }

  /** Short folder names do not raise an error. With one, two or five
      segments the label is empty and the revision the whole name; with three
      or four segments the negative index clamps to a cut after the first or
      third segment. */
  lemma JetShortFolders(folder: string)
    requires |DashSegments(folder)| <= RevisionWidth
    ensures var segs := DashSegments(folder);
      var p := SplitJetFolder(folder);
      && (|segs| in {1, 2, 5} ==> p.versionLabel == "" && p.revision == folder)
      && (|segs| == 3 ==> p.versionLabel == segs[0] && p.revision == segs[1] + "-" + segs[2])
      && (|segs| == 4 ==> p.versionLabel == segs[0] + "-" + segs[1] + "-" + segs[2] && p.revision == segs[3])
  {
    var segs := DashSegments(folder);
    var n := |segs|;
    var p := SplitJetFolder(folder);
    JetSegmentsPartition(folder);
    assert p.versionLabel == Join(segs[..Cut(n)], '-') && p.revision == Join(segs[Cut(n)..], '-');
    if n == 3 {
      JoinCutAfterFirst(segs);
    } else if n == 4 {
      JoinCutBeforeLast(segs);
    } else {
      JetReassembles(folder);
    }
  }

  /** Three segments cut after the first. */
  lemma JoinCutAfterFirst(segs: seq<string>)
    requires |segs| == 3
    ensures Join(segs[..1], '-') == segs[0]
    ensures Join(segs[1..], '-') == segs[1] + "-" + segs[2]
  {
    assert segs[1..][1..] == [segs[2]];
  }

  /** Four segments cut before the last. */
  lemma JoinCutBeforeLast(segs: seq<string>)
    requires |segs| == 4
    ensures Join(segs[..3], '-') == segs[0] + "-" + segs[1] + "-" + segs[2]
    ensures Join(segs[3..], '-') == segs[3]
  {
    var init := segs[..3];
    assert init[1..] == [segs[1], segs[2]];
    assert init[1..][1..] == [segs[2]];
    assert Join(init[1..], '-') == segs[1] + "-" + segs[2];
  }

  /** A revision stamp `<yyyy>-<mm>-<dd>_<hh>-<mm>-<ss>`. */
  datatype Stamp = Stamp(year: string, month: string, day: string,
                         hour: string, minute: string, second: string)
  {
    /** No field contains a dash, so the stamp has exactly four. */
    predicate Valid()
    {
      '-' !in year && '-' !in month && '-' !in day + "_" + hour && '-' !in minute && '-' !in second
    }

    function Text(): string
    {
      year + "-" + month + "-" + day + "_" + hour + "-" + minute + "-" + second
    }

    function Segments(): seq<string>
    {
      [year, month, day + "_" + hour, minute, second]
    }
  }

  /** The stamp text is its five segments joined by dashes. */
  lemma StampJoin(st: Stamp)
    ensures Join(st.Segments(), '-') == st.Text()
  {
    var dh := st.day + "_" + st.hour;
    var s1 := [st.year] + [st.month];
    var s2 := s1 + [dh];
    var s3 := s2 + [st.minute];
    assert st.Segments() == s3 + [st.second];
    JoinConcat([st.year], [st.month], '-');
    JoinConcat(s1, [dh], '-');
    JoinConcat(s2, [st.minute], '-');
    JoinConcat(s3, [st.second], '-');
  }

  /** A valid stamp splits back into its five segments. */
  lemma StampSplit(st: Stamp)
    requires st.Valid()
    ensures Split(st.Text(), '-') == st.Segments()
    ensures |Split(st.Text(), '-')| == RevisionWidth
  {
    var s := st.Segments();
    assert forall i :: 0 <= i < |s| ==> '-' !in s[i];
    SplitJoin(s, '-');
    StampJoin(st);
  }

  /** Decomposition inverts composition: any label, followed by a dash and a
      well-formed revision stamp, decomposes into that label and stamp. */
  lemma JetComposeDecompose(versionLabel: string, st: Stamp)
    requires st.Valid()
    ensures SplitJetFolder(versionLabel + "-" + st.Text()) == JetParts(versionLabel, st.Text())
  {
    var folder := versionLabel + "-" + st.Text();
    StampSplit(st);
    StampJoin(st);
    SplitConcat(versionLabel, st.Text(), '-');
    var segs := DashSegments(folder);
    var ls := Split(versionLabel, '-');
    assert segs == ls + st.Segments();
    JetSegmentsPartition(folder);
    assert segs[..Cut(|segs|)] == ls;
    assert segs[Cut(|segs|)..] == st.Segments();
    JoinSplit(versionLabel, '-');
  }

  /** A release build folder: "a-b" is the label and the rest the revision. */
  lemma JetExample()
    ensures SplitJetFolder("a-b-2024-01-02_03-04-05") == JetParts("a-b", "2024-01-02_03-04-05")
  {
    var st := Stamp("2024", "01", "02", "03", "04", "05");
    assert st.Text() == "2024-01-02_03-04-05";
    assert "a-b-2024-01-02_03-04-05" == "a-b" + "-" + st.Text();
    JetComposeDecompose("a-b", st);
  }

  // ---------------------------------------------------------------------
  // Webdriver archive: the version is what follows "webdriver-"
  // ---------------------------------------------------------------------

  const WebdriverMarker := "webdriver-"

  /** The archive extension `path.basename` strips. */
  const ArchiveExtension := ".tgz"

  /** The characters a regular-expression `.` does not match. */
  predicate LineTerminator(c: char)
  {
    c == '\n' || c == '\r' || c == '\U{2028}' || c == '\U{2029}'
  }

  /** What a greedy `(.*)` consumes: the longest prefix of `s` without a line
      terminator. */
  function TakeLine(s: string): (r: string)
    ensures r <= s
    ensures forall k :: 0 <= k < |r| ==> !LineTerminator(r[k])
    ensures |r| < |s| ==> LineTerminator(s[|r|])
  {
    if |s| == 0 || LineTerminator(s[0]) then "" else [s[0]] + TakeLine(s[1..])
  }

  /** The result of a successful `match`: where it starts and group 1. */
  datatype RegexMatch = RegexMatch(index: nat, capture: string)

  /** `s.match(/webdriver-(.*)/)`: the leftmost occurrence of the marker and
      the longest run of non-line-terminators after it; `None` is the `null`
      that makes the subsequent `[1]` throw. */
  function MatchWebdriver(s: string): (r: Option<RegexMatch>)
    ensures r.None? <==> forall j :: !OccursAt(s, WebdriverMarker, j)
    ensures r.Some? ==> OccursAt(s, WebdriverMarker, r.value.index)
    ensures r.Some? ==> forall j :: 0 <= j < r.value.index ==> !OccursAt(s, WebdriverMarker, j)
    ensures r.Some? ==>
      var start := r.value.index + |WebdriverMarker|;
      var end := start + |r.value.capture|;
      && end <= |s| && s[start..end] == r.value.capture
      && (forall k :: start <= k < end ==> !LineTerminator(s[k]))
      && (end < |s| ==> LineTerminator(s[end]))
  {
    match IndexOf(s, WebdriverMarker)
    case None => None
    case Some(i) =>
      var rest := s[i + |WebdriverMarker|..];
      var cap := TakeLine(rest);
      assert forall k :: 0 <= k < |cap| ==> cap[k] == s[i + |WebdriverMarker| + k];
      Some(RegexMatch(i, cap))
  }

  /** The version of the dynamic-UI webdriver archive: the match on its base
      name without ".tgz". There is none exactly when that name lacks the
      marker, and a version never spans a line. */
  function WebdriverVersion(path: string): (r: Option<string>)
    ensures var archive := BaseNameWithout(path, ArchiveExtension);
      r.None? <==> forall j :: !OccursAt(archive, WebdriverMarker, j)
    ensures r.Some? ==> forall k :: 0 <= k < |r.value| ==> !LineTerminator(r.value[k])
  {
    match MatchWebdriver(BaseNameWithout(path, ArchiveExtension))
    case None => None
    case Some(m) => Some(m.capture)
  }

  /** On a single-line string the capture is everything after the leftmost
      marker. */
  lemma WebdriverCaptureIsRest(s: string)
    requires forall k :: 0 <= k < |s| ==> !LineTerminator(s[k])
    requires MatchWebdriver(s).Some?
    ensures var m := MatchWebdriver(s).value;
      s == s[..m.index] + WebdriverMarker + m.capture
  {
    var m := MatchWebdriver(s).value;
    var start := m.index + |WebdriverMarker|;
    assert s[m.index..start] == WebdriverMarker;
    assert start + |m.capture| == |s|;
    assert s == s[..m.index] + s[m.index..start] + s[start..];
  }

  /** Whatever the path, when its base name without ".tgz" is
      `<prefix>webdriver-<rest>` and the prefix does not reach into the
      marker, the version is the first line of `<rest>`. */
  lemma WebdriverVersionIsRest(path: string, prefix: string, rest: string)
    requires BaseNameWithout(path, ArchiveExtension) == prefix + WebdriverMarker + rest
    requires forall j :: 0 <= j < |prefix| ==> !OccursAt(prefix + WebdriverMarker + rest, WebdriverMarker, j)
    ensures WebdriverVersion(path) == Some(TakeLine(rest))
  {
    var name := prefix + WebdriverMarker + rest;
    assert OccursAt(name, WebdriverMarker, |prefix|) by {
      assert name[|prefix|..|prefix| + |WebdriverMarker|] == WebdriverMarker;
    }
    assert IndexOf(name, WebdriverMarker) == Some(|prefix|);
    assert name[|prefix| + |WebdriverMarker|..] == rest;
  }

  /** An archive `<dir>/<prefix>webdriver-<version>.tgz` whose prefix does not
      reach into the marker yields `<version>`. */
  lemma WebdriverVersionOfArchive(dir: string, prefix: string, version: string)
    requires '/' !in prefix + WebdriverMarker + version
    requires forall k :: 0 <= k < |version| ==> !LineTerminator(version[k])
    requires forall j :: 0 <= j < |prefix| ==> !OccursAt(prefix + WebdriverMarker + version, WebdriverMarker, j)
    ensures WebdriverVersion(dir + ['/'] + (prefix + WebdriverMarker + version + ArchiveExtension)) == Some(version)
  {
    var name := prefix + WebdriverMarker + version;
    BaseNameWithoutExtension(dir, name, ArchiveExtension);
    assert OccursAt(name, WebdriverMarker, |prefix|) by {
      assert name[|prefix|..|prefix| + |WebdriverMarker|] == WebdriverMarker;
    }
    var m := MatchWebdriver(name).value;
    assert m.index == |prefix|;
    assert name[|prefix| + |WebdriverMarker|..] == version;
    assert m.capture == version;
  }

  /** The marker cannot start inside a prefix that has no 'w'. */
  lemma MarkerNotInPrefix(prefix: string, rest: string)
    requires 'w' !in prefix
    ensures forall j :: 0 <= j < |prefix| ==> !OccursAt(prefix + rest, WebdriverMarker, j)
  {
    forall j | 0 <= j < |prefix|
      ensures !OccursAt(prefix + rest, WebdriverMarker, j)
    {
      assert (prefix + rest)[j] == prefix[j];
    }
  }

  /** The example archive "x-webdriver-9.9.9.tgz" has version "9.9.9",
      wherever it is stored. */
  lemma WebdriverExample(dir: string)
    ensures WebdriverVersion(dir + "/x-webdriver-9.9.9.tgz") == Some("9.9.9")
  {
    var prefix, version := "x-", "9.9.9";
    assert dir + "/x-webdriver-9.9.9.tgz" == dir + "/" + (prefix + WebdriverMarker + version + ArchiveExtension);
    MarkerNotInPrefix(prefix, WebdriverMarker + version);
    assert prefix + (WebdriverMarker + version) == prefix + WebdriverMarker + version;
    assert forall k :: 0 <= k < |version| ==> !LineTerminator(version[k]);
    WebdriverVersionOfArchive(dir, prefix, version);
  }
}
