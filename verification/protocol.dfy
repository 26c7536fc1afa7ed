/**
 * The two sides of the line protocol put together: what the detection
 * callback prints for one frame, read back line by line by the monitor's
 * parser, leaves the frame count, the current-frame counts and the unique
 * counts the callback printed in the monitor's statistics.
 */
module Protocol {
  import opened Wrappers
  import opened PyText
  import opened Risk
  import opened OutputParser
  import opened StatsAggregator
  import opened Detection

  // ---------------------------------------------------------------------------
  // Lines the parser ignores
  // ---------------------------------------------------------------------------

  /** A line without a 'u' carries no marker, so handling it changes nothing. */
  lemma QuietReading(a: Aggregate, r: Reading)
    requires 'u' !in r.text
    ensures ApplyReading(a, r) == a
  {
    var line := Strip(r.text);
    if line != [] {
      NoUIsSilent(line);
    }
  }

  /** Readings none of whose lines holds a 'u'. */
  predicate Quiet(rs: seq<Reading>) {
    forall k :: 0 <= k < |rs| ==> 'u' !in rs[k].text
  }

  /** A batch of such lines changes nothing either. */
  lemma {:induction false} FoldQuiet(a: Aggregate, rs: seq<Reading>)
    requires Quiet(rs)
    ensures Fold(a, rs) == a
    decreases |rs|
  {
    if rs != [] {
      FoldQuiet(a, rs[..|rs| - 1]);
      QuietReading(a, rs[|rs| - 1]);
    }
  }

  /** The report line of a bee or a varroa holds no 'u' and no newline. */
  lemma LabelLineFree(d: Detection, ch: char)
    requires d.className == Bee || d.className == Varroa
    requires ch == 'u' || ch == '\n'
    ensures ch !in LabelLine(d)
  {
    var id := IntToString(TrackId(d));
    var conf := Fixed2(d.confidence);
    assert ch !in id && ch !in conf;
    assert ch !in d.className;
    assert LabelLine(d) == "Label: " + d.className + " Track ID: " + id + " Confidence: " + conf;
  }

  /** No report line of a frame's detections holds a 'u' or a newline. */
  lemma {:induction false} LabelLinesFree(ds: seq<Detection>, ch: char)
    requires ch == 'u' || ch == '\n'
    ensures Free(LabelLines(ds), ch)
    decreases |ds|
  {
    if ds != [] {
      var init, d := ds[..|ds| - 1], ds[|ds| - 1];
      var last := if CountsAs(d, Bee) || CountsAs(d, Varroa) then [LabelLine(d)] else [];
      LabelLinesFree(init, ch);
      if CountsAs(d, Bee) || CountsAs(d, Varroa) {
        LabelLineFree(d, ch);
      }
      assert Free(last, ch);
      FreeConcat(LabelLines(init), last, ch);
      assert LabelLines(ds) == LabelLines(init) + last;
    }
  }

  /** The cumulative-count lines hold no 'u' either: app.py does not read them. */
  lemma TotalLinesQuiet(n: int)
    ensures 'u' !in MarkerLine(TotalBeesLabel, n) && 'u' !in MarkerLine(TotalVarroaLabel, n)
  {
    LabelCharacters();
    CharNotInMarkerLine(TotalBeesLabel, n, 'u');
    CharNotInMarkerLine(TotalVarroaLabel, n, 'u');
  }

  // ---------------------------------------------------------------------------
  // Marker lines
  // ---------------------------------------------------------------------------

  /** A letter missing from the marker is missing from its line. */
  lemma CharNotInMarkerLine(m: string, n: int, c: char)
    requires c !in m && c != ' ' && c != '-' && !IsDigit(c)
    ensures c !in MarkerLine(m, n)
  {
    var digits := IntToString(n);
    assert c !in digits;
    assert MarkerLine(m, n) == m + [' '] + digits;
  }

  /** The letters that tell the markers apart: each marker line lacks a letter of every
      other marker. */
  lemma FrameLetters()
    ensures 'U' !in FrameCountMarker && 'C' !in FrameCountMarker
    ensures 'U' in UniqueBeesMarker && 'U' in UniqueVarroaMarker
    ensures 'C' in CurrentBeesMarker && 'C' in CurrentVarroaMarker
  {
    assert UniqueBeesMarker[0] == 'U' && UniqueVarroaMarker[0] == 'U';
    assert CurrentBeesMarker[0] == 'C' && CurrentVarroaMarker[0] == 'C';
  }

  lemma CurrentBeesLetters()
    ensures 'U' !in CurrentBeesMarker && 'v' !in CurrentBeesMarker && 'F' !in CurrentBeesMarker
    ensures 'U' in UniqueBeesMarker && 'U' in UniqueVarroaMarker
    ensures 'v' in CurrentVarroaMarker && 'F' in FrameCountMarker
  {
    assert UniqueBeesMarker[0] == 'U' && UniqueVarroaMarker[0] == 'U';
    assert CurrentVarroaMarker[14] == 'v' && FrameCountMarker[0] == 'F';
  }

  lemma CurrentVarroaLetters()
    ensures 'U' !in CurrentVarroaMarker && 'b' !in CurrentVarroaMarker && 'F' !in CurrentVarroaMarker
    ensures 'U' in UniqueBeesMarker && 'U' in UniqueVarroaMarker
    ensures 'b' in CurrentBeesMarker && 'F' in FrameCountMarker
  {
    assert UniqueBeesMarker[0] == 'U' && UniqueVarroaMarker[0] == 'U';
    assert CurrentBeesMarker[14] == 'b' && FrameCountMarker[0] == 'F';
  }

  lemma UniqueBeesLetters()
    ensures 'C' !in UniqueBeesMarker && 'v' !in UniqueBeesMarker && 'F' !in UniqueBeesMarker
    ensures 'v' in UniqueVarroaMarker && 'C' in CurrentBeesMarker && 'C' in CurrentVarroaMarker
    ensures 'F' in FrameCountMarker
  {
    assert UniqueVarroaMarker[7] == 'v' && FrameCountMarker[0] == 'F';
    assert CurrentBeesMarker[0] == 'C' && CurrentVarroaMarker[0] == 'C';
  }

  lemma UniqueVarroaLetters()
    ensures 'C' !in UniqueVarroaMarker && 'b' !in UniqueVarroaMarker && 'F' !in UniqueVarroaMarker
    ensures 'b' in UniqueBeesMarker && 'C' in CurrentBeesMarker && 'C' in CurrentVarroaMarker
    ensures 'F' in FrameCountMarker
  {
    assert UniqueBeesMarker[7] == 'b' && FrameCountMarker[0] == 'F';
    assert CurrentBeesMarker[0] == 'C' && CurrentVarroaMarker[0] == 'C';
  }

  /** No label of the report holds a newline, and the two total labels hold no 'u'. */
  lemma LabelCharacters()
    ensures '\n' !in UniqueBeesMarker && '\n' !in UniqueVarroaMarker && '\n' !in FrameCountMarker
    ensures '\n' !in CurrentBeesMarker && '\n' !in CurrentVarroaMarker
    ensures '\n' !in TotalBeesLabel && '\n' !in TotalVarroaLabel
    ensures 'u' !in TotalBeesLabel && 'u' !in TotalVarroaLabel
  {
  }

  /** Each marker line is read back as its own value and no other: every other marker
      holds a letter the line lacks. */
  lemma FrameLineFields(n: int)
    ensures Fields(MarkerLine(FrameCountMarker, n)) == NoFields.(frameCount := Some(n))
  {
    FrameLetters();
    MarkersAreWordlike(FrameCountMarker);
    MarkerLineValue(FrameCountMarker, n);
    Lacks(FrameCountMarker, n, UniqueBeesMarker, 'U');
    Lacks(FrameCountMarker, n, UniqueVarroaMarker, 'U');
    Lacks(FrameCountMarker, n, CurrentBeesMarker, 'C');
    Lacks(FrameCountMarker, n, CurrentVarroaMarker, 'C');
  }

  lemma CurrentBeesLineFields(n: int)
    ensures Fields(MarkerLine(CurrentBeesMarker, n)) == NoFields.(currentBees := Some(n))
  {
    CurrentBeesLetters();
    MarkersAreWordlike(CurrentBeesMarker);
    MarkerLineValue(CurrentBeesMarker, n);
    Lacks(CurrentBeesMarker, n, UniqueBeesMarker, 'U');
    Lacks(CurrentBeesMarker, n, UniqueVarroaMarker, 'U');
    Lacks(CurrentBeesMarker, n, CurrentVarroaMarker, 'v');
    Lacks(CurrentBeesMarker, n, FrameCountMarker, 'F');
  }

  lemma CurrentVarroaLineFields(n: int)
    ensures Fields(MarkerLine(CurrentVarroaMarker, n)) == NoFields.(currentVarroa := Some(n))
  {
    CurrentVarroaLetters();
    MarkersAreWordlike(CurrentVarroaMarker);
    MarkerLineValue(CurrentVarroaMarker, n);
    Lacks(CurrentVarroaMarker, n, UniqueBeesMarker, 'U');
    Lacks(CurrentVarroaMarker, n, UniqueVarroaMarker, 'U');
    Lacks(CurrentVarroaMarker, n, CurrentBeesMarker, 'b');
    Lacks(CurrentVarroaMarker, n, FrameCountMarker, 'F');
  }

  lemma UniqueBeesLineFields(n: int)
    ensures Fields(MarkerLine(UniqueBeesMarker, n)) == NoFields.(uniqueBees := Some(n))
  {
    UniqueBeesLetters();
    MarkersAreWordlike(UniqueBeesMarker);
    MarkerLineValue(UniqueBeesMarker, n);
    Lacks(UniqueBeesMarker, n, UniqueVarroaMarker, 'v');
    Lacks(UniqueBeesMarker, n, CurrentBeesMarker, 'C');
    Lacks(UniqueBeesMarker, n, CurrentVarroaMarker, 'C');
    Lacks(UniqueBeesMarker, n, FrameCountMarker, 'F');
  }

  lemma UniqueVarroaLineFields(n: int)
    ensures Fields(MarkerLine(UniqueVarroaMarker, n)) == NoFields.(uniqueVarroa := Some(n))
  {
    UniqueVarroaLetters();
    MarkersAreWordlike(UniqueVarroaMarker);
    MarkerLineValue(UniqueVarroaMarker, n);
    Lacks(UniqueVarroaMarker, n, UniqueBeesMarker, 'b');
    Lacks(UniqueVarroaMarker, n, CurrentBeesMarker, 'C');
    Lacks(UniqueVarroaMarker, n, CurrentVarroaMarker, 'C');
    Lacks(UniqueVarroaMarker, n, FrameCountMarker, 'F');
  }

  /** Marker `other` is absent from the line of marker `m`, told apart by letter `c`. */
  lemma Lacks(m: string, n: int, other: string, c: char)
    requires c !in m && c in other && c != ' ' && c != '-' && !IsDigit(c)
    ensures FieldValue(MarkerLine(m, n), other) == None
  {
    CharNotInMarkerLine(m, n, c);
    AbsentMarker(MarkerLine(m, n), other, c);
  }

  /** A marker line starts with a letter and ends with a digit, so `strip()` keeps it whole. */
  lemma StripMarkerLine(m: string, n: int)
    requires m != [] && !IsSpace(m[0])
    ensures Strip(MarkerLine(m, n)) == MarkerLine(m, n)
  {
    var digits := IntToString(n);
    var line := MarkerLine(m, n);
    assert line == m + " " + digits;
    assert line[0] == m[0];
    assert line[|line| - 1] == digits[|digits| - 1];
  }

  /** Reading the frame-count line is the parser step for that one value. */
  lemma FrameReading(a: Aggregate, r: Reading, n: int)
    requires r.text == MarkerLine(FrameCountMarker, n)
    ensures ApplyReading(a, r) == Step(a, NoFields.(frameCount := Some(n)), r.now, r.stamp)
  {
    assert FrameCountMarker[0] == 'F';
    StripMarkerLine(FrameCountMarker, n);
    FrameLineFields(n);
  }

  /** Reading a current-frame line sets that one count. */
  lemma CurrentBeesReading(a: Aggregate, r: Reading, n: int)
    requires r.text == MarkerLine(CurrentBeesMarker, n)
    ensures ApplyReading(a, r) == a.(stats := a.stats.(currentBees := n))
  {
    assert CurrentBeesMarker[0] == 'C';
    StripMarkerLine(CurrentBeesMarker, n);
    CurrentBeesLineFields(n);
  }

  lemma CurrentVarroaReading(a: Aggregate, r: Reading, n: int)
    requires r.text == MarkerLine(CurrentVarroaMarker, n)
    ensures ApplyReading(a, r) == a.(stats := a.stats.(currentVarroa := n))
  {
    assert CurrentVarroaMarker[0] == 'C';
    StripMarkerLine(CurrentVarroaMarker, n);
    CurrentVarroaLineFields(n);
  }

  /** Reading a unique-count line sets the unique count and the total count alike. */
  lemma UniqueBeesReading(a: Aggregate, r: Reading, n: int)
    requires r.text == MarkerLine(UniqueBeesMarker, n)
    ensures ApplyReading(a, r) == a.(stats := a.stats.(uniqueBees := n, totalBees := n))
  {
    assert UniqueBeesMarker[0] == 'U';
    StripMarkerLine(UniqueBeesMarker, n);
    UniqueBeesLineFields(n);
  }

  lemma UniqueVarroaReading(a: Aggregate, r: Reading, n: int)
    requires r.text == MarkerLine(UniqueVarroaMarker, n)
    ensures ApplyReading(a, r) == a.(stats := a.stats.(uniqueVarroa := n, totalVarroa := n))
  {
    assert UniqueVarroaMarker[0] == 'U';
    StripMarkerLine(UniqueVarroaMarker, n);
    UniqueVarroaLineFields(n);
  }

  // ---------------------------------------------------------------------------
  // One report, read back
  // ---------------------------------------------------------------------------

  /** The text one callback prints, `print(string_to_print)` with its own newline: split at
      its newlines it is the report lines and two empty pieces, the last of them after the
      final newline, so `readline()` delivers the report lines and then one empty line. */
  lemma {:induction false} PrintedLines(lines: seq<string>)
    requires Free(lines, '\n')
    ensures SplitOn(Emit(lines) + "\n", '\n') == lines + ["", ""]
    ensures Readlines(Emit(lines) + "\n") == lines + [""]
  {
    EmitJoin(lines);
    SplitJoin(lines + ["", ""], '\n');
    assert (lines + ["", ""])[..|lines| + 1] == lines + [""];
  }

  lemma {:induction false} EmitJoin(lines: seq<string>)
    ensures Join(lines + ["", ""], '\n') == Emit(lines) + "\n"
    decreases |lines|
  {
    if lines == [] {
      assert lines + ["", ""] == ["", ""];
      assert Join(["", ""], '\n') == "" + "\n" + Join([""], '\n');
    } else {
      EmitJoin(lines[1..]);
      assert (lines + ["", ""])[1..] == lines[1..] + ["", ""];
    }
  }

  /** No line of `lines` holds `ch`. */
  predicate Free(lines: seq<string>, ch: char) {
    forall k :: 0 <= k < |lines| ==> ch !in lines[k]
  }

  lemma FreeConcat(xs: seq<string>, ys: seq<string>, ch: char)
    requires Free(xs, ch) && Free(ys, ch)
    ensures Free(xs + ys, ch)
  {
    forall k | 0 <= k < |xs + ys| ensures ch !in (xs + ys)[k] {
      if k >= |xs| {
        assert (xs + ys)[k] == ys[k - |xs|];
      }
    }
  }

  lemma HeadNoNewline(n: int)
    ensures Free([MarkerLine(FrameCountMarker, n)], '\n')
  {
    LabelCharacters();
    CharNotInMarkerLine(FrameCountMarker, n, '\n');
  }

  /** No report line holds a newline. */
  lemma ReportLinesSingle(c: Counters, ds: seq<Detection>)
    ensures Free(ReportLines(c, LabelLines(ds)), '\n')
  {
    var head := [MarkerLine(FrameCountMarker, c.frameCount)];
    HeadNoNewline(c.frameCount);
    LabelLinesFree(ds, '\n');
    SummaryNoNewlines(c);
    FreeConcat(head, LabelLines(ds), '\n');
    FreeConcat(head + LabelLines(ds), SummaryLines(c), '\n');
  }

  lemma SummaryNoNewlines(c: Counters)
    ensures Free(SummaryLines(c), '\n')
  {
    LabelCharacters();
    CharNotInMarkerLine(CurrentBeesMarker, c.currentFrameBees, '\n');
    CharNotInMarkerLine(CurrentVarroaMarker, c.currentFrameVarroa, '\n');
    CharNotInMarkerLine(TotalBeesLabel, c.beeCount, '\n');
    CharNotInMarkerLine(TotalVarroaLabel, c.varroaCount, '\n');
    CharNotInMarkerLine(UniqueBeesMarker, |c.uniqueBeeIds|, '\n');
    CharNotInMarkerLine(UniqueVarroaMarker, |c.uniqueVarroaIds|, '\n');
    SixFree(MarkerLine(CurrentBeesMarker, c.currentFrameBees), MarkerLine(CurrentVarroaMarker, c.currentFrameVarroa),
            MarkerLine(TotalBeesLabel, c.beeCount), MarkerLine(TotalVarroaLabel, c.varroaCount),
            MarkerLine(UniqueBeesMarker, |c.uniqueBeeIds|), MarkerLine(UniqueVarroaMarker, |c.uniqueVarroaIds|), '\n');
  }

  lemma SixFree(l0: string, l1: string, l2: string, l3: string, l4: string, l5: string, ch: char)
    requires ch !in l0 && ch !in l1 && ch !in l2 && ch !in l3 && ch !in l4 && ch !in l5
    ensures Free([l0, l1, l2, l3, l4, l5], ch)
  {
  }

  /** The readings of one printed report, each line with the clock readings taken while
      the monitor handled it. */
  predicate ReadsBack(rs: seq<Reading>, printed: string) {
    var parts := Readlines(printed);
    |rs| == |parts| && forall k :: 0 <= k < |rs| ==> rs[k].text == parts[k]
  }

  /** The statistics fields a report is meant to reproduce. */
  predicate Reproduces(st: Stats, c: Counters) {
    st.totalFrames == c.frameCount &&
    st.currentBees == c.currentFrameBees && st.currentVarroa == c.currentFrameVarroa &&
    st.uniqueBees == |c.uniqueBeeIds| && st.totalBees == |c.uniqueBeeIds| &&
    st.uniqueVarroa == |c.uniqueVarroaIds| && st.totalVarroa == |c.uniqueVarroaIds|
  }

  /** The ratio and risk level after the frame-count line of frame `frame`, read when the
      statistics held `st`: a sample on every tenth frame, computed from the unique
      counts of `st`, and otherwise what `st` held. */
  predicate SampledFrom(r: Stats, st: Stats, frame: int) {
    if frame % 10 == 0 then
      r.infestationRatio == InfestationRatio(st.uniqueVarroa, st.uniqueBees) &&
      r.riskLevel == Classify(r.infestationRatio)
    else
      r.infestationRatio == st.infestationRatio && r.riskLevel == st.riskLevel
  }

  /** What the callback prints for a frame, read back by the monitor, leaves in the
      statistics the frame count, the current-frame counts and the unique counts that were
      printed, with both cumulative counts taken from the unique ones. The ratio and risk
      level are those of the sample taken at the frame-count line, the first line of the
      report, from the unique counts read before this report. */
  lemma RoundTrip(a: Aggregate, c: Counters, ds: seq<Detection>, rs: seq<Reading>)
    requires ReadsBack(rs, Emit(ReportLines(c, LabelLines(ds))) + "\n")
    ensures Reproduces(Fold(a, rs).stats, c)
    ensures SampledFrom(Fold(a, rs).stats, a.stats, c.frameCount)
  {
    var labels := LabelLines(ds);
    ReportLinesSingle(c, ds);
    PrintedLines(ReportLines(c, labels));
    LabelLinesFree(ds, 'u');
    ReadReport(a, c, labels, rs);
  }

  /** The round trip, once the printed text is split into its lines. */
  lemma ReadReport(a: Aggregate, c: Counters, labels: seq<string>, rs: seq<Reading>)
    requires Free(labels, 'u')
    requires var parts := ReportLines(c, labels) + [""];
      |rs| == |parts| && forall k :: 0 <= k < |rs| ==> rs[k].text == parts[k]
    ensures Reproduces(Fold(a, rs).stats, c)
    ensures SampledFrom(Fold(a, rs).stats, a.stats, c.frameCount)
  {
    ReportTexts(c, labels, rs);
    ReadSplit(a, c, rs, |labels|);
  }

  /** The three runs of lines of a report, as readings. */
  lemma ReportTexts(c: Counters, labels: seq<string>, rs: seq<Reading>)
    requires Free(labels, 'u')
    requires var parts := ReportLines(c, labels) + [""];
      |rs| == |parts| && forall k :: 0 <= k < |rs| ==> rs[k].text == parts[k]
    ensures |rs| == |labels| + 8
    ensures rs[0].text == MarkerLine(FrameCountMarker, c.frameCount)
    ensures Quiet(rs[1..|labels| + 1])
    ensures var tail := rs[|labels| + 1..];
      tail[0].text == MarkerLine(CurrentBeesMarker, c.currentFrameBees) &&
      tail[1].text == MarkerLine(CurrentVarroaMarker, c.currentFrameVarroa) &&
      tail[2].text == MarkerLine(TotalBeesLabel, c.beeCount) &&
      tail[3].text == MarkerLine(TotalVarroaLabel, c.varroaCount) &&
      tail[4].text == MarkerLine(UniqueBeesMarker, |c.uniqueBeeIds|) &&
      tail[5].text == MarkerLine(UniqueVarroaMarker, |c.uniqueVarroaIds|) &&
      tail[6].text == ""
  {
    var L := |labels|;
    var first, rest := [MarkerLine(FrameCountMarker, c.frameCount)], SummaryLines(c) + [""];
    var parts := ReportLines(c, labels) + [""];
    assert parts == first + labels + rest;
    Segments(rs, parts, first, labels, rest);
    var body := rs[1..L + 1];
    assert Quiet(body) by {
      forall k | 0 <= k < |body| ensures 'u' !in body[k].text {
        assert body[k].text == labels[k];
      }
    }
    SummaryTexts(c, rs[L + 1..]);
  }

  /** The report's readings, cut after the frame-count line and after the label lines. */
  lemma ReadSplit(a: Aggregate, c: Counters, rs: seq<Reading>, L: nat)
    requires |rs| == L + 8
    requires rs[0].text == MarkerLine(FrameCountMarker, c.frameCount)
    requires Quiet(rs[1..L + 1])
    requires var tail := rs[L + 1..];
      tail[0].text == MarkerLine(CurrentBeesMarker, c.currentFrameBees) &&
      tail[1].text == MarkerLine(CurrentVarroaMarker, c.currentFrameVarroa) &&
      tail[2].text == MarkerLine(TotalBeesLabel, c.beeCount) &&
      tail[3].text == MarkerLine(TotalVarroaLabel, c.varroaCount) &&
      tail[4].text == MarkerLine(UniqueBeesMarker, |c.uniqueBeeIds|) &&
      tail[5].text == MarkerLine(UniqueVarroaMarker, |c.uniqueVarroaIds|) &&
      tail[6].text == ""
    ensures Reproduces(Fold(a, rs).stats, c)
    ensures SampledFrom(Fold(a, rs).stats, a.stats, c.frameCount)
  {
    FoldThree(a, rs, L + 1);
    ReadParts(a, c, rs[..1], rs[1..L + 1], rs[L + 1..]);
  }

  /** Reading a text in two cuts: the readings before `i`, then from `i` on. */
  lemma FoldThree(a: Aggregate, rs: seq<Reading>, i: nat)
    requires 1 <= i <= |rs|
    ensures Fold(a, rs) == Fold(Fold(Fold(a, rs[..1]), rs[1..i]), rs[i..])
  {
    assert rs == rs[..i] + rs[i..];
    assert rs[..i] == rs[..1] + rs[1..i];
    FoldConcat(a, rs[..i], rs[i..]);
    FoldConcat(a, rs[..1], rs[1..i]);
  }

  /** The readings in their three runs: the frame-count line, quiet label lines, the
      summary and the empty lines. */
  lemma ReadParts(a: Aggregate, c: Counters, head: seq<Reading>, body: seq<Reading>, tail: seq<Reading>)
    requires |head| == 1 && head[0].text == MarkerLine(FrameCountMarker, c.frameCount)
    requires Quiet(body)
    requires |tail| == 7
    requires tail[0].text == MarkerLine(CurrentBeesMarker, c.currentFrameBees)
    requires tail[1].text == MarkerLine(CurrentVarroaMarker, c.currentFrameVarroa)
    requires tail[2].text == MarkerLine(TotalBeesLabel, c.beeCount)
    requires tail[3].text == MarkerLine(TotalVarroaLabel, c.varroaCount)
    requires tail[4].text == MarkerLine(UniqueBeesMarker, |c.uniqueBeeIds|)
    requires tail[5].text == MarkerLine(UniqueVarroaMarker, |c.uniqueVarroaIds|)
    requires tail[6].text == ""
    ensures Reproduces(Fold(Fold(Fold(a, head), body), tail).stats, c)
    ensures SampledFrom(Fold(Fold(Fold(a, head), body), tail).stats, a.stats, c.frameCount)
  {
    HeadStep(a, head, c.frameCount);
    FoldQuiet(Fold(a, head), body);
    Summary(Fold(a, head), c, tail);
  }

  /** The readings of a text made of three runs of lines carry those runs in turn. */
  lemma Segments(rs: seq<Reading>, parts: seq<string>, first: seq<string>, middle: seq<string>, last: seq<string>)
    requires parts == first + middle + last
    requires |rs| == |parts| && forall k :: 0 <= k < |rs| ==> rs[k].text == parts[k]
    ensures forall j :: 0 <= j < |first| ==> rs[..|first|][j].text == first[j]
    ensures forall j :: 0 <= j < |middle| ==> rs[|first|..|first| + |middle|][j].text == middle[j]
    ensures forall j :: 0 <= j < |last| ==> rs[|first| + |middle|..][j].text == last[j]
  {
    forall j | 0 <= j < |first| ensures rs[..|first|][j].text == first[j] {
      assert parts[j] == first[j];
    }
    forall j | 0 <= j < |middle| ensures rs[|first|..|first| + |middle|][j].text == middle[j] {
      assert parts[|first| + j] == middle[j];
    }
    forall j | 0 <= j < |last| ensures rs[|first| + |middle|..][j].text == last[j] {
      assert parts[|first| + |middle| + j] == last[j];
    }
  }

  /** The texts of the readings after the label lines. */
  lemma SummaryTexts(c: Counters, tail: seq<Reading>)
    requires |tail| == 7
    requires forall j :: 0 <= j < 7 ==> tail[j].text == (SummaryLines(c) + [""])[j]
    ensures tail[0].text == MarkerLine(CurrentBeesMarker, c.currentFrameBees)
    ensures tail[1].text == MarkerLine(CurrentVarroaMarker, c.currentFrameVarroa)
    ensures tail[2].text == MarkerLine(TotalBeesLabel, c.beeCount)
    ensures tail[3].text == MarkerLine(TotalVarroaLabel, c.varroaCount)
    ensures tail[4].text == MarkerLine(UniqueBeesMarker, |c.uniqueBeeIds|)
    ensures tail[5].text == MarkerLine(UniqueVarroaMarker, |c.uniqueVarroaIds|)
    ensures tail[6].text == ""
  {
    assert tail[0].text == (SummaryLines(c) + [""])[0];
    assert tail[1].text == (SummaryLines(c) + [""])[1];
    assert tail[2].text == (SummaryLines(c) + [""])[2];
    assert tail[3].text == (SummaryLines(c) + [""])[3];
    assert tail[4].text == (SummaryLines(c) + [""])[4];
    assert tail[5].text == (SummaryLines(c) + [""])[5];
    assert tail[6].text == (SummaryLines(c) + [""])[6];
  }

  /** Reading the frame-count line first: the frame count taken, and a sample on every
      tenth frame. */
  lemma HeadStep(a: Aggregate, head: seq<Reading>, n: int)
    requires |head| == 1 && head[0].text == MarkerLine(FrameCountMarker, n)
    ensures Fold(a, head).stats.totalFrames == n
    ensures SampledFrom(Fold(a, head).stats, a.stats, n)
  {
    assert head[..0] == [];
    FrameReading(a, head[0], n);
    SampleCadence(a, NoFields.(frameCount := Some(n)), head[0].now, head[0].stamp);
  }

  /** The part of the round trip after the label lines: each summary line sets its own
      fields, the total lines and the empty line change nothing. */
  lemma {:induction false} Summary(a: Aggregate, c: Counters, tail: seq<Reading>)
    requires |tail| == 7
    requires tail[0].text == MarkerLine(CurrentBeesMarker, c.currentFrameBees)
    requires tail[1].text == MarkerLine(CurrentVarroaMarker, c.currentFrameVarroa)
    requires tail[2].text == MarkerLine(TotalBeesLabel, c.beeCount)
    requires tail[3].text == MarkerLine(TotalVarroaLabel, c.varroaCount)
    requires tail[4].text == MarkerLine(UniqueBeesMarker, |c.uniqueBeeIds|)
    requires tail[5].text == MarkerLine(UniqueVarroaMarker, |c.uniqueVarroaIds|)
    requires tail[6].text == ""
    ensures Fold(a, tail).stats == a.stats.(currentBees := c.currentFrameBees, currentVarroa := c.currentFrameVarroa,
      uniqueBees := |c.uniqueBeeIds|, totalBees := |c.uniqueBeeIds|,
      uniqueVarroa := |c.uniqueVarroaIds|, totalVarroa := |c.uniqueVarroaIds|)
  {
    var front, back := tail[..4], tail[4..];
    assert tail == front + back;
    FoldConcat(a, front, back);
    CurrentLines(a, c, front);
    UniqueLines(Fold(a, front), c, back);
  }

  /** The two current-frame lines and the two total lines. */
  lemma CurrentLines(a: Aggregate, c: Counters, rs: seq<Reading>)
    requires |rs| == 4
    requires rs[0].text == MarkerLine(CurrentBeesMarker, c.currentFrameBees)
    requires rs[1].text == MarkerLine(CurrentVarroaMarker, c.currentFrameVarroa)
    requires rs[2].text == MarkerLine(TotalBeesLabel, c.beeCount)
    requires rs[3].text == MarkerLine(TotalVarroaLabel, c.varroaCount)
    ensures Fold(a, rs) == a.(stats := a.stats.(currentBees := c.currentFrameBees, currentVarroa := c.currentFrameVarroa))
  {
    TotalLinesQuiet(c.beeCount);
    TotalLinesQuiet(c.varroaCount);
    TwoQuiet(a, rs);
    CurrentBeesReading(a, rs[0], c.currentFrameBees);
    var a1 := ApplyReading(a, rs[0]);
    CurrentVarroaReading(a1, rs[1], c.currentFrameVarroa);
  }

  /** The two unique-count lines and the empty line. */
  lemma UniqueLines(a: Aggregate, c: Counters, rs: seq<Reading>)
    requires |rs| == 3
    requires rs[0].text == MarkerLine(UniqueBeesMarker, |c.uniqueBeeIds|)
    requires rs[1].text == MarkerLine(UniqueVarroaMarker, |c.uniqueVarroaIds|)
    requires rs[2].text == ""
    ensures Fold(a, rs) == a.(stats := a.stats.(uniqueBees := |c.uniqueBeeIds|, totalBees := |c.uniqueBeeIds|,
      uniqueVarroa := |c.uniqueVarroaIds|, totalVarroa := |c.uniqueVarroaIds|))
  {
    var two := rs[..2];
    QuietReading(Fold(a, two), rs[2]);
    FoldPair(a, two);
    UniqueBeesReading(a, rs[0], |c.uniqueBeeIds|);
    var a1 := ApplyReading(a, rs[0]);
    UniqueVarroaReading(a1, rs[1], |c.uniqueVarroaIds|);
  }

  /** Four readings whose last two are quiet act as their first two. */
  lemma TwoQuiet(a: Aggregate, rs: seq<Reading>)
    requires |rs| == 4 && 'u' !in rs[2].text && 'u' !in rs[3].text
    ensures Fold(a, rs) == ApplyReading(ApplyReading(a, rs[0]), rs[1])
  {
    var three, two := rs[..3], rs[..2];
    assert three[..2] == two;
    QuietReading(Fold(a, three), rs[3]);
    QuietReading(Fold(a, two), rs[2]);
    FoldPair(a, two);
  }

  lemma FoldPair(a: Aggregate, rs: seq<Reading>)
    requires |rs| == 2
    ensures Fold(a, rs) == ApplyReading(ApplyReading(a, rs[0]), rs[1])
  {
    assert rs[..1][..0] == [];
    assert Fold(a, rs[..1]) == ApplyReading(a, rs[0]);
  }
}
