/**
 * The producer side of the protocol, detection.py: the per-run counters the
 * pipeline callback keeps (cumulative bee and varroa counts, the sets of
 * track ids seen, the counts of the current frame) and the callback that
 * examines one frame's detections and prints the status lines app.py parses.
 */
module Detection {
  import opened Wrappers
  import opened PyText
  import opened OutputParser

  /** Detections below this confidence are skipped. */
  const MinConfidence: real := 0.3

  const Bee: string := "bee"
  const Varroa: string := "varroa"

  /** The two cumulative-count labels of the report, which app.py does not read. */
  const TotalBeesLabel: string := "Total bees:"
  const TotalVarroaLabel: string := "Total varroa:"

  /** One object the network found in a frame: its class label, its confidence and the
      ids of the unique-id objects the tracker attached to it. */
  datatype Detection = Detection(className: string, confidence: real, uniqueIds: seq<int>)

  /** The track id: the one attached id, or 0 when there is none or more than one. */
  function TrackId(d: Detection): int {
    if |d.uniqueIds| == 1 then d.uniqueIds[0] else 0
  }

  /** A detection that is not skipped for low confidence. */
  predicate Qualifies(d: Detection) {
    !(d.confidence < MinConfidence)
  }

  /** A detection the callback counts under class `cls`. */
  predicate CountsAs(d: Detection, cls: string) {
    Qualifies(d) && d.className == cls
  }

  /** How many detections of a frame count under class `cls`. */
  function Tally(ds: seq<Detection>, cls: string): (n: nat)
    ensures n <= |ds|
    decreases |ds|
  {
    if ds == [] then 0
    else Tally(ds[..|ds| - 1], cls) + (if CountsAs(ds[|ds| - 1], cls) then 1 else 0)
  }

  /** The positive track ids of the detections that count under class `cls`. */
  function Tracked(ds: seq<Detection>, cls: string): (ids: set<int>)
    ensures forall id :: id in ids ==> id > 0
    decreases |ds|
  {
    if ds == [] then {}
    else
      var d := ds[|ds| - 1];
      Tracked(ds[..|ds| - 1], cls) + (if CountsAs(d, cls) && TrackId(d) > 0 then {TrackId(d)} else {})
  }

  /** `f"{confidence:.2f}"`, rounding the exact value half up to hundredths. */
  function Fixed2(c: real): (r: string)
    ensures forall ch :: ch in r ==> ch == '-' || ch == '.' || IsDigit(ch)
  {
    var h := (c * 100.0 + 0.5).Floor;
    var m: nat := if h < 0 then -h else h;
    (if h < 0 then "-" else "") + NatToString(m / 100) + "." + [DigitChar(m % 100 / 10), DigitChar(m % 10)]
  }

  /** The printed confidence reads back as the hundredths nearest to it. */
  lemma {:induction false} Fixed2Rounds(c: real)
    requires c >= 0.0
    ensures var r := Fixed2(c); var k := |r| - 3;
      0 <= k && r[k] == '.' && AllDigits(r[..k]) && AllDigits(r[k + 1..]) &&
      var h := DigitsValue(r[..k]) * 100 + DigitsValue(r[k + 1..]);
      h as real <= c * 100.0 + 0.5 < h as real + 1.0
  {
    var h := (c * 100.0 + 0.5).Floor;
    assert h >= 0;
    var whole := NatToString(h / 100);
    var d1, d2 := DigitChar(h % 100 / 10), DigitChar(h % 10);
    var r := Fixed2(c);
    assert r == whole + "." + [d1, d2];
    var k := |r| - 3;
    assert r[..k] == whole;
    assert r[k + 1..] == [d1, d2];
    NatToStringValue(h / 100);
    assert [d1, d2][..1] == [d1];
    assert DigitsValue([d1]) == h % 100 / 10 by {
      assert [d1][..0] == [];
    }
    assert DigitsValue([d1, d2]) == h % 100;
  }

  /** The report line of a counted detection. */
  function LabelLine(d: Detection): string {
    "Label: " + d.className + " Track ID: " + IntToString(TrackId(d)) + " Confidence: " + Fixed2(d.confidence)
  }

  /** The report lines of a frame's counted bee and varroa detections, in order. */
  function LabelLines(ds: seq<Detection>): seq<string>
    decreases |ds|
  {
    if ds == [] then []
    else
      var d := ds[|ds| - 1];
      LabelLines(ds[..|ds| - 1]) + (if CountsAs(d, Bee) || CountsAs(d, Varroa) then [LabelLine(d)] else [])
  }

  /** Lines written one after the other, each ended by a newline. */
  function Emit(lines: seq<string>): string
    decreases |lines|
  {
    if lines == [] then [] else lines[0] + "\n" + Emit(lines[1..])
  }

  lemma {:induction false} EmitSnoc(lines: seq<string>, l: string)
    ensures Emit(lines + [l]) == Emit(lines) + l + "\n"
    decreases |lines|
  {
    if lines == [] {
      assert lines + [l] == [l];
      assert Emit([l]) == l + "\n" + Emit([]);
    } else {
      EmitSnoc(lines[1..], l);
      assert (lines + [l])[1..] == lines[1..] + [l];
    }
  }

  lemma {:induction false} EmitAppend(xs: seq<string>, ys: seq<string>)
    ensures Emit(xs + ys) == Emit(xs) + Emit(ys)
    decreases |xs|
  {
    if xs == [] {
      assert xs + ys == ys;
    } else {
      EmitAppend(xs[1..], ys);
      assert (xs + ys)[1..] == xs[1..] + ys;
    }
  }

  /** Adding one id to a set grows it by at most one. */
  lemma AddIdBound(ids: set<int>, id: int)
    ensures |ids + {id}| <= |ids| + 1
  {
    if id in ids {
      assert ids + {id} == ids;
    }
  }

  /** The counters of a run, as values. */
  datatype Counters = Counters(
    frameCount: int, beeCount: int, varroaCount: int,
    uniqueBeeIds: set<int>, uniqueVarroaIds: set<int>,
    currentFrameBees: int, currentFrameVarroa: int)

  /** Counts never negative, only positive ids kept, no more unique ids than detections
      counted, and no more detections in the current frame than in the whole run. */
  predicate Sound(c: Counters) {
    c.frameCount >= 0 &&
    0 <= c.currentFrameBees <= c.beeCount && 0 <= c.currentFrameVarroa <= c.varroaCount &&
    |c.uniqueBeeIds| <= c.beeCount && |c.uniqueVarroaIds| <= c.varroaCount &&
    (forall id :: id in c.uniqueBeeIds ==> id > 0) && (forall id :: id in c.uniqueVarroaIds ==> id > 0)
  }

  /** What the loop body of the callback does to the counters for one detection. */
  function Examine(c: Counters, d: Detection): (r: Counters)
    ensures r.frameCount == c.frameCount
  {
    if d.confidence < MinConfidence then c
    else if d.className == Bee then
      c.(beeCount := c.beeCount + 1, currentFrameBees := c.currentFrameBees + 1,
         uniqueBeeIds := if TrackId(d) > 0 then c.uniqueBeeIds + {TrackId(d)} else c.uniqueBeeIds)
    else if d.className == Varroa then
      c.(varroaCount := c.varroaCount + 1, currentFrameVarroa := c.currentFrameVarroa + 1,
         uniqueVarroaIds := if TrackId(d) > 0 then c.uniqueVarroaIds + {TrackId(d)} else c.uniqueVarroaIds)
    else c
  }

  /** The counters after the loop has examined every detection of `ds` in order. */
  function ExamineAll(c: Counters, ds: seq<Detection>): Counters
    decreases |ds|
  {
    if ds == [] then c else Examine(ExamineAll(c, ds[..|ds| - 1]), ds[|ds| - 1])
  }

  /** Examining one detection keeps the counters sound. */
  lemma ExamineKeepsSound(c: Counters, d: Detection)
    requires Sound(c)
    ensures Sound(Examine(c, d))
  {
    if !(d.confidence < MinConfidence) && TrackId(d) > 0 {
      AddIdBound(c.uniqueBeeIds, TrackId(d));
      AddIdBound(c.uniqueVarroaIds, TrackId(d));
    }
  }

  lemma {:induction false} ExamineAllKeepsSound(c: Counters, ds: seq<Detection>)
    requires Sound(c)
    ensures Sound(ExamineAll(c, ds))
    decreases |ds|
  {
    if ds != [] {
      ExamineAllKeepsSound(c, ds[..|ds| - 1]);
      ExamineKeepsSound(ExamineAll(c, ds[..|ds| - 1]), ds[|ds| - 1]);
    }
  }

  /** The loop adds the frame's tallies to the counts, the frame's tracked ids to the id
      sets, and leaves the frame counter alone. */
  lemma {:induction false} ExamineAllCounts(c: Counters, ds: seq<Detection>)
    ensures var r := ExamineAll(c, ds);
      r.frameCount == c.frameCount &&
      r.beeCount == c.beeCount + Tally(ds, Bee) && r.varroaCount == c.varroaCount + Tally(ds, Varroa) &&
      r.currentFrameBees == c.currentFrameBees + Tally(ds, Bee) &&
      r.currentFrameVarroa == c.currentFrameVarroa + Tally(ds, Varroa) &&
      r.uniqueBeeIds == c.uniqueBeeIds + Tracked(ds, Bee) &&
      r.uniqueVarroaIds == c.uniqueVarroaIds + Tracked(ds, Varroa)
    decreases |ds|
  {
    if ds != [] {
      ExamineAllCounts(c, ds[..|ds| - 1]);
    }
  }

  /** A detection below the confidence threshold, or with a label other than bee or
      varroa, can be struck from a frame without changing the counters the loop
      ends with or the lines it writes. */
  lemma {:induction false} IgnoredIsInvisible(c: Counters, xs: seq<Detection>, d: Detection, ys: seq<Detection>)
    requires !CountsAs(d, Bee) && !CountsAs(d, Varroa)
    ensures ExamineAll(c, xs + [d] + ys) == ExamineAll(c, xs + ys)
    ensures LabelLines(xs + [d] + ys) == LabelLines(xs + ys)
    decreases |ys|
  {
    var all := xs + [d] + ys;
    if ys == [] {
      assert all == xs + [d] && all[..|all| - 1] == xs && xs + ys == xs;
      assert Examine(ExamineAll(c, xs), d) == ExamineAll(c, xs);
    } else {
      var rest := ys[..|ys| - 1];
      IgnoredIsInvisible(c, xs, d, rest);
      assert all[..|all| - 1] == xs + [d] + rest;
      assert (xs + ys)[..|xs + ys| - 1] == xs + rest;
      assert all[|all| - 1] == (xs + ys)[|xs + ys| - 1] == ys[|ys| - 1];
    }
  }

  /** Seeing a known track id again does not raise the unique counts. */
  lemma SeenIdAgain(c: Counters, d: Detection)
    requires TrackId(d) in c.uniqueBeeIds && TrackId(d) in c.uniqueVarroaIds
    ensures |Examine(c, d).uniqueBeeIds| == |c.uniqueBeeIds|
    ensures |Examine(c, d).uniqueVarroaIds| == |c.uniqueVarroaIds|
  {
    assert c.uniqueBeeIds + {TrackId(d)} == c.uniqueBeeIds;
    assert c.uniqueVarroaIds + {TrackId(d)} == c.uniqueVarroaIds;
  }

  /** A frame has no more distinct tracked ids of a class than counted detections of it. */
  lemma {:induction false} TrackedWithinTally(ds: seq<Detection>, cls: string)
    ensures |Tracked(ds, cls)| <= Tally(ds, cls)
    decreases |ds|
  {
    if ds != [] {
      var d := ds[|ds| - 1];
      TrackedWithinTally(ds[..|ds| - 1], cls);
      AddIdBound(Tracked(ds[..|ds| - 1], cls), TrackId(d));
    }
  }

  /** One more detection extends the loop's counters and its report lines by that one. */
  lemma NextDetection(c: Counters, ds: seq<Detection>, i: nat)
    requires i < |ds|
    ensures ExamineAll(c, ds[..i + 1]) == Examine(ExamineAll(c, ds[..i]), ds[i])
    ensures LabelLines(ds[..i + 1]) ==
      LabelLines(ds[..i]) + (if CountsAs(ds[i], Bee) || CountsAs(ds[i], Varroa) then [LabelLine(ds[i])] else [])
  {
    assert ds[..i + 1][..i] == ds[..i];
  }

  /** The closing lines of a report: the frame's counts, the cumulative counts and the
      unique counts. */
  function SummaryLines(c: Counters): seq<string> {
    [MarkerLine(CurrentBeesMarker, c.currentFrameBees), MarkerLine(CurrentVarroaMarker, c.currentFrameVarroa),
     MarkerLine(TotalBeesLabel, c.beeCount), MarkerLine(TotalVarroaLabel, c.varroaCount),
     MarkerLine(UniqueBeesMarker, |c.uniqueBeeIds|), MarkerLine(UniqueVarroaMarker, |c.uniqueVarroaIds|)]
  }

  /** The lines one callback prints: the frame count, the counted detections, then the
      summary. */
  function ReportLines(c: Counters, labels: seq<string>): seq<string> {
    [MarkerLine(FrameCountMarker, c.frameCount)] + labels + SummaryLines(c)
  }

  /** The counters of one pipeline run (`user_app_callback_class` with the frame counter of
      its base class). */
  class UserAppCallback {
    /** The base class's frame counter (`increment()` / `get_count()`). */
    var frameCount: int
    var beeCount: int
    var varroaCount: int
    var uniqueBeeIds: set<int>
    var uniqueVarroaIds: set<int>
    var currentFrameBees: int
    var currentFrameVarroa: int
    var startTime: real

    /** The counters as one value. */
    ghost function Counts(): Counters
      reads this
    {
      Counters(frameCount, beeCount, varroaCount, uniqueBeeIds, uniqueVarroaIds,
               currentFrameBees, currentFrameVarroa)
    }

    ghost predicate Valid()
      reads this
    {
      Sound(Counts())
    }

    function UniqueBeeCount(): nat
      reads this
    {
      |uniqueBeeIds|
    }

    function UniqueVarroaCount(): nat
      reads this
    {
      |uniqueVarroaIds|
    }

    /** Everything zero and empty, the clock started at `now`. */
    constructor(now: real)
      ensures frameCount == 0 && beeCount == 0 && varroaCount == 0
      ensures uniqueBeeIds == {} && uniqueVarroaIds == {}
      ensures currentFrameBees == 0 && currentFrameVarroa == 0 && startTime == now
      ensures Valid()
    {
      frameCount := 0;
      beeCount := 0;
      varroaCount := 0;
      uniqueBeeIds := {};
      uniqueVarroaIds := {};
      currentFrameBees := 0;
      currentFrameVarroa := 0;
      startTime := now;
    }

    method Increment()
      modifies this
      ensures frameCount == old(frameCount) + 1
      ensures beeCount == old(beeCount) && varroaCount == old(varroaCount)
      ensures uniqueBeeIds == old(uniqueBeeIds) && uniqueVarroaIds == old(uniqueVarroaIds)
      ensures currentFrameBees == old(currentFrameBees) && currentFrameVarroa == old(currentFrameVarroa)
      ensures startTime == old(startTime)
    {
      frameCount := frameCount + 1;
    }

    method IncrementBee()
      modifies this
      ensures beeCount == old(beeCount) + 1
      ensures frameCount == old(frameCount) && varroaCount == old(varroaCount)
      ensures uniqueBeeIds == old(uniqueBeeIds) && uniqueVarroaIds == old(uniqueVarroaIds)
      ensures currentFrameBees == old(currentFrameBees) && currentFrameVarroa == old(currentFrameVarroa)
      ensures startTime == old(startTime)
    {
      beeCount := beeCount + 1;
    }

    method IncrementVarroa()
      modifies this
      ensures varroaCount == old(varroaCount) + 1
      ensures frameCount == old(frameCount) && beeCount == old(beeCount)
      ensures uniqueBeeIds == old(uniqueBeeIds) && uniqueVarroaIds == old(uniqueVarroaIds)
      ensures currentFrameBees == old(currentFrameBees) && currentFrameVarroa == old(currentFrameVarroa)
      ensures startTime == old(startTime)
    {
      varroaCount := varroaCount + 1;
    }

    method ResetFrameCounts()
      modifies this
      ensures currentFrameBees == 0 && currentFrameVarroa == 0
      ensures frameCount == old(frameCount) && beeCount == old(beeCount) && varroaCount == old(varroaCount)
      ensures uniqueBeeIds == old(uniqueBeeIds) && uniqueVarroaIds == old(uniqueVarroaIds)
      ensures startTime == old(startTime)
      ensures old(Valid()) ==> Valid()
    {
      currentFrameBees := 0;
      currentFrameVarroa := 0;
    }

    method SetStartTime(t: real)
      modifies this
      ensures startTime == t
      ensures frameCount == old(frameCount) && beeCount == old(beeCount) && varroaCount == old(varroaCount)
      ensures uniqueBeeIds == old(uniqueBeeIds) && uniqueVarroaIds == old(uniqueVarroaIds)
      ensures currentFrameBees == old(currentFrameBees) && currentFrameVarroa == old(currentFrameVarroa)
    {
      startTime := t;
    }
  }

  /** `app_callback` on one probe: `buffer` is the frame's detections, `None` when the probe
      carries no buffer; `printed` is what the call writes to standard output. */
  method AppCallback(user: UserAppCallback, buffer: Option<seq<Detection>>) returns (printed: string)
    modifies user
    requires user.Valid()
    ensures user.Valid()
    ensures buffer.None? ==> printed == [] && user.Counts() == old(user.Counts())
    ensures buffer.Some? ==> var ds := buffer.value;
      user.frameCount == old(user.frameCount) + 1 &&
      user.currentFrameBees == Tally(ds, Bee) && user.currentFrameVarroa == Tally(ds, Varroa) &&
      user.beeCount == old(user.beeCount) + Tally(ds, Bee) &&
      user.varroaCount == old(user.varroaCount) + Tally(ds, Varroa) &&
      user.uniqueBeeIds == old(user.uniqueBeeIds) + Tracked(ds, Bee) &&
      user.uniqueVarroaIds == old(user.uniqueVarroaIds) + Tracked(ds, Varroa) &&
      printed == Emit(ReportLines(user.Counts(), LabelLines(ds))) + "\n"
    ensures user.startTime == old(user.startTime)
  {
    if buffer.None? {
      return [];
    }
    var ds := buffer.value;
    user.Increment();
    var head := MarkerLine(FrameCountMarker, user.frameCount);
    user.ResetFrameCounts();
    ghost var reset := user.Counts();
    var labelText := CountDetections(user, ds);
    ExamineAllCounts(reset, ds);
    ExamineAllKeepsSound(reset, ds);
    var summary := WriteSummary(user);
    EmitAppend([head] + LabelLines(ds), SummaryLines(user.Counts()));
    EmitAppend([head], LabelLines(ds));
    assert Emit([head]) == head + "\n";
    printed := head + "\n" + labelText + summary + "\n";
  }

  /** Six lines written in turn. */
  lemma EmitSix(a: string, b: string, c: string, d: string, e: string, f: string)
    ensures Emit([a, b, c, d, e, f]) == a + "\n" + b + "\n" + c + "\n" + d + "\n" + e + "\n" + f + "\n"
  {
    assert [f][1..] == [];
    assert Emit([f]) == f + "\n";
    assert [e, f][1..] == [f];
    assert Emit([e, f]) == e + "\n" + f + "\n";
    assert [d, e, f][1..] == [e, f];
    assert Emit([d, e, f]) == d + "\n" + e + "\n" + f + "\n";
    assert [c, d, e, f][1..] == [d, e, f];
    assert Emit([c, d, e, f]) == c + "\n" + d + "\n" + e + "\n" + f + "\n";
    assert [b, c, d, e, f][1..] == [c, d, e, f];
    assert Emit([b, c, d, e, f]) == b + "\n" + c + "\n" + d + "\n" + e + "\n" + f + "\n";
    assert [a, b, c, d, e, f][1..] == [b, c, d, e, f];
  }

  /** The six summary lines, printed one after the other from the counters as they stand. */
  method WriteSummary(user: UserAppCallback) returns (text: string)
    ensures text == Emit(SummaryLines(user.Counts()))
  {
    var currentBees := MarkerLine(CurrentBeesMarker, user.currentFrameBees);
    var currentVarroa := MarkerLine(CurrentVarroaMarker, user.currentFrameVarroa);
    var totalBees := MarkerLine(TotalBeesLabel, user.beeCount);
    var totalVarroa := MarkerLine(TotalVarroaLabel, user.varroaCount);
    var uniqueBees := MarkerLine(UniqueBeesMarker, user.UniqueBeeCount());
    var uniqueVarroa := MarkerLine(UniqueVarroaMarker, user.UniqueVarroaCount());
    EmitSix(currentBees, currentVarroa, totalBees, totalVarroa, uniqueBees, uniqueVarroa);
    text := currentBees + "\n" + currentVarroa + "\n" + totalBees + "\n" + totalVarroa + "\n" +
            uniqueBees + "\n" + uniqueVarroa + "\n";
  }

  /** The `for detection in detections` loop of `app_callback`: every detection that is
      confident enough and labelled bee or varroa is counted, its positive track id
      recorded, and its report line written; `text` is those lines. */
  method CountDetections(user: UserAppCallback, ds: seq<Detection>) returns (text: string)
    modifies user
    ensures user.Counts() == ExamineAll(old(user.Counts()), ds)
    ensures user.startTime == old(user.startTime)
    ensures text == Emit(LabelLines(ds))
  {
    ghost var start := user.Counts();
    text := [];
    for i := 0 to |ds|
      invariant user.Counts() == ExamineAll(start, ds[..i])
      invariant user.startTime == old(user.startTime)
      invariant text == Emit(LabelLines(ds[..i]))
    {
      NextDetection(start, ds, i);
      var piece := ExamineDetection(user, ds[i]);
      EmitAppend(LabelLines(ds[..i]), if CountsAs(ds[i], Bee) || CountsAs(ds[i], Varroa) then [LabelLine(ds[i])] else []);
      text := text + piece;
    }
    assert ds[..|ds|] == ds;
  }

  /** The body of that loop for one detection: skipped below the confidence threshold,
      otherwise counted by label with its positive track id recorded; `line` is the
      report line written for it, if any. */
  method ExamineDetection(user: UserAppCallback, d: Detection) returns (line: string)
    modifies user
    ensures user.Counts() == Examine(old(user.Counts()), d)
    ensures user.startTime == old(user.startTime)
    ensures line == Emit(if CountsAs(d, Bee) || CountsAs(d, Varroa) then [LabelLine(d)] else [])
  {
    if d.confidence < MinConfidence {
      return [];
    }
    var trackId := 0;
    if |d.uniqueIds| == 1 {
      trackId := d.uniqueIds[0];
    }
    line := [];
    if d.className == Bee {
      user.IncrementBee();
      user.currentFrameBees := user.currentFrameBees + 1;
      if trackId > 0 {
        user.uniqueBeeIds := user.uniqueBeeIds + {trackId};
      }
      line := LabelLine(d) + "\n";
    } else if d.className == Varroa {
      user.IncrementVarroa();
      user.currentFrameVarroa := user.currentFrameVarroa + 1;
      if trackId > 0 {
        user.uniqueVarroaIds := user.uniqueVarroaIds + {trackId};
      }
      line := LabelLine(d) + "\n";
    }
  }
}
