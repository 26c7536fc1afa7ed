/**
 * What one line of detection output does to the monitor's statistics, as
 * functions on values: the `detection_stats` record, the four bounded
 * time-series buffers and the requests made to the metrics database.
 * The `Monitor` class of the Supervisor module performs these updates in
 * place and is proved to agree with them.
 */
module StatsAggregator {
  import opened Wrappers
  import opened PyText
  import opened Risk
  import opened OutputParser

  /** Capacity of each time-series buffer. */
  const MaxDataPoints: nat := 100

  /** The `HH:MM:SS` wall-clock rendering of a sample, taken as given. */
  type Timestamp = string

  /** `detection_stats`; `lastFrame` is the key that app.py reads with a default of 0. */
  datatype Stats = Stats(
    totalFrames: int, totalBees: int, totalVarroa: int,
    uniqueBees: int, uniqueVarroa: int,
    currentBees: int, currentVarroa: int,
    fps: real, infestationRatio: real, riskLevel: RiskLevel,
    lastUpdate: real, lastFrame: int)

  /** `time_series_data`: four buffers meant to be read index by index. */
  datatype TimeSeries = TimeSeries(
    timestamps: seq<Timestamp>, beeCounts: seq<int>, varroaCounts: seq<int>, ratios: seq<real>)

  /** Calls made to the metrics database. */
  datatype DbRequest =
    | StartSession(source: string, notes: string)
    | EndSession
    | SaveMetrics(uniqueBeeCount: int, uniqueVarroaCount: int, frameCount: int, fps: real)

  /** Everything a line of output can change. */
  datatype Aggregate = Aggregate(stats: Stats, series: TimeSeries, requests: seq<DbRequest>)

  /** One line read from the detection process, with the clock readings taken while it is handled. */
  datatype Reading = Reading(text: string, now: real, stamp: Timestamp)

  /** The session a run opens: the fourth blank-separated word of the detection command, and a fixed note. */
  const SessionSource: string := "/dev/video0"
  const SessionNotes: string := "Automatic detection"

  /** The statistics at the start of every run: all zero, level Unknown, clock at `now`. */
  function ResetStats(now: real): Stats {
    Stats(0, 0, 0, 0, 0, 0, 0, 0.0, 0.0, Unknown, now, 0)
  }

  const EmptySeries: TimeSeries := TimeSeries([], [], [], [])

  // ---------------------------------------------------------------------------
  // Bounded buffers: deque(maxlen=MaxDataPoints)
  // ---------------------------------------------------------------------------

  /** The newest `MaxDataPoints` entries of `s`. */
  function Window<T>(s: seq<T>): seq<T> {
    if |s| <= MaxDataPoints then s else s[|s| - MaxDataPoints..]
  }

  /** The window is a suffix of `s`, as long as `s` up to the capacity. */
  lemma WindowShape<T>(s: seq<T>)
    ensures var r := Window(s);
      |r| == (if |s| <= MaxDataPoints then |s| else MaxDataPoints) && r == s[|s| - |r|..]
  {
  }

  /** `d.append(x)` on a deque with `maxlen=MaxDataPoints`: when full, the oldest entry goes. */
  function Append<T>(d: seq<T>, x: T): seq<T> {
    Window(d + [x])
  }

  /** An append ends with the new entry; it grows the buffer by one until it is full, and
      on a full buffer drops the oldest entry. */
  lemma AppendShape<T>(d: seq<T>, x: T)
    ensures var r := Append(d, x);
      1 <= |r| <= MaxDataPoints && r[|r| - 1] == x &&
      |r| == (if |d| < MaxDataPoints then |d| + 1 else MaxDataPoints) &&
      (|d| < MaxDataPoints ==> r == d + [x]) &&
      (|d| == MaxDataPoints ==> r == d[1..] + [x])
  {
    var r := Append(d, x);
    if |d| == MaxDataPoints {
      assert r == (d + [x])[1..];
    }
  }

  /** Appending each of `xs` in turn. */
  function AppendAll<T>(d: seq<T>, xs: seq<T>): seq<T>
    decreases |xs|
  {
    if xs == [] then d else Append(AppendAll(d, xs[..|xs| - 1]), xs[|xs| - 1])
  }

  lemma {:induction false} WindowAppend<T>(s: seq<T>, x: T)
    ensures Window(Window(s) + [x]) == Window(s + [x])
  {
    var w := Window(s);
    assert w + [x] == (s + [x])[|s| - |w|..];
  }

  lemma Snoc<T>(d: seq<T>, xs: seq<T>)
    requires xs != []
    ensures d + xs[..|xs| - 1] + [xs[|xs| - 1]] == d + xs
  {
    assert xs[..|xs| - 1] + [xs[|xs| - 1]] == xs;
  }

  /** A buffer fed any number of samples holds exactly the newest ones, oldest first. */
  lemma {:induction false} AppendAllKeepsNewest<T>(d: seq<T>, xs: seq<T>)
    ensures AppendAll(Window(d), xs) == Window(d + xs)
  {
    if xs == [] {
      assert d + xs == d;
    } else {
      var init, x := xs[..|xs| - 1], xs[|xs| - 1];
      AppendAllKeepsNewest(d, init);
      assert AppendAll(Window(d), xs) == Append(AppendAll(Window(d), init), x);
      WindowAppend(d + init, x);
      Snoc(d, xs);
    }
  }

  /** After at least `MaxDataPoints` appends, only the newest `MaxDataPoints` samples remain. */
  lemma {:induction false} FullBufferHoldsNewest<T>(d: seq<T>, xs: seq<T>)
    requires |d| <= MaxDataPoints && |xs| >= MaxDataPoints
    ensures AppendAll(d, xs) == xs[|xs| - MaxDataPoints..]
  {
    assert Window(d) == d;
    AppendAllKeepsNewest(d, xs);
    WindowOfLong(d, xs);
  }

  /** The window of `d + xs` lies within `xs` once `xs` fills the buffer. */
  lemma WindowOfLong<T>(d: seq<T>, xs: seq<T>)
    requires |xs| >= MaxDataPoints
    ensures Window(d + xs) == xs[|xs| - MaxDataPoints..]
  {
    var s := d + xs;
    assert s[|s| - MaxDataPoints..] == xs[|xs| - MaxDataPoints..];
  }

  /** The four buffers have one entry per sample and stay within capacity. */
  predicate Aligned(ts: TimeSeries) {
    |ts.timestamps| == |ts.beeCounts| == |ts.varroaCounts| == |ts.ratios| <= MaxDataPoints
  }

  /** One sample appended to all four buffers. */
  function PushSample(ts: TimeSeries, stamp: Timestamp, bees: int, varroa: int, ratio: real): TimeSeries {
    TimeSeries(Append(ts.timestamps, stamp), Append(ts.beeCounts, bees),
               Append(ts.varroaCounts, varroa), Append(ts.ratios, ratio))
  }

  /** A sample keeps the buffers aligned: each grows by one until full, then stays full. */
  lemma PushSampleAligned(ts: TimeSeries, stamp: Timestamp, bees: int, varroa: int, ratio: real)
    requires Aligned(ts)
    ensures var r := PushSample(ts, stamp, bees, varroa, ratio);
      Aligned(r) && |r.ratios| == if |ts.ratios| < MaxDataPoints then |ts.ratios| + 1 else MaxDataPoints
  {
    var n := |ts.ratios|;
    var m := if n < MaxDataPoints then n + 1 else MaxDataPoints;
    assert |Append(ts.timestamps, stamp)| == m;
    assert |Append(ts.beeCounts, bees)| == m;
    assert |Append(ts.varroaCounts, varroa)| == m;
    assert |Append(ts.ratios, ratio)| == m;
  }

  // ---------------------------------------------------------------------------
  // update_time_series
  // ---------------------------------------------------------------------------

  /** The save request a sample makes: one on every hundredth frame, none otherwise. */
  function SaveFor(st: Stats): seq<DbRequest> {
    if st.totalFrames % 100 == 0
    then [SaveMetrics(st.uniqueBees, st.uniqueVarroa, st.totalFrames, st.fps)]
    else []
  }

  /** Records one sample of the current counts and ratio, reclassifies the risk,
      and asks the database to save the metrics when the frame count is a multiple of 100. */
  function Sample(a: Aggregate, stamp: Timestamp): (r: Aggregate)
    ensures r.stats == a.stats.(infestationRatio := r.stats.infestationRatio, riskLevel := r.stats.riskLevel)
    ensures r.stats.infestationRatio == InfestationRatio(a.stats.uniqueVarroa, a.stats.uniqueBees)
    ensures r.stats.riskLevel == Classify(r.stats.infestationRatio)
    ensures r.series == PushSample(a.series, stamp, a.stats.currentBees, a.stats.currentVarroa, r.stats.infestationRatio)
    ensures r.requests == a.requests + SaveFor(a.stats)
  {
    var st := a.stats;
    var ratio := InfestationRatio(st.uniqueVarroa, st.uniqueBees);
    Aggregate(st.(infestationRatio := ratio, riskLevel := Classify(ratio)),
              PushSample(a.series, stamp, st.currentBees, st.currentVarroa, ratio),
              a.requests + SaveFor(st))
  }

  // ---------------------------------------------------------------------------
  // parse_detection_output
  // ---------------------------------------------------------------------------

  /** The four count markers of one line; a marker whose value parsed overwrites its
      fields, the others leave theirs as they were. */
  function ApplyCounts(st: Stats, f: LineFields): Stats {
    st.(uniqueBees := f.uniqueBees.GetOr(st.uniqueBees), totalBees := f.uniqueBees.GetOr(st.totalBees),
        uniqueVarroa := f.uniqueVarroa.GetOr(st.uniqueVarroa), totalVarroa := f.uniqueVarroa.GetOr(st.totalVarroa),
        currentBees := f.currentBees.GetOr(st.currentBees),
        currentVarroa := f.currentVarroa.GetOr(st.currentVarroa))
  }

  /** Frames per second over an interval. */
  function Rate(frames: int, seconds: real): (r: real)
    requires seconds > 0.0
    ensures frames > 0 ==> r > 0.0
  {
    frames as real / seconds
  }

  /** The rate times the elapsed seconds gives back the frames. */
  lemma RateTimesSeconds(frames: int, seconds: real)
    requires seconds > 0.0
    ensures Rate(frames, seconds) * seconds == frames as real
  {
  }

  /** The frame-rate estimate, refreshed only after more than half a second and at least one new frame. */
  function FpsUpdate(st: Stats, frame: int, now: real): Stats {
    var timeDiff := now - st.lastUpdate;
    var frameDiff := frame - st.lastFrame;
    if timeDiff > 0.0 && frameDiff > 0 && timeDiff > 0.5 then
      st.(fps := Rate(frameDiff, timeDiff), lastFrame := frame, lastUpdate := now)
    else st
  }

  /** The `Frame count:` branch once its value has parsed: only the frame count, the rate
      bookkeeping and (on a sample) ratio, level, buffers and requests change. */
  function FrameCount(a: Aggregate, frame: int, now: real, stamp: Timestamp): (r: Aggregate)
    ensures r.stats.totalFrames == frame
    ensures r.stats.(totalFrames := 0, fps := 0.0, lastFrame := 0, lastUpdate := 0.0,
                     infestationRatio := 0.0, riskLevel := Unknown)
         == a.stats.(totalFrames := 0, fps := 0.0, lastFrame := 0, lastUpdate := 0.0,
                     infestationRatio := 0.0, riskLevel := Unknown)
  {
    var a1 := a.(stats := FpsUpdate(a.stats.(totalFrames := frame), frame, now));
    if frame % 10 == 0 then Sample(a1, stamp) else a1
  }

  /** The effect of a line that says `f`, with `time.time()` = `now` and the sample time `stamp`:
      the count markers first, then the frame count with its rate refresh and sampling. */
  function Step(a: Aggregate, f: LineFields, now: real, stamp: Timestamp): (r: Aggregate)
    ensures r.stats.uniqueBees == f.uniqueBees.GetOr(a.stats.uniqueBees)
    ensures r.stats.totalBees == f.uniqueBees.GetOr(a.stats.totalBees)
    ensures r.stats.uniqueVarroa == f.uniqueVarroa.GetOr(a.stats.uniqueVarroa)
    ensures r.stats.totalVarroa == f.uniqueVarroa.GetOr(a.stats.totalVarroa)
    ensures r.stats.currentBees == f.currentBees.GetOr(a.stats.currentBees)
    ensures r.stats.currentVarroa == f.currentVarroa.GetOr(a.stats.currentVarroa)
    ensures r.stats.totalFrames == f.frameCount.GetOr(a.stats.totalFrames)
    ensures f == NoFields ==> r == a
  {
    var a1 := a.(stats := ApplyCounts(a.stats, f));
    match f.frameCount
    case None => a1
    case Some(n) => FrameCount(a1, n, now, stamp)
  }

  /** `parse_detection_output(line)`. */
  function ParseLine(a: Aggregate, line: string, now: real, stamp: Timestamp): (r: Aggregate)
    ensures Silent(line) ==> r == a
  {
    Step(a, Fields(line), now, stamp)
  }

  /** The line carries a frame count that refreshes the rate estimate. */
  predicate FpsRefreshed(st: Stats, f: LineFields, now: real) {
    match f.frameCount
    case Some(n) => n - st.lastFrame > 0 && now - st.lastUpdate > 0.5
    case None => false
  }

  /** The frame rate and its bookkeeping change only when a frame count arrives more than
      half a second and at least one frame after the last refresh; the new rate is then
      frames per second over that interval, and positive. */
  lemma {:induction false} FpsRule(a: Aggregate, f: LineFields, now: real, stamp: Timestamp)
    ensures var s, t := a.stats, Step(a, f, now, stamp).stats;
      if FpsRefreshed(s, f, now) then
        var n := f.frameCount.value;
        t.fps == Rate(n - s.lastFrame, now - s.lastUpdate) && t.fps > 0.0 &&
        t.lastFrame == n && t.lastUpdate == now
      else
        t.fps == s.fps && t.lastFrame == s.lastFrame && t.lastUpdate == s.lastUpdate
  {
    var s := a.stats;
    var r := Step(a, f, now, stamp);
    match f.frameCount
    case None =>
      assert r.stats.fps == s.fps && r.stats.lastFrame == s.lastFrame && r.stats.lastUpdate == s.lastUpdate;
    case Some(n) =>
      var a1 := a.(stats := ApplyCounts(s, f));
      FrameCountRate(a1, n, now, stamp);
      assert a1.stats.lastFrame == s.lastFrame && a1.stats.lastUpdate == s.lastUpdate && a1.stats.fps == s.fps;
  }

  lemma {:induction false} FrameCountRate(a: Aggregate, frame: int, now: real, stamp: Timestamp)
    ensures var u := FpsUpdate(a.stats.(totalFrames := frame), frame, now);
      FrameCount(a, frame, now, stamp).stats.fps == u.fps &&
      FrameCount(a, frame, now, stamp).stats.lastFrame == u.lastFrame &&
      FrameCount(a, frame, now, stamp).stats.lastUpdate == u.lastUpdate
  {
  }

  /** The line carries a frame count that is a multiple of ten. */
  predicate Sampled(f: LineFields) {
    match f.frameCount
    case Some(n) => n % 10 == 0
    case None => false
  }

  /** A sample is taken exactly on frame counts that are multiples of ten. It records the
      counts as they stand after the whole line, and the ratio and risk level it computes
      are the ones left in the statistics; otherwise buffers, ratio and level are untouched. */
  lemma {:induction false} SampleCadence(a: Aggregate, f: LineFields, now: real, stamp: Timestamp)
    ensures var r := Step(a, f, now, stamp);
      if Sampled(f) then
        r.series == PushSample(a.series, stamp, r.stats.currentBees, r.stats.currentVarroa, r.stats.infestationRatio) &&
        r.stats.infestationRatio == InfestationRatio(r.stats.uniqueVarroa, r.stats.uniqueBees) &&
        r.stats.riskLevel == Classify(r.stats.infestationRatio)
      else
        r.series == a.series && r.stats.infestationRatio == a.stats.infestationRatio &&
        r.stats.riskLevel == a.stats.riskLevel
  {
  }

  lemma {:induction false} HundredsAreTens(n: int)
    requires n % 100 == 0
    ensures n % 10 == 0
  {
    assert n == 100 * (n / 100);
    assert n == 10 * (10 * (n / 100));
  }

  /** A save request is made exactly on frame counts that are multiples of 100, with the
      unique counts, frame count and rate as they stand after the line. */
  lemma {:induction false} SaveCadence(a: Aggregate, f: LineFields, now: real, stamp: Timestamp)
    ensures var r := Step(a, f, now, stamp);
      match f.frameCount
      case Some(n) =>
        r.requests == a.requests + (if n % 100 == 0
          then [SaveMetrics(r.stats.uniqueBees, r.stats.uniqueVarroa, n, r.stats.fps)] else [])
      case None => r.requests == a.requests
  {
    match f.frameCount
    case Some(n) =>
      if n % 100 == 0 {
        HundredsAreTens(n);
      }
    case None =>
  }

  // ---------------------------------------------------------------------------
  // The invariant a run keeps, and a run as a fold over its lines
  // ---------------------------------------------------------------------------

  /** Buffers aligned and within capacity, a rate that is never negative, and a ratio and
      risk level that are those of the newest sample (0 and Unknown before the first). */
  predicate Inv(a: Aggregate) {
    var ratios := a.series.ratios;
    Aligned(a.series) && a.stats.fps >= 0.0 &&
    (ratios == [] ==> a.stats.infestationRatio == 0.0 && a.stats.riskLevel == Unknown) &&
    (ratios != [] ==> ratios[|ratios| - 1] == a.stats.infestationRatio &&
                      a.stats.riskLevel == Classify(a.stats.infestationRatio))
  }

  /** The aggregate at the start of a run: statistics reset, buffers cleared, session opened. */
  function RunStart(now: real, requests: seq<DbRequest>): (r: Aggregate)
    ensures Inv(r)
  {
    Aggregate(ResetStats(now), EmptySeries, requests + [StartSession(SessionSource, SessionNotes)])
  }

  lemma {:induction false} StepKeepsInv(a: Aggregate, f: LineFields, now: real, stamp: Timestamp)
    requires Inv(a)
    ensures Inv(Step(a, f, now, stamp))
  {
    var a1 := a.(stats := ApplyCounts(a.stats, f));
    assert Inv(a1);
    match f.frameCount
    case None =>
    case Some(n) =>
      var s := a1.stats.(totalFrames := n);
      var a2 := a1.(stats := FpsUpdate(s, n, now));
      assert Inv(a2);
      if n % 10 == 0 {
        var r := Sample(a2, stamp);
        PushSampleAligned(a2.series, stamp, a2.stats.currentBees, a2.stats.currentVarroa, r.stats.infestationRatio);
        assert Aligned(r.series);
        assert r.series.ratios[|r.series.ratios| - 1] == r.stats.infestationRatio;
      }
  }

  /** A line the read loop handles: stripped, and skipped when blank. */
  function ApplyReading(a: Aggregate, r: Reading): Aggregate {
    var line := Strip(r.text);
    if line == [] then a else ParseLine(a, line, r.now, r.stamp)
  }

  /** The lines of a run handled in order. */
  function Fold(a: Aggregate, rs: seq<Reading>): Aggregate
    decreases |rs|
  {
    if rs == [] then a else ApplyReading(Fold(a, rs[..|rs| - 1]), rs[|rs| - 1])
  }

  /** Every line keeps the invariant, so a whole run does. */
  lemma {:induction false} FoldKeepsInv(a: Aggregate, rs: seq<Reading>)
    requires Inv(a)
    ensures Inv(Fold(a, rs))
  {
    if rs != [] {
      FoldKeepsInv(a, rs[..|rs| - 1]);
      var last := rs[|rs| - 1];
      var line := Strip(last.text);
      if line != [] {
        StepKeepsInv(Fold(a, rs[..|rs| - 1]), Fields(line), last.now, last.stamp);
      }
    }
  }

  /** Handling two batches of lines one after the other is handling them together. */
  lemma {:induction false} FoldConcat(a: Aggregate, xs: seq<Reading>, ys: seq<Reading>)
    ensures Fold(a, xs + ys) == Fold(Fold(a, xs), ys)
  {
    if ys != [] {
      FoldConcat(a, xs, ys[..|ys| - 1]);
      assert (xs + ys)[..|xs + ys| - 1] == xs + ys[..|ys| - 1];
    } else {
      assert xs + ys == xs;
    }
  }
}
