/**
 * The monitor's run control: the global state app.py keeps (statistics, the
 * four chart buffers, the active flag and the detection child), the methods
 * that update it in place, the read loop of the detection thread, and the
 * start/stop routes. Each method is proved to do what the functions of the
 * StatsAggregator module and the sweeps of the Reaper module specify.
 */
module Supervisor {
  import opened Wrappers
  import opened PyText
  import opened Risk
  import opened OutputParser
  import opened StatsAggregator
  import opened Reaper

  /** The JSON status the start and stop routes answer with. */
  datatype Status = Started | AlreadyRunning | Stopped | AlreadyStopped

  /** What the read loop finds at the head of each iteration. */
  datatype LoopStep =
    | Read(reading: Reading)  // `readline()` returned a line
    | NoOutput                // `readline()` returned nothing while the child runs
    | Exited                  // `poll()` reports that the child has ended
    | StopRequested           // the stop route cleared `detection_active` meanwhile

  /** A step that ends the loop. */
  predicate Halts(s: LoopStep) {
    s.Exited? || s.StopRequested?
  }

  /** The steps the loop consumes: up to and including the first that ends it. */
  function Lead(steps: seq<LoopStep>): seq<LoopStep> {
    if steps == [] then []
    else if Halts(steps[0]) then [steps[0]]
    else [steps[0]] + Lead(steps[1..])
  }

  /** The lead is a prefix of the steps in which only the last step may end the loop, and
      it stops short of the end only at a step that does. */
  lemma {:induction false} LeadShape(steps: seq<LoopStep>)
    ensures var r := Lead(steps);
      |r| <= |steps| && r == steps[..|r|] &&
      (forall k :: 0 <= k < |r| - 1 ==> !Halts(r[k])) &&
      (|r| < |steps| ==> |r| >= 1 && Halts(r[|r| - 1]))
  {
    if steps != [] && !Halts(steps[0]) {
      var r, rest := Lead(steps), Lead(steps[1..]);
      LeadShape(steps[1..]);
      assert r == [steps[0]] + rest;
      assert forall k :: 1 <= k < |r| ==> r[k] == rest[k - 1];
    }
  }

  /** The child the steps see collected: `poll()` reaps the child when it reports its exit. */
  function ReapedBy(steps: seq<LoopStep>, process: Option<int>): set<int> {
    if process.Some? && Exited in steps then {process.value} else {}
  }

  /** What stopping the child `process` removes: the child, if the monitor may signal it. */
  function ChildRemoved(process: Option<int>, permitted: int -> bool): set<int> {
    if process.Some? then IfPermitted(process.value, permitted) else {}
  }

  /** The processes once `poll()` has collected the children in `gone`. */
  function Collected(p: Procs, gone: set<int>): Procs {
    Procs(p.live - gone, p.ended - gone, p.children - gone)
  }

  /** Collecting after each step in turn is collecting after all of them. */
  lemma CollectedStep(p: Procs, steps: seq<LoopStep>, j: nat, process: Option<int>)
    requires j < |steps|
    ensures Collected(Collected(p, ReapedBy(steps[..j], process)), ReapedBy([steps[j]], process)) ==
            Collected(p, ReapedBy(steps[..j + 1], process))
  {
    assert steps[..j + 1] == steps[..j] + [steps[j]];
  }

  /** The processes once `Popen` has started the child `launched`, when it did. */
  function Launched(p: Procs, launched: Option<int>): Procs {
    match launched
    case None => p
    case Some(pid) => Procs(p.live + {pid}, p.ended - {pid}, p.children + {pid})
  }

  /** The processes after `terminate_detection()` with the child handle `process`: the child
      (if the monitor may signal it) and what the sweeps select no longer run, and the
      monitor's children among them stay uncollected. */
  function Released(p: Procs, process: Option<int>, listing: (Listing, set<int>) -> Option<string>,
                    permitted: int -> bool): Procs {
    var after := SweepsLive(p.live - ChildRemoved(process, permitted), listing, permitted);
    Procs(after, Uncollected(p.ended, p.live, after, p.children), p.children)
  }

  /** A trace that ends with quiet calls keeps the listings made before them. */
  lemma QuietTail(c0: seq<OsCall>, c1: seq<OsCall>, c2: seq<OsCall>)
    requires |c0| <= |c1| && c1[..|c0|] == c0 && Quiet(c1, c2)
    ensures |c0| <= |c2| && c2[..|c0|] == c0
    ensures Listings(c2[|c0|..]) == Listings(c1[|c0|..])
  {
    Extends(c0, c1, c2);
    ListingsConcat(c1[|c0|..], c2[|c1|..]);
    NoListings(c2[|c1|..]);
  }

  /** The trace of `detection_loop()`: the opening release, quiet calls, then the closing
      release; the sweeps list `scans` twice. */
  lemma RunTrace(c0: seq<OsCall>, c1: seq<OsCall>, c2: seq<OsCall>, c3: seq<OsCall>, scans: seq<OsCall>)
    requires |c0| <= |c1| && c1[..|c0|] == c0 && Listings(c1[|c0|..]) == scans
    requires Quiet(c1, c2)
    requires |c2| <= |c3| && c3[..|c2|] == c2 && Listings(c3[|c2|..]) == scans
    ensures |c0| <= |c3| && c3[..|c0|] == c0
    ensures Listings(c3[|c0|..]) == scans + scans
  {
    QuietTail(c0, c1, c2);
    Extends(c0, c2, c3);
    ListingsConcat(c2[|c0|..], c3[|c2|..]);
  }

  /** The calls that stop the child `process`: the escalation when there is one, none otherwise. */
  function ChildCalls(process: Option<int>, live: set<int>, ended: set<int>, children: set<int>,
                      permitted: int -> bool, survives: (int, Signal) -> bool): (r: seq<OsCall>)
    ensures forall k :: 0 <= k < |r| ==> !r[k].Listed?
  {
    match process
    case None => []
    case Some(pid) =>
      EscalationQuiet(pid, live, ended, children, permitted, survives);
      EscalationCalls(pid, live, ended, children, permitted, survives)
  }

  /** The trace of the start route: the release, whose last call purges IPC, then two waits. */
  lemma StartTrace(c0: seq<OsCall>, c1: seq<OsCall>, c3: seq<OsCall>, scans: seq<OsCall>)
    requires |c0| < |c1| && c1[..|c0|] == c0 && Listings(c1[|c0|..]) == scans
    requires c1[|c1| - 1] == IpcPurged
    requires c3 == c1 + [Slept(0.1)] + [Slept(1.0)]
    ensures |c3| >= |c0| + 3 && c3[..|c0|] == c0
    ensures Listings(c3[|c0|..]) == scans
    ensures c3[|c3| - 3..] == [IpcPurged, Slept(0.1), Slept(1.0)]
  {
    QuietSnoc(c1, c1, Slept(0.1));
    QuietSnoc(c1, c1 + [Slept(0.1)], Slept(1.0));
    QuietTail(c0, c1, c3);
  }

  /** The trace of `terminate_detection`: the escalation `e`, which lists nothing, then
      the sweeps, which list `scans`. */
  lemma EscalationThenSweep(c0: seq<OsCall>, e: seq<OsCall>, c1: seq<OsCall>, c2: seq<OsCall>, scans: seq<OsCall>)
    requires forall k :: 0 <= k < |e| ==> !e[k].Listed?
    requires c1 == c0 + e
    requires |c2| > |c1| && c2[..|c1|] == c1 && Listings(c2[|c1|..]) == scans
    ensures |c2| > |c0| && c2[..|c0|] == c0 && e <= c2[|c0|..]
    ensures Listings(c2[|c0|..]) == scans
  {
    QuietPrefix(c0, e, c2);
  }

  /** The lines among the steps, in order. */
  function Readings(steps: seq<LoopStep>): seq<Reading>
    decreases |steps|
  {
    if steps == [] then []
    else Readings(steps[..|steps| - 1]) + (if steps[|steps| - 1].Read? then [steps[|steps| - 1].reading] else [])
  }

  lemma {:induction false} LeadSplit(steps: seq<LoopStep>, i: nat)
    requires i <= |steps|
    requires forall k :: 0 <= k < i ==> !Halts(steps[k])
    ensures Lead(steps) == steps[..i] + Lead(steps[i..])
  {
    if i > 0 {
      assert !Halts(steps[0]);
      LeadSplit(steps[1..], i - 1);
      assert steps[1..][i - 1..] == steps[i..];
      assert [steps[0]] + steps[1..][..i - 1] == steps[..i];
    } else {
      assert steps[i..] == steps;
    }
  }

  /** The loop's consumed prefix is the lead of the steps: it ran until the first step that
      ends it, or through all of them. */
  /** After `i` steps the loop is still going exactly when none of them ended it; once
      stopped, the last step taken is the first that ends it. */
  predicate Scanned(steps: seq<LoopStep>, i: nat, going: bool) {
    i <= |steps| &&
    (going ==> forall k :: 0 <= k < i ==> !Halts(steps[k])) &&
    (!going ==> 1 <= i && Halts(steps[i - 1]) && forall k :: 0 <= k < i - 1 ==> !Halts(steps[k]))
  }

  /** Taking the next step keeps the scan's account of the loop. */
  lemma ScannedStep(steps: seq<LoopStep>, i: nat, going: bool)
    requires i < |steps| && Scanned(steps, i, true)
    requires going == !Halts(steps[i])
    ensures Scanned(steps, i + 1, going)
  {
  }

  /** When the loop ends it has consumed exactly the lead of the steps. */
  lemma {:induction false} LeadConsumed(steps: seq<LoopStep>, i: nat, going: bool)
    requires Scanned(steps, i, going) && (going ==> i == |steps|)
    ensures Lead(steps) == steps[..i]
  {
    if going {
      LeadSplit(steps, i);
      assert steps[i..] == [];
    } else {
      LeadSplit(steps, i - 1);
      assert steps[i - 1..][1..] == steps[i..];
      assert Lead(steps[i - 1..]) == [steps[i - 1]];
      assert steps[..i - 1] + [steps[i - 1]] == steps[..i];
    }
  }

  lemma {:induction false} FoldStep(a: Aggregate, steps: seq<LoopStep>, i: nat)
    requires i < |steps|
    ensures Fold(a, Readings(steps[..i + 1])) ==
      if steps[i].Read? then ApplyReading(Fold(a, Readings(steps[..i])), steps[i].reading)
      else Fold(a, Readings(steps[..i]))
  {
    assert steps[..i + 1][..i] == steps[..i];
    if steps[i].Read? {
      var xs := Readings(steps[..i]);
      assert Readings(steps[..i + 1]) == xs + [steps[i].reading];
      assert (xs + [steps[i].reading])[..|xs|] == xs;
    } else {
      assert Readings(steps[..i + 1]) == Readings(steps[..i]);
    }
  }

  /** app.py's globals, with the operating system it runs on. */
  class Monitor {
    /** `detection_stats`. */
    var stats: Stats
    /** `time_series_data`: the four bounded buffers. */
    var timestamps: seq<Timestamp>
    var beeCounts: seq<int>
    var varroaCounts: seq<int>
    var ratios: seq<real>
    /** `detection_active`. */
    var active: bool
    /** `detection_process`, by its PID. */
    var process: Option<int>
    /** The calls made to the metrics database. */
    ghost var requests: seq<DbRequest>
    /** The operating system. */
    const host: Host

    function Series(): TimeSeries
      reads this
    {
      TimeSeries(timestamps, beeCounts, varroaCounts, ratios)
    }

    ghost function Snapshot(): Aggregate
      reads this
    {
      Aggregate(stats, Series(), requests)
    }

    ghost predicate Valid()
      reads this
    {
      Inv(Snapshot())
    }

    /** Module load time: all zero, level Unknown, clock at `now`, nothing running. */
    constructor(now: real, host: Host)
      ensures stats == ResetStats(now) && Series() == EmptySeries && requests == []
      ensures !active && process == None && this.host == host
      ensures Valid()
    {
      stats := ResetStats(now);
      timestamps, beeCounts, varroaCounts, ratios := [], [], [], [];
      active := false;
      process := None;
      requests := [];
      this.host := host;
    }

    /** `update_time_series()`, with the clock reading `stamp`. */
    method UpdateTimeSeries(stamp: Timestamp)
      modifies this
      ensures Snapshot() == Sample(old(Snapshot()), stamp)
      ensures active == old(active) && process == old(process)
    {
      ghost var before := Snapshot();
      var ratio := InfestationRatio(stats.uniqueVarroa, stats.uniqueBees);
      timestamps, beeCounts, varroaCounts, ratios :=
        Append(timestamps, stamp), Append(beeCounts, stats.currentBees),
        Append(varroaCounts, stats.currentVarroa), Append(ratios, ratio);
      if stats.totalFrames % 100 == 0 {
        requests := requests + [SaveMetrics(stats.uniqueBees, stats.uniqueVarroa, stats.totalFrames, stats.fps)];
      }
      assert requests == before.requests + SaveFor(before.stats);
      stats := stats.(infestationRatio := ratio, riskLevel := Classify(ratio));
      assert Series() == PushSample(before.series, stamp, before.stats.currentBees, before.stats.currentVarroa, ratio);
    }

    /** `parse_detection_output(line)`, with `time.time()` = `now` and the clock reading `stamp`. */
    method ParseDetectionOutput(line: string, now: real, stamp: Timestamp)
      modifies this
      ensures Snapshot() == ParseLine(old(Snapshot()), line, now, stamp)
      ensures active == old(active) && process == old(process)
      ensures old(Valid()) ==> Valid()
    {
      var f := Fields(line);
      ApplyFields(f, now, stamp);
    }

    /** The branches of `parse_detection_output` for a line whose marker values are `f`: each
        value that parsed overwrites its fields, then a frame count is handled. */
    method ApplyFields(f: LineFields, now: real, stamp: Timestamp)
      modifies this
      ensures Snapshot() == Step(old(Snapshot()), f, now, stamp)
      ensures active == old(active) && process == old(process)
      ensures old(Valid()) ==> Valid()
    {
      ghost var before := Snapshot();
      StoreCounts(f);
      if f.frameCount.Some? {
        HandleFrameCount(f.frameCount.value, now, stamp);
      }
      if Inv(before) {
        StepKeepsInv(before, f, now, stamp);
      }
    }

    /** The four count branches of `parse_detection_output`: each count that parsed
        overwrites its fields, and nothing else changes. */
    method StoreCounts(f: LineFields)
      modifies this
      ensures stats == ApplyCounts(old(stats), f)
      ensures Series() == old(Series()) && requests == old(requests)
      ensures active == old(active) && process == old(process)
    {
      ghost var s0 := stats;
      if f.uniqueBees.Some? {
        stats := stats.(uniqueBees := f.uniqueBees.value, totalBees := f.uniqueBees.value);
      }
      ghost var s1 := s0.(uniqueBees := f.uniqueBees.GetOr(s0.uniqueBees), totalBees := f.uniqueBees.GetOr(s0.totalBees));
      assert stats == s1;
      if f.uniqueVarroa.Some? {
        stats := stats.(uniqueVarroa := f.uniqueVarroa.value, totalVarroa := f.uniqueVarroa.value);
      }
      ghost var s2 := s1.(uniqueVarroa := f.uniqueVarroa.GetOr(s1.uniqueVarroa), totalVarroa := f.uniqueVarroa.GetOr(s1.totalVarroa));
      assert stats == s2;
      if f.currentBees.Some? {
        stats := stats.(currentBees := f.currentBees.value);
      }
      ghost var s3 := s2.(currentBees := f.currentBees.GetOr(s2.currentBees));
      assert stats == s3;
      if f.currentVarroa.Some? {
        stats := stats.(currentVarroa := f.currentVarroa.value);
      }
    }

    /** One iteration of the read loop on what it finds: the child's exit (collected by
        `poll()`) or the cleared flag end the loop, no output costs a 0.1 s pause, and a line
        is handled. */
    method Consume(step: LoopStep) returns (exited: bool)
      modifies this, host
      ensures exited == step.Exited?
      ensures active == (old(active) && !step.StopRequested?)
      ensures Snapshot() == if step.Read? then ApplyReading(old(Snapshot()), step.reading) else old(Snapshot())
      ensures process == old(process)
      ensures host.Processes() == Collected(old(host.Processes()), ReapedBy([step], process))
      ensures Quiet(old(host.calls), host.calls)
    {
      ghost var gone := ReapedBy([step], process);
      assert gone == if step.Exited? && process.Some? then {process.value} else {};
      assert Collected(host.Processes(), {}) == host.Processes();
      exited := false;
      match step {
        case Exited =>
          exited := true;
          if process.Some? {
            host.Reap(process.value);
            QuietSnoc(old(host.calls), old(host.calls), Reaped(process.value));
          }
        case StopRequested =>
          active := false;
        case NoOutput =>
          host.Sleep(0.1);
          QuietSnoc(old(host.calls), old(host.calls), Slept(0.1));
        case Read(r) =>
          HandleLine(r);
      }
    }

    /** One line read by the loop: stripped, and parsed unless blank. */
    method HandleLine(r: Reading)
      modifies this
      ensures Snapshot() == ApplyReading(old(Snapshot()), r)
      ensures active == old(active) && process == old(process)
      ensures old(Valid()) ==> Valid()
    {
      var line := Strip(r.text);
      if line != [] {
        ParseDetectionOutput(line, r.now, r.stamp);
      }
    }

    /** The `Frame count:` branch of `parse_detection_output` once its value `frame` has parsed. */
    method HandleFrameCount(frame: int, now: real, stamp: Timestamp)
      modifies this
      ensures Snapshot() == FrameCount(old(Snapshot()), frame, now, stamp)
      ensures active == old(active) && process == old(process)
    {
      stats := stats.(totalFrames := frame);
      var timeDiff := now - stats.lastUpdate;
      if timeDiff > 0.0 {
        var frameDiff := frame - stats.lastFrame;
        if frameDiff > 0 && timeDiff > 0.5 {
          stats := stats.(fps := Rate(frameDiff, timeDiff), lastFrame := frame, lastUpdate := now);
        }
      }
      if frame % 10 == 0 {
        UpdateTimeSeries(stamp);
      }
    }

    /** `terminate_detection()`: the child, if there is one, is stopped by escalation and the
        handle cleared; then the sweeps run whether or not there was a child. */
    method TerminateDetection()
      modifies this, host
      ensures process == None
      ensures stats == old(stats) && Series() == old(Series()) && requests == old(requests)
      ensures active == old(active)
      ensures host.live == SweepsLive(old(host.live) - ChildRemoved(old(process), host.permitted),
                                      host.listing, host.permitted)
      ensures host.ended == Uncollected(old(host.ended), old(host.live), host.live, host.children)
      ensures host.children == old(host.children)
      ensures old(process).Some? && host.permitted(old(process).value) ==> old(process).value !in host.live
      ensures host.live <= old(host.live)
      ensures |host.calls| > |old(host.calls)| && host.calls[..|old(host.calls)|] == old(host.calls)
      ensures match old(process)
        case Some(pid) =>
          EscalationCalls(pid, old(host.live), old(host.ended), host.children, host.permitted, host.survives)
            <= host.calls[|old(host.calls)|..]
        case None => true
      ensures Listings(host.calls[|old(host.calls)|..]) == SweepScans()
    {
      ghost var c0 := host.calls;
      ghost var e := ChildCalls(process, host.live, host.ended, host.children, host.permitted, host.survives);
      StopChild();
      ghost var c1, l1 := host.calls, host.live;
      Sweep(host);
      UncollectedTrans(old(host.ended), old(host.live), l1, host.live, host.children);
      EscalationThenSweep(c0, e, c1, host.calls, SweepScans());
    }

    /** The handle part of `terminate_detection()`: the child, if there is one, is stopped by
        escalation, and the handle is cleared. */
    method StopChild()
      modifies this, host
      ensures process == None && active == old(active)
      ensures stats == old(stats) && Series() == old(Series()) && requests == old(requests)
      ensures host.live == old(host.live) - ChildRemoved(old(process), host.permitted)
      ensures host.ended == Uncollected(old(host.ended), old(host.live), host.live, host.children)
      ensures host.children == old(host.children)
      ensures host.calls == old(host.calls) +
        ChildCalls(old(process), old(host.live), old(host.ended), host.children, host.permitted, host.survives)
    {
      match process {
        case Some(pid) =>
          Escalate(host, pid);
        case None =>
          assert old(host.calls) + [] == host.calls;
      }
      process := None;
    }

    /** `terminate_detection()` followed by `clean_gstreamer_resources()`, the pair every
        start, stop and end of run goes through: afterwards there is no child handle, the
        former child is gone, and the statistics are as they were. */
    method ReleaseResources()
      modifies this, host
      ensures process == None && active == old(active)
      ensures stats == old(stats) && Series() == old(Series()) && requests == old(requests)
      ensures host.Processes() == Released(old(host.Processes()), old(process), host.listing, host.permitted)
      ensures old(process).Some? && host.permitted(old(process).value) ==> old(process).value !in host.live
      ensures host.live <= old(host.live)
      ensures |host.calls| > |old(host.calls)| && host.calls[..|old(host.calls)|] == old(host.calls)
      ensures Listings(host.calls[|old(host.calls)|..]) == SweepScans()
      ensures host.calls[|host.calls| - 1] == IpcPurged
    {
      ghost var c0 := host.calls;
      TerminateDetection();
      ghost var c1 := host.calls;
      host.PurgeIpc();
      QuietSnoc(c1, c1, IpcPurged);
      QuietTail(c0, c1, host.calls);
    }

    /** `detection_loop()`, the body of the detection thread, started at time `now`.
        `launched` is the PID `Popen` gave the child (`None` where it raised), and `steps`
        is what the loop finds on its successive iterations. Steps that run out before one
        ends the loop stand for an exception (from `readline()` or the database) that leaves
        the loop for the `finally` block. Afterwards the processes are those the opening
        release, the launch, the loop's collection of the child and the closing release
        leave, and the sweeps have listed twice. */
    method DetectionLoop(now: real, launched: Option<int>, steps: seq<LoopStep>)
      modifies this, host
      ensures !active && process == None
      ensures var lines := if old(active) && launched.Some? then Readings(Lead(steps)) else [];
        var run := Fold(RunStart(now, old(requests)), lines);
        stats == run.stats && Series() == run.series && requests == run.requests + [EndSession]
      ensures Valid()
      ensures var started := Launched(Released(old(host.Processes()), old(process), host.listing, host.permitted), launched);
        var gone := ReapedBy(if old(active) then Lead(steps) else [], launched);
        host.Processes() == Released(Collected(started, gone), launched, host.listing, host.permitted)
      ensures launched.Some? && host.permitted(launched.value) ==> launched.value !in host.live
      ensures launched.Some? && old(active) && Exited in Lead(steps) ==> launched.value !in host.live
      ensures |host.calls| > |old(host.calls)| && host.calls[..|old(host.calls)|] == old(host.calls)
      ensures Listings(host.calls[|old(host.calls)|..]) == SweepScans() + SweepScans()
      ensures host.calls[|host.calls| - 1] == IpcPurged
    {
      ghost var c0 := host.calls;
      OpenRun(now);
      ghost var c1 := host.calls;
      LaunchAndRead(launched, steps);
      ghost var c2 := host.calls;
      FinishRun();
      RunTrace(c0, c1, c2, host.calls, SweepScans());
    }

    /** The opening of `detection_loop()`: the run reset, then the leftovers released and a
        tenth of a second's wait. */
    method OpenRun(now: real)
      modifies this, host
      ensures Snapshot() == RunStart(now, old(requests))
      ensures active == old(active) && process == None
      ensures host.Processes() == Released(old(host.Processes()), old(process), host.listing, host.permitted)
      ensures |host.calls| > |old(host.calls)| && host.calls[..|old(host.calls)|] == old(host.calls)
      ensures Listings(host.calls[|old(host.calls)|..]) == SweepScans()
    {
      ResetRun(now);
      ghost var c0 := host.calls;
      ReleaseResources();
      ghost var c1 := host.calls;
      host.Sleep(0.1);
      QuietSnoc(c1, c1, Slept(0.1));
      QuietTail(c0, c1, host.calls);
    }

    /** The middle of `detection_loop()`: the launch of the child `launched` (when `Popen`
        gave one), and the read loop, which runs only with a child. */
    method LaunchAndRead(launched: Option<int>, steps: seq<LoopStep>)
      modifies this, host
      ensures process == launched
      ensures Snapshot() == Fold(old(Snapshot()), if old(active) && launched.Some? then Readings(Lead(steps)) else [])
      ensures old(Valid()) ==> Valid()
      ensures host.Processes() ==
        Collected(Launched(old(host.Processes()), launched), ReapedBy(if old(active) then Lead(steps) else [], launched))
      ensures Quiet(old(host.calls), host.calls)
    {
      ghost var c0 := host.calls;
      assert Quiet(c0, c0);
      process := launched;
      match launched {
        case None =>
          assert Collected(host.Processes(), {}) == host.Processes();
          assert old(Snapshot()) == Fold(old(Snapshot()), []);
        case Some(pid) =>
          host.Spawn(pid);
          QuietSnoc(c0, c0, Spawned(pid));
          ghost var c2 := host.calls;
          ReadOutput(steps);
          QuietTrans(c0, c2, host.calls);
      }
    }

    /** The opening of `detection_loop()`: statistics reset with the clock at `now`, a
        database session opened, and the chart buffers cleared. */
    method ResetRun(now: real)
      modifies this
      ensures Snapshot() == RunStart(now, old(requests))
      ensures active == old(active) && process == old(process)
    {
      stats := ResetStats(now);
      requests := requests + [StartSession(SessionSource, SessionNotes)];
      timestamps, beeCounts, varroaCounts, ratios := [], [], [], [];
    }

    /** The `finally` block of `detection_loop()`: the session closed, the child and its
        resources released, the flag lowered. */
    method FinishRun()
      modifies this, host
      ensures !active && process == None
      ensures stats == old(stats) && Series() == old(Series()) && requests == old(requests) + [EndSession]
      ensures old(Valid()) ==> Valid()
      ensures host.Processes() == Released(old(host.Processes()), old(process), host.listing, host.permitted)
      ensures old(process).Some? && host.permitted(old(process).value) ==> old(process).value !in host.live
      ensures host.live <= old(host.live)
      ensures |host.calls| > |old(host.calls)| && host.calls[..|old(host.calls)|] == old(host.calls)
      ensures Listings(host.calls[|old(host.calls)|..]) == SweepScans()
      ensures host.calls[|host.calls| - 1] == IpcPurged
    {
      requests := requests + [EndSession];
      ReleaseResources();
      active := false;
    }

    /** The read loop of `detection_loop()`: it runs while the flag is up and the child
        has not exited, handling every line it reads, and leaves the statistics as the
        fold of those lines over the state it started from. */
    method ReadOutput(steps: seq<LoopStep>)
      modifies this, host
      ensures Snapshot() == Fold(old(Snapshot()), if old(active) then Readings(Lead(steps)) else [])
      ensures old(Valid()) ==> Valid()
      ensures process == old(process)
      ensures host.Processes() ==
        Collected(old(host.Processes()), ReapedBy(if old(active) then Lead(steps) else [], process))
      ensures Quiet(old(host.calls), host.calls)
    {
      ghost var entry := active;
      ghost var start := Snapshot();
      assert Collected(host.Processes(), {}) == host.Processes();
      var exited := false;
      var i := 0;
      while i < |steps| && active && !exited
        invariant active ==> entry
        invariant entry ==> Scanned(steps, i, active && !exited)
        invariant !entry ==> i == 0
        invariant Snapshot() == Fold(start, Readings(steps[..i]))
        invariant process == old(process)
        invariant host.Processes() == Collected(old(host.Processes()), ReapedBy(steps[..i], process))
        invariant Quiet(old(host.calls), host.calls)
      {
        ghost var j, c := i, host.calls;
        exited, i := Advance(start, steps, i);
        CollectedStep(old(host.Processes()), steps, j, process);
        QuietTrans(old(host.calls), c, host.calls);
      }
      if entry {
        LeadConsumed(steps, i, active && !exited);
      } else {
        assert steps[..i] == [];
      }
      if Inv(start) {
        FoldKeepsInv(start, Readings(steps[..i]));
      }
    }

    /** One iteration of the read loop, seen as one more step of the fold. */
    method Advance(ghost start: Aggregate, steps: seq<LoopStep>, i: nat) returns (exited: bool, next: nat)
      requires i < |steps|
      requires Snapshot() == Fold(start, Readings(steps[..i]))
      modifies this, host
      ensures next == i + 1 && Snapshot() == Fold(start, Readings(steps[..next]))
      ensures active ==> old(active)
      ensures old(active) && Scanned(steps, i, true) ==> Scanned(steps, next, active && !exited)
      ensures process == old(process)
      ensures host.Processes() == Collected(old(host.Processes()), ReapedBy([steps[i]], process))
      ensures Quiet(old(host.calls), host.calls)
    {
      FoldStep(start, steps, i);
      exited := Consume(steps[i]);
      next := i + 1;
      if old(active) && Scanned(steps, i, true) {
        ScannedStep(steps, i, active && !exited);
      }
    }

    /** The start route: answers `started` and raises the flag only when it was down, after
        clearing out leftovers; the detection thread itself is not run here. */
    method StartDetection() returns (status: Status)
      modifies this, host
      ensures status == if old(active) then AlreadyRunning else Started
      ensures active
      ensures old(active) ==>
        process == old(process) && host.Processes() == old(host.Processes()) && host.calls == old(host.calls)
      ensures !old(active) ==> process == None
      ensures !old(active) ==>
        host.Processes() == Released(old(host.Processes()), old(process), host.listing, host.permitted)
      ensures !old(active) ==>
        |host.calls| >= |old(host.calls)| + 3 && host.calls[..|old(host.calls)|] == old(host.calls)
      ensures !old(active) ==> Listings(host.calls[|old(host.calls)|..]) == SweepScans()
      ensures !old(active) ==> host.calls[|host.calls| - 3..] == [IpcPurged, Slept(0.1), Slept(1.0)]
      ensures stats == old(stats) && Series() == old(Series()) && requests == old(requests)
    {
      if !active {
        ghost var c0 := host.calls;
        ReleaseResources();
        ghost var c1 := host.calls;
        host.Sleep(0.1);
        active := true;
        host.Sleep(1.0);
        StartTrace(c0, c1, host.calls, SweepScans());
        status := Started;
      } else {
        status := AlreadyRunning;
      }
    }

    /** The stop route: answers `stopped` and lowers the flag only when it was up, stopping
        the child and sweeping; otherwise it changes nothing. */
    method StopDetection() returns (status: Status)
      modifies this, host
      ensures status == if old(active) then Stopped else AlreadyStopped
      ensures !active
      ensures !old(active) ==>
        process == old(process) && host.Processes() == old(host.Processes()) && host.calls == old(host.calls)
      ensures old(active) ==> process == None
      ensures old(active) ==>
        host.Processes() == Released(old(host.Processes()), old(process), host.listing, host.permitted)
      ensures old(active) ==> |host.calls| > |old(host.calls)| && host.calls[..|old(host.calls)|] == old(host.calls)
      ensures old(active) ==> Listings(host.calls[|old(host.calls)|..]) == SweepScans()
      ensures old(active) ==> host.calls[|host.calls| - 1] == IpcPurged
      ensures old(active) && old(process).Some? && host.permitted(old(process).value) ==>
        old(process).value !in host.live
      ensures stats == old(stats) && Series() == old(Series()) && requests == old(requests)
    {
      if active {
        active := false;
        ReleaseResources();
        status := Stopped;
      } else {
        status := AlreadyStopped;
      }
    }
  }

  /** Starting and then stopping a fresh monitor answers `started`, then `stopped`. */
  method StartThenStop(host: Host) returns (first: Status, second: Status)
    modifies host
    ensures first == Started && second == Stopped
  {
    var monitor := new Monitor(0.0, host);
    first := monitor.StartDetection();
    second := monitor.StopDetection();
  }

  /** A second start while running answers `already_running`; a second stop, `already_stopped`. */
  method RepeatedRequests(host: Host) returns (statuses: seq<Status>)
    modifies host
    ensures statuses == [Started, AlreadyRunning, Stopped, AlreadyStopped]
  {
    var monitor := new Monitor(0.0, host);
    var a := monitor.StartDetection();
    var b := monitor.StartDetection();
    var c := monitor.StopDetection();
    var d := monitor.StopDetection();
    statuses := [a, b, c, d];
  }
}
